/**
 The one-way byte stream that carries CLAP plugin state. The streams of a host move as many
 bytes per call as they like; the loops here have to cope with every choice.
 */
module ClapStream {
  import opened Bytes
  import opened Common

  const READ_CHUNK_SIZE := 0x10_0000

  /** A host's input stream. A call delivers at least one byte and at most what is asked for,
      in order, until `limit`; there, and from then on, it returns zero (the end of the data)
      or less (an error). */
  class HostInput {
    const data: seq<Byte>
    const limit: nat
    var delivered: nat

    ghost predicate Valid()
      reads this
    {
      delivered <= limit <= |data|
    }

    constructor (data: seq<Byte>, limit: nat)
      requires limit <= |data|
      ensures Valid() && this.data == data && this.limit == limit && delivered == 0
    {
      this.data, this.limit, delivered := data, limit, 0;
    }

    method Read(size: nat) returns (count: int, bytes: seq<Byte>)
      requires Valid() && size > 0
      modifies this
      ensures Valid()
      ensures count <= 0 <==> old(delivered) == limit
      ensures count <= 0 ==> bytes == [] && delivered == old(delivered)
      ensures count > 0 ==>
        count <= size && delivered == old(delivered) + count && bytes == data[old(delivered)..delivered]
    {
      if delivered == limit {
        count :| count <= 0;
        bytes := [];
      } else {
        count :| 1 <= count <= size && count <= limit - delivered;
        bytes := data[delivered..delivered + count];
        delivered := delivered + count;
      }
    }
  }

  /** A host's output stream, which takes at least one of the bytes offered. */
  class HostOutput {
    var received: seq<Byte>

    constructor ()
      ensures received == []
    {
      received := [];
    }

    method Write(bytes: seq<Byte>) returns (count: int)
      requires bytes != []
      modifies this
      ensures 1 <= count <= |bytes| && received == old(received) + bytes[..count]
    {
      count :| 1 <= count <= |bytes|;
      received := received + bytes[..count];
    }
  }

  /** What stands behind an input stream's read function: a host, or a stream of ours. */
  datatype Istream = Host(host: HostInput) | Own(stream: Stream) {
    function Object(): object {
      match this
      case Host(h) => h
      case Own(s) => s
    }

    ghost predicate Valid()
      reads Object()
    {
      match this
      case Host(h) => h.Valid()
      case Own(s) => s.Valid()
    }

    /** What it will still deliver. */
    ghost function Remaining(): seq<Byte>
      requires Valid()
      reads Object()
    {
      match this
      case Host(h) => h.data[h.delivered..h.limit]
      case Own(s) => s.Unread()
    }

    method Read(size: nat) returns (count: int, bytes: seq<Byte>)
      requires Valid() && size > 0
      modifies Object()
      ensures Valid()
      ensures count <= 0 <==> old(Remaining()) == []
      ensures count <= 0 ==> bytes == [] && Remaining() == []
      ensures count > 0 ==> count == |bytes| <= size && old(Remaining()) == bytes + Remaining()
      ensures Own? ==> stream.buffer == old(stream.buffer)
    {
      match this {
        case Host(h) => count, bytes := h.Read(size);
        case Own(s) => count, bytes := s.IstreamRead(size);
      }
    }
  }

  class Stream {
    var buffer: seq<Byte>
    var readPos: nat

    ghost predicate Valid()
      reads this
    {
      readPos <= |buffer|
    }

    ghost function Unread(): seq<Byte>
      requires Valid()
      reads this
    {
      buffer[readPos..]
    }

    constructor ()
      ensures Valid() && buffer == [] && readPos == 0
    {
      buffer, readPos := [], 0;
    }

    /** Takes everything the input stream still has to deliver, a chunk at a time. */
    constructor FromIstream(original: Istream)
      requires original.Valid()
      modifies original.Object()
      ensures Valid() && readPos == 0
      ensures buffer == old(original.Remaining())
      ensures original.Valid() && original.Remaining() == []
      ensures original.Own? ==> original.stream.buffer == old(original.stream.buffer)
    {
      buffer, readPos := [], 0;
      new;
      ghost var total := original.Remaining();
      ghost var collected := [];
      var streamLength := 0;
      buffer := Resized(buffer, streamLength + READ_CHUNK_SIZE);
      var count, bytes := original.Read(READ_CHUNK_SIZE);
      while count > 0
        invariant original.Valid() && readPos == 0
        invariant original.Own? ==> original.stream.buffer == old(original.stream.buffer)
        invariant |buffer| == streamLength + READ_CHUNK_SIZE && buffer[..streamLength] == collected
        invariant count <= 0 ==> bytes == [] && original.Remaining() == []
        invariant count > 0 ==> count == |bytes| <= READ_CHUNK_SIZE
        invariant collected + (bytes + original.Remaining()) == total
        decreases |original.Remaining()| + |bytes|
      {
        Regroup(collected, bytes, original.Remaining());
        Store(streamLength, bytes);
        collected := collected + bytes;
        streamLength := streamLength + count;
        count, bytes := original.Read(READ_CHUNK_SIZE);
      }
      assert collected + ([] + []) == collected;
      buffer := Resized(buffer, streamLength);
    }

    /** The bytes of a chunk in the buffer, with room for the next one behind them. */
    method Store(at: nat, bytes: seq<Byte>)
      requires at + |bytes| <= |buffer| == at + READ_CHUNK_SIZE
      modifies this`buffer
      ensures |buffer| == at + |bytes| + READ_CHUNK_SIZE && buffer[..at + |bytes|] == old(buffer)[..at] + bytes
    {
      StoreChunk(buffer, at, bytes);
      buffer := buffer[..at] + bytes + buffer[at + |bytes|..];
      buffer := Resized(buffer, at + |bytes| + READ_CHUNK_SIZE);
    }

    /** Hands the whole buffer to the host, however little it takes at a time. */
    method WriteToStream(original: HostOutput)
      modifies original
      ensures original.received == old(original.received) + buffer
    {
      var written := 0;
      while written < |buffer|
        invariant written <= |buffer|
        invariant original.received == old(original.received) + buffer[..written]
      {
        var count := original.Write(buffer[written..]);
        assert buffer[..written + count] == buffer[..written] + buffer[written..][..count];
        written := written + count;
      }
      assert buffer[..written] == buffer;
    }

    method OstreamWrite(data: seq<Byte>) returns (count: int)
      requires Valid()
      modifies this`buffer
      ensures Valid() && count == |data| && buffer == old(buffer) + data
    {
      var startPos := |buffer|;
      buffer := Resized(buffer, startPos + |data|);
      buffer := buffer[..startPos] + data + buffer[startPos + |data|..];
      count := |data|;
    }

    method IstreamRead(size: nat) returns (count: int, bytes: seq<Byte>)
      requires Valid()
      modifies this`readPos
      ensures Valid() && count == |bytes| == Min(size, old(|Unread()|))
      ensures old(Unread()) == bytes + Unread()
    {
      count := Min(size, |buffer| - readPos);
      bytes := buffer[readPos..readPos + count];
      readPos := readPos + count;
    }
  }

  lemma StoreChunk(buffer: seq<Byte>, at: nat, bytes: seq<Byte>)
    requires at + |bytes| <= |buffer| <= at + READ_CHUNK_SIZE
    ensures var stored := buffer[..at] + bytes + buffer[at + |bytes|..];
      Resized(stored, at + |bytes| + READ_CHUNK_SIZE)[..at + |bytes|] == buffer[..at] + bytes
  {
  }

  /** What reads of the given sizes deliver, one after another, and what they leave unread. */
  function Deliveries(unread: seq<Byte>, sizes: seq<nat>): (r: (seq<seq<Byte>>, seq<Byte>))
    decreases sizes
  {
    if sizes == [] then ([], unread)
    else
      var count := Min(sizes[0], |unread|);
      var (later, rest) := Deliveries(unread[count..], sizes[1..]);
      ([unread[..count]] + later, rest)
  }

  function Sum(sizes: seq<nat>): nat {
    if sizes == [] then 0 else sizes[0] + Sum(sizes[1..])
  }

  /** However a plugin splits its reads, it gets the bytes in order, none missing or twice,
      and as many as it asked for in all as long as there are any. */
  lemma {:induction false} ReadsDeliverInOrder(unread: seq<Byte>, sizes: seq<nat>)
    ensures var (pieces, rest) := Deliveries(unread, sizes);
      && |pieces| == |sizes|
      && Concat(pieces) + rest == unread
      && |Concat(pieces)| == Min(Sum(sizes), |unread|)
    decreases sizes
  {
    if sizes == [] {
      assert Concat([]) + unread == unread;
    } else {
      var count := Min(sizes[0], |unread|);
      ReadsDeliverInOrder(unread[count..], sizes[1..]);
      var (later, rest) := Deliveries(unread[count..], sizes[1..]);
      var pieces := [unread[..count]] + later;
      assert pieces[1..] == later;
      Regroup(unread[..count], Concat(later), rest);
      assert unread[..count] + unread[count..] == unread;
    }
  }
}
