/**
 Length-prefixed messages on a stream socket: each serialised object is preceded by its size
 as a 64-bit little-endian integer. The serialised object itself is an opaque byte string.
 */
module Framing {
  import opened Bytes
  import opened Common

  function Frame(m: seq<Byte>): seq<Byte> {
    LittleEndian(|m|, 8) + m
  }

  /** Eight bytes of length, the lowest first, and the object. */
  lemma FrameOnTheWire(m: seq<Byte>)
    ensures Frame(m) == FourBytes(|m|) + FourBytes(|m| / U32_LIMIT) + m
  {
    Shifted32(|m|);
    LittleEndianSplit(|m|, 4, 4);
    FourBytesOf(|m|);
    FourBytesOf(|m| / U32_LIMIT);
  }

  function Frames(ms: seq<seq<Byte>>): seq<Byte> {
    if ms == [] then [] else Frame(ms[0]) + Frames(ms[1..])
  }

  /** The first message of a stream and what follows it, once all its bytes are there. */
  function Next(stream: seq<Byte>): (r: Option<(seq<Byte>, seq<Byte>)>)
    ensures r.Some? ==> |r.value.1| < |stream|
  {
    if |stream| < 8 then None
    else
      var size := FromLittleEndian(stream[..8]);
      if |stream| < 8 + size then None else Some((stream[8..8 + size], stream[8 + size..]))
  }

  /** One direction of a connected socket: the bytes written and not yet read. */
  class Socket {
    var stream: seq<Byte>

    method WriteObject(m: seq<Byte>)
      requires |m| < Limit(8)
      modifies this
      ensures stream == old(stream) + Frame(m)
    {
      stream := stream + LittleEndian(|m|, 8);
      stream := stream + m;
    }

    /** Blocks, that is gives None and takes nothing, until the whole object is there. */
    method ReadObject() returns (r: Option<seq<Byte>>)
      modifies this
      ensures match Next(old(stream))
              case None => r == None && stream == old(stream)
              case Some(p) => r == Some(p.0) && stream == p.1
    {
      if |stream| < 8 {
        return None;
      }
      var size := FromLittleEndian(stream[..8]);
      if |stream| < 8 + size {
        return None;
      }
      r := Some(stream[8..8 + size]);
      stream := stream[8 + size..];
    }
  }

  lemma FirstFrame(m: seq<Byte>, rest: seq<Byte>)
    requires |m| < Limit(8)
    ensures Next(Frame(m) + rest) == Some((m, rest))
  {
    var stream := Frame(m) + rest;
    assert stream[..8] == LittleEndian(|m|, 8);
    LittleEndianRoundTrip(|m|, 8);
    assert stream[8..8 + |m|] == m && stream[8 + |m|..] == rest;
  }

  /** All complete messages of a stream, and the bytes of the one still incomplete. */
  function ReadAll(stream: seq<Byte>): (r: (seq<seq<Byte>>, seq<Byte>))
    decreases |stream|
  {
    match Next(stream)
    case None => ([], stream)
    case Some((m, rest)) => var (ms, left) := ReadAll(rest); ([m] + ms, left)
  }

  /** However the messages were written, the reader gets exactly them, in order, and of a
      message not yet complete it takes nothing. */
  lemma {:induction false} ReadsWhatWasWritten(ms: seq<seq<Byte>>, partial: seq<Byte>)
    requires forall i :: 0 <= i < |ms| ==> |ms[i]| < Limit(8)
    requires Next(partial).None?
    ensures ReadAll(Frames(ms) + partial) == (ms, partial)
  {
    if ms == [] {
      assert Frames(ms) + partial == partial;
    } else {
      Regroup(Frame(ms[0]), Frames(ms[1..]), partial);
      FirstFrame(ms[0], Frames(ms[1..]) + partial);
      ReadsWhatWasWritten(ms[1..], partial);
      assert ms == [ms[0]] + ms[1..];
    }
  }

  /** A proper beginning of a frame is not a message yet. */
  lemma PartialFrameIsNoMessage(m: seq<Byte>, n: nat)
    requires |m| < Limit(8) && n < |Frame(m)|
    ensures Next(Frame(m)[..n]).None?
  {
    if n >= 8 {
      assert Frame(m)[..n][..8] == LittleEndian(|m|, 8);
      LittleEndianRoundTrip(|m|, 8);
    }
  }
}
