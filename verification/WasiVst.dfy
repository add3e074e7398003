/**
 The browser side of the serial line: the object that drains the receive buffer after every
 byte, and the encoders that fill a byte buffer for each command.
 */
module WasiVst {
  import opened Bytes
  import opened Common
  import opened SerialProtocol
  import opened HostProtocol

  type PromiseId = nat

  datatype Entry = Entry(level: Byte, subsystem: seq<Byte>, message: seq<Byte>)

  const LOG_LIMIT := 1000

  /** What the messages change: the pending parameter promises, and what was posted to the
      worklet, resolved and logged so far. */
  datatype Effects = Effects(
    resolvers: map<nat, PromiseId>,
    posted: seq<Matrix>,
    resolved: seq<(PromiseId, Float64)>,
    logs: seq<Entry>)

  function Take(v: Effects, r: Reply): Effects {
    match r
    case ProcessResp(_, m) => v.(posted := v.posted + [m])
    case ParamResp(id, value) =>
      if id in v.resolvers then v.(resolved := v.resolved + [(v.resolvers[id], value)], resolvers := v.resolvers - {id})
      else v
    case LogEntry(level, s, m) =>
      var all := v.logs + [Entry(level, s, m)];
      v.(logs := if |all| > LOG_LIMIT then all[1..] else all)
  }

  function TakeAll(v: Effects, rs: seq<Reply>): Effects
    decreases rs
  {
    if rs == [] then v else TakeAll(Take(v, rs[0]), rs[1..])
  }

  lemma {:induction false} TakeAllInTwo(v: Effects, a: seq<Reply>, b: seq<Reply>)
    ensures TakeAll(v, a + b) == TakeAll(TakeAll(v, a), b)
    decreases a
  {
    if a == [] {
      assert a + b == b;
    } else {
      assert (a + b)[1..] == a[1..] + b;
      TakeAllInTwo(Take(v, a[0]), a[1..], b);
    }
  }

  function Latest(log: seq<Entry>): (r: seq<Entry>)
    ensures |r| <= LOG_LIMIT
  {
    if |log| > LOG_LIMIT then log[|log| - LOG_LIMIT..] else log
  }

  lemma LatestOfLatest(a: seq<Entry>, b: seq<Entry>)
    ensures Latest(Latest(a) + b) == Latest(a + b)
  {
  }

  lemma LatestInTwo(log: seq<Entry>, a: seq<Entry>, b: seq<Entry>)
    ensures Latest(Latest(log + a) + b) == Latest(log + (a + b))
  {
    LatestOfLatest(log + a, b);
    Regroup(log, a, b);
  }

  lemma TakeLogs(v: Effects, r: Reply)
    requires |v.logs| <= LOG_LIMIT
    ensures Take(v, r).logs == Latest(v.logs + EntryOf(r))
  {
    if !r.LogEntry? {
      assert v.logs + [] == v.logs;
    }
  }

  /** The log keeps its most recent thousand entries, in order. */
  lemma {:induction false} LogKeepsTheLatest(v: Effects, rs: seq<Reply>)
    requires |v.logs| <= LOG_LIMIT
    ensures TakeAll(v, rs).logs == Latest(v.logs + LogEntries(rs))
    decreases rs
  {
    if rs == [] {
      assert v.logs + LogEntries(rs) == v.logs;
    } else {
      TakeLogs(v, rs[0]);
      LogKeepsTheLatest(Take(v, rs[0]), rs[1..]);
      LatestInTwo(v.logs, EntryOf(rs[0]), LogEntries(rs[1..]));
    }
  }

  function EntryOf(r: Reply): seq<Entry> {
    if r.LogEntry? then [Entry(r.level, r.subsystem, r.message)] else []
  }

  function LogEntries(rs: seq<Reply>): seq<Entry> {
    if rs == [] then [] else EntryOf(rs[0]) + LogEntries(rs[1..])
  }

  /** The blocks of processed audio among the messages. */
  function Matrices(rs: seq<Reply>): seq<Matrix> {
    if rs == [] then [] else (if rs[0].ProcessResp? then [rs[0].channels] else []) + Matrices(rs[1..])
  }

  /** Every block of processed audio is posted to the worklet, once and in order. */
  lemma {:induction false} AudioIsPosted(v: Effects, rs: seq<Reply>)
    ensures TakeAll(v, rs).posted == v.posted + Matrices(rs)
    decreases rs
  {
    if rs == [] {
      assert v.posted + [] == v.posted;
    } else {
      AudioIsPosted(Take(v, rs[0]), rs[1..]);
      if rs[0].ProcessResp? {
        Regroup(v.posted, [rs[0].channels], Matrices(rs[1..]));
      } else {
        assert [] + Matrices(rs[1..]) == Matrices(rs[1..]);
      }
    }
  }

  /** One step of the drain does what the front of the buffer allows. */
  ghost predicate Follows(o: Outcome, buf: seq<Byte>, v: Effects, buf': seq<Byte>, v': Effects, more: bool) {
    match o
    case Wait => !more && v' == v && buf' == buf
    case Skip => false
    case Dispatch(reply, used) => more && v' == Take(v, reply) && 0 < used <= |buf| && buf' == buf[used..]
  }

  class WasiVST {
    var rxBuf: seq<Byte>
    var paramResolvers: map<nat, PromiseId>
    var posted: seq<Matrix>
    var resolved: seq<(PromiseId, Float64)>
    var logs: seq<Entry>
    var sent: seq<Byte>

    function View(): Effects
      reads this
    {
      Effects(paramResolvers, posted, resolved, logs)
    }

    constructor ()
      ensures rxBuf == [] && sent == [] && View() == Effects(map[], [], [], [])
    {
      rxBuf, paramResolvers, posted, resolved, logs, sent := [], map[], [], [], [], [];
    }

    method SetParam(id: nat, value: Float64)
      modifies this`sent
      ensures sent == old(sent) + CommandBytes(Command.SetParam(id, value))
    {
      var buf := EncodeSetParam(id, value);
      sent := sent + buf[..];
    }

    /** The promise waits for the response to this id. */
    method GetParam(id: nat, promise: PromiseId)
      modifies this`sent, this`paramResolvers
      ensures View() == old(View()).(resolvers := old(paramResolvers)[id := promise])
      ensures sent == old(sent) + CommandBytes(Command.GetParam(id))
    {
      paramResolvers := paramResolvers[id := promise];
      var buf := EncodeGetParam(id);
      sent := sent + buf[..];
    }

    /** The worklet asks for a block of audio to be processed. */
    method OnProcess(channels: Matrix)
      modifies this`sent
      ensures sent == old(sent) + CommandBytes(Process(channels))
    {
      var buf := EncodeProcess(channels);
      sent := sent + buf[..];
    }

    /** The listener on the emulator's serial output. */
    method OnSerialByte(b: Byte)
      modifies this
      ensures sent == old(sent)
      ensures View() == TakeAll(old(View()), Parse(old(rxBuf) + [b]).0)
      ensures posted == old(posted) + Matrices(Parse(old(rxBuf) + [b]).0)
      ensures rxBuf == Parse(old(rxBuf) + [b]).1
    {
      rxBuf := rxBuf + [b];
      DrainAndDispatch();
    }

    method DrainAndDispatch()
      modifies this
      ensures sent == old(sent)
      ensures View() == TakeAll(old(View()), Parse(old(rxBuf)).0)
      ensures posted == old(posted) + Matrices(Parse(old(rxBuf)).0)
      ensures rxBuf == Parse(old(rxBuf)).1
    {
      ghost var start, messages := View(), Parse(rxBuf).0;
      while |rxBuf| > 0
        invariant TakeAll(View(), Parse(rxBuf).0) == TakeAll(old(View()), Parse(old(rxBuf)).0)
        invariant Parse(rxBuf).1 == Parse(old(rxBuf)).1 && sent == old(sent)
        decreases |rxBuf|
      {
        var tag := rxBuf[0];
        if tag == PROCESS_RESP || tag == GET_PARAM_RESP || tag == LOG {
          ghost var v, buf := View(), rxBuf;
          var more := DispatchFrame(tag);
          ParseStep(buf, ParseOne(buf));
          if !more { break; }
          TakeAllStep(v, ParseOne(buf).reply, Parse(rxBuf).0);
        } else {
          rxBuf := rxBuf[1..];
        }
      }
      AudioIsPosted(start, messages);
    }

    /** One of the three kinds of frame at the front; false when it is not complete. */
    method DispatchFrame(tag: Byte) returns (more: bool)
      requires |rxBuf| > 0 && tag == rxBuf[0] && tag in {PROCESS_RESP, GET_PARAM_RESP, LOG}
      modifies this
      ensures sent == old(sent)
      ensures Follows(ParseOne(old(rxBuf)), old(rxBuf), old(View()), rxBuf, View(), more)
    {
      if tag == PROCESS_RESP {
        more := DispatchProcessResp();
      } else if tag == GET_PARAM_RESP {
        more := DispatchParamResp();
      } else {
        more := DispatchLog();
      }
    }

    method DispatchProcessResp() returns (more: bool)
      requires |rxBuf| > 0 && rxBuf[0] == PROCESS_RESP
      modifies this
      ensures sent == old(sent)
      ensures Follows(ParseProcessResp(old(rxBuf)), old(rxBuf), old(View()), rxBuf, View(), more)
    {
      if |rxBuf| < 9 { return false; }
      var sampleCount, chCount := U32At(rxBuf, 1), U32At(rxBuf, 5);
      var total := 9 + 4 * (sampleCount * chCount);
      if |rxBuf| < total { return false; }
      var frame := rxBuf[..total];
      rxBuf := rxBuf[total..];
      DecodeProcessResp(frame, sampleCount, chCount, total - 9);
      assert frame[9..] == old(rxBuf)[9..total];
      return true;
    }

    method DispatchParamResp() returns (more: bool)
      requires |rxBuf| > 0 && rxBuf[0] == GET_PARAM_RESP
      modifies this
      ensures sent == old(sent)
      ensures Follows(ParseOne(old(rxBuf)), old(rxBuf), old(View()), rxBuf, View(), more)
    {
      if |rxBuf| < 13 { return false; }
      var id, value := U32At(rxBuf, 1), rxBuf[5..13];
      rxBuf := rxBuf[13..];
      if id in paramResolvers {
        resolved := resolved + [(paramResolvers[id], value)];
      }
      paramResolvers := paramResolvers - {id};
      return true;
    }

    method DispatchLog() returns (more: bool)
      requires |rxBuf| > 0 && rxBuf[0] == LOG
      modifies this
      ensures sent == old(sent)
      ensures Follows(ParseLog(old(rxBuf)), old(rxBuf), old(View()), rxBuf, View(), more)
    {
      if |rxBuf| < 10 { return false; }
      var subLen := U32At(rxBuf, 2);
      if |rxBuf| < 10 + subLen { return false; }  // the read of the length throws
      var msgLen := U32At(rxBuf, 6 + subLen);
      var total := 10 + subLen + msgLen;
      if |rxBuf| < total { return false; }
      var entry := Entry(rxBuf[1], rxBuf[6..6 + subLen], rxBuf[10 + subLen..total]);
      rxBuf := rxBuf[total..];
      logs := logs + [entry];
      if |logs| > LOG_LIMIT {
        logs := logs[1..];
      }
      return true;
    }

    method DecodeProcessResp(frame: seq<Byte>, sampleCount: nat, chCount: nat, ghost size: nat)
      requires size == 4 * (sampleCount * chCount) && |frame| == 9 + size
      modifies this`posted
      ensures posted == old(posted) + [TakeMatrix(frame[9..], sampleCount, chCount)]
    {
      var channels: Matrix := [];
      ghost var audio := frame[9..];
      var offset := 9;
      for c := 0 to chCount
        invariant 9 <= offset <= |frame|
        invariant DecodedTo(audio, sampleCount, c, offset - 9, channels) && posted == old(posted)
      {
        OffsetFits(sampleCount, c, chCount);
        DecodeNext(audio, sampleCount, c, offset - 9, channels);
        var ch := DecodeRow(frame, offset, sampleCount);
        SliceOfRest(frame, 9, offset - 9, 4 * sampleCount);
        offset := offset + 4 * sampleCount;
        channels := channels + [ch];
      }
      DecodedAll(audio, sampleCount, chCount, channels);
      posted := posted + [channels];
    }

    static method DecodeRow(frame: seq<Byte>, at: nat, sampleCount: nat) returns (ch: Row)
      requires at + 4 * sampleCount <= |frame|
      ensures ch == TakeRow(frame[at..at + 4 * sampleCount], sampleCount)
    {
      var offset := at;
      ch := [];
      for i := 0 to sampleCount
        invariant offset == at + 4 * i
        invariant ch == TakeRow(frame[at..offset], i)
      {
        assert frame[at..offset + 4][..4 * i] == frame[at..offset];
        ch := ch + [frame[offset..offset + 4]];
        offset := offset + 4;
      }
    }

    // -------------------------------------------------------------------------
    // Encoders
    // -------------------------------------------------------------------------

    static method EncodeLoad(path: seq<Byte>) returns (buf: array<Byte>)
      ensures fresh(buf) && buf[..] == LoadBytes(path)
    {
      buf := new Byte[5 + |path|](_ => 0);
      buf[0] := LOAD;
      assert buf[..1] == [LOAD];
      SetUint32(buf, 1, |path|);
      SetBytes(buf, 5, path);
      assert buf[..buf.Length] == buf[..];
    }

    static method EncodeProcess(channels: Matrix) returns (buf: array<Byte>)
      ensures fresh(buf) && buf[..] == CommandBytes(Process(channels))
    {
      var chCount, sampleCount := |channels|, SampleCount(channels);
      var audioSize := 4 * (sampleCount * chCount);
      buf := new Byte[13 + audioSize](_ => 0);
      EncodeHeader(buf, sampleCount, chCount, audioSize);
      EncodeRows(buf, channels, sampleCount, audioSize);
      assert buf[..buf.Length] == buf[..];
    }

    static method EncodeHeader(buf: array<Byte>, sampleCount: nat, chCount: nat, audioSize: nat)
      requires buf.Length >= 13
      modifies buf
      ensures buf[..13]
              == HeaderBytes(LittleEndian(sampleCount, 4), LittleEndian(chCount, 4), LittleEndian(audioSize, 4))
    {
      buf[0] := PROCESS;
      assert buf[..1] == [PROCESS];
      SetUint32(buf, 1, sampleCount);
      SetUint32(buf, 5, chCount);
      SetUint32(buf, 9, audioSize);
    }

    static method EncodeRows(buf: array<Byte>, channels: Matrix, sampleCount: nat, ghost size: nat)
      requires size == 4 * (sampleCount * |channels|) && buf.Length == 13 + size
      modifies buf
      ensures buf[..buf.Length] == old(buf[..13]) + MatrixBytes(Fit(channels, |channels|, sampleCount))
    {
      ghost var head := buf[..13];
      var offset := 13;
      EncodeNone(head, channels, sampleCount);
      for c := 0 to |channels|
        invariant 13 <= offset <= buf.Length
        invariant EncodedTo(head, channels, sampleCount, c, offset - 13, buf[..offset])
      {
        OffsetFits(sampleCount, c, |channels|);
        EncodeNext(head, channels, sampleCount, c, offset - 13, buf[..offset]);
        EncodeRow(buf, offset, channels[c], sampleCount);
        offset := offset + 4 * sampleCount;
      }
      EncodedAll(head, channels, sampleCount, offset - 13, buf[..offset]);
    }

    static method EncodeRow(buf: array<Byte>, at: nat, ch: Row, sampleCount: nat)
      requires at + 4 * sampleCount <= buf.Length
      modifies buf
      ensures buf[..at + 4 * sampleCount] == old(buf[..at]) + RowBytes(FitRow(ch, sampleCount))
    {
      var offset := at;
      ghost var fit := FitRow(ch, sampleCount);
      for i := 0 to sampleCount
        invariant offset == at + 4 * i
        invariant buf[..offset] == old(buf[..at]) + RowBytes(fit[..i])
      {
        AppendValue(old(buf[..at]), fit, i, buf[..offset]);
        SetBytes(buf, offset, if i < |ch| then ch[i] else ZERO);
        offset := offset + 4;
      }
      assert fit[..sampleCount] == fit;
    }

    static method EncodeSetParam(id: nat, value: Float64) returns (buf: array<Byte>)
      ensures fresh(buf) && buf[..] == CommandBytes(Command.SetParam(id, value))
    {
      buf := new Byte[13](_ => 0);
      buf[0] := SET_PARAM;
      assert buf[..1] == [SET_PARAM];
      SetUint32(buf, 1, id);
      SetBytes(buf, 5, value);
      assert buf[..buf.Length] == buf[..];
    }

    static method EncodeGetParam(id: nat) returns (buf: array<Byte>)
      ensures fresh(buf) && buf[..] == CommandBytes(Command.GetParam(id))
    {
      buf := new Byte[5](_ => 0);
      buf[0] := GET_PARAM;
      SetUint32(buf, 1, id);
    }

    /** Writes the bytes at an offset; what lies before is kept. */
    static method SetBytes(buf: array<Byte>, at: nat, bs: seq<Byte>)
      requires at + |bs| <= buf.Length
      modifies buf
      ensures buf[..at + |bs|] == old(buf[..at]) + bs
    {
      for k := 0 to |bs|
        invariant buf[..at + k] == old(buf[..at]) + bs[..k]
      {
        buf[at + k] := bs[k];
      }
    }

    /** A 32-bit store keeps the number modulo 2^32. */
    static method SetUint32(buf: array<Byte>, at: nat, v: nat)
      requires at + 4 <= buf.Length
      modifies buf
      ensures buf[..at + 4] == old(buf[..at]) + LittleEndian(v, 4)
    {
      SetBytes(buf, at, LittleEndian(v, 4));
    }
  }

  lemma SliceOfRest(bs: seq<Byte>, from: nat, at: nat, len: nat)
    requires from + at + len <= |bs|
    ensures bs[from..][at..at + len] == bs[from + at..from + at + len]
  {
  }

  ghost predicate DecodedTo(audio: seq<Byte>, n: nat, c: nat, k: nat, channels: Matrix) {
    k == 4 * (n * c) && k <= |audio| && channels == TakeMatrix(audio[..k], n, c)
  }

  lemma DecodeNext(audio: seq<Byte>, n: nat, c: nat, k: nat, channels: Matrix)
    requires DecodedTo(audio, n, c, k, channels) && k + 4 * n <= |audio|
    ensures DecodedTo(audio, n, c + 1, k + 4 * n, channels + [TakeRow(audio[k..k + 4 * n], n)])
  {
    MatrixGrows(audio, n, c, k);
  }

  lemma DecodedAll(audio: seq<Byte>, n: nat, c: nat, channels: Matrix)
    requires DecodedTo(audio, n, c, |audio|, channels)
    ensures channels == TakeMatrix(audio, n, c)
  {
    assert audio[..|audio|] == audio;
  }

  /** The matrix of one more channel; k is where its row starts. */
  lemma MatrixGrows(audio: seq<Byte>, n: nat, c: nat, k: nat)
    requires k == 4 * (n * c) && k + 4 * n <= |audio|
    ensures 4 * (n * (c + 1)) == k + 4 * n
    ensures TakeMatrix(audio[..k + 4 * n], n, c + 1) == TakeMatrix(audio[..k], n, c) + [TakeRow(audio[k..k + 4 * n], n)]
  {
    MulSucc(n, c);
    var bs := audio[..k + 4 * n];
    assert bs[..k] == audio[..k] && bs[k..] == audio[k..k + 4 * n];
  }

  lemma ParseStep(buf: seq<Byte>, o: Outcome)
    requires buf != [] && o == ParseOne(buf)
    ensures o.Wait? ==> Parse(buf) == ([], buf)
    ensures o.Dispatch? ==> Parse(buf) == ([o.reply] + Parse(buf[o.used..]).0, Parse(buf[o.used..]).1)
  {
  }

  lemma TakeAllStep(v: Effects, r: Reply, rs: seq<Reply>)
    ensures TakeAll(v, [r] + rs) == TakeAll(Take(v, r), rs)
  {
    assert ([r] + rs)[1..] == rs;
  }

  ghost predicate EncodedTo(head: seq<Byte>, channels: Matrix, n: nat, c: nat, k: nat, written: seq<Byte>)
    requires c <= |channels|
  {
    k == 4 * (n * c) && written == head + MatrixBytes(Fit(channels, |channels|, n)[..c])
  }

  lemma EncodeNone(head: seq<Byte>, channels: Matrix, n: nat)
    ensures EncodedTo(head, channels, n, 0, 0, head)
  {
    assert Fit(channels, |channels|, n)[..0] == [];
    assert head + [] == head;
  }

  lemma AppendValue(head: seq<Byte>, row: Row, i: nat, written: seq<Byte>)
    requires i < |row| && written == head + RowBytes(row[..i])
    ensures written + row[i] == head + RowBytes(row[..i + 1])
  {
    assert row[..i + 1][..i] == row[..i];
    Regroup(head, RowBytes(row[..i]), row[i]);
  }

  lemma AppendNext(head: seq<Byte>, m: Matrix, c: nat, written: seq<Byte>)
    requires c < |m| && written == head + MatrixBytes(m[..c])
    ensures written + RowBytes(m[c]) == head + MatrixBytes(m[..c + 1])
  {
    MatrixBytesNext(m, c);
  }

  lemma EncodeNext(head: seq<Byte>, channels: Matrix, n: nat, c: nat, k: nat, written: seq<Byte>)
    requires c < |channels| && EncodedTo(head, channels, n, c, k, written)
    ensures EncodedTo(head, channels, n, c + 1, k + 4 * n, written + RowBytes(FitRow(channels[c], n)))
  {
    MulSucc(n, c);
    AppendNext(head, Fit(channels, |channels|, n), c, written);
  }

  lemma EncodedAll(head: seq<Byte>, channels: Matrix, n: nat, k: nat, written: seq<Byte>)
    requires EncodedTo(head, channels, n, |channels|, k, written)
    ensures k == 4 * (n * |channels|) && written == head + MatrixBytes(Fit(channels, |channels|, n))
  {
    var fit := Fit(channels, |channels|, n);
    assert fit[..|channels|] == fit;
  }

  lemma OffsetFits(n: nat, c: nat, channels: nat)
    requires c < channels
    ensures n * (c + 1) == n * c + n <= n * channels
  {
    MulSucc(n, c);
    Distribute(c + 1, channels - c - 1, n);
  }

  /** Receiving bytes one by one, as the listener does. */
  function Receive(v: Effects, buf: seq<Byte>, bs: seq<Byte>): (Effects, seq<Byte>)
    decreases |bs|
  {
    if bs == [] then (v, buf)
    else
      var (rs, rest) := Parse(buf + [bs[0]]);
      Receive(TakeAll(v, rs), rest, bs[1..])
  }

  /** Byte by byte the object ends as if all bytes had come at once. */
  lemma {:induction false} ByteByByte(v: Effects, buf: seq<Byte>, bs: seq<Byte>)
    requires Parse(buf) == ([], buf)
    ensures var (rs, rest) := Parse(buf + bs);
      Receive(v, buf, bs) == (TakeAll(v, rs), rest)
    decreases |bs|
  {
    if bs == [] {
      assert buf + bs == buf;
    } else {
      var first := buf + [bs[0]];
      assert buf + bs == first + bs[1..];
      var (rs, rest) := Parse(first);
      RestIsDrained(first);
      ParseInTwo(first, bs[1..]);
      ByteByByte(TakeAll(v, rs), rest, bs[1..]);
      TakeAllInTwo(v, rs, Parse(rest + bs[1..]).0);
    }
  }

  // ---------------------------------------------------------------------------
  // Parameter requests
  // ---------------------------------------------------------------------------

  /** The plugin's state after the commands. */
  function StateAfter<S>(p: Plugin<S>, st: S, cs: seq<Command>): S {
    Answers(p, st, cs).0
  }

  /** A request for a parameter whose id is pending and has not been answered before it: its
      promise is resolved with the value that the parameter has in the plugin after all the
      commands sent before the request. */
  lemma {:induction false} RequestIsAnswered<S>(p: Plugin<S>, st: S, cs: seq<Command>, v: Effects, i: nat)
    requires i < |cs| && cs[i].GetParam? && cs[i].id in v.resolvers
    requires forall j :: 0 <= j < i && cs[j].GetParam? ==> cs[j].id != cs[i].id
    ensures var value := p.getParameter(StateAfter(p, st, cs[..i]), cs[i].id);
      (v.resolvers[cs[i].id], value) in TakeAll(v, Answers(p, st, cs).1).resolved
    decreases i
  {
    var (st', rs) := Answer(p, st, cs[0]);
    var later := Answers(p, st', cs[1..]).1;
    var v' := TakeAll(v, rs);
    TakeAllInTwo(v, rs, later);
    if i == 0 {
      assert StateAfter(p, st, cs[..0]) == st;
      assert v' == Take(v, rs[0]);
      assert v'.resolved[|v.resolved|] == (v.resolvers[cs[0].id], p.getParameter(st, cs[0].id));
      ResolvedStays(v', later);
    } else {
      assert cs[..i][1..] == cs[1..][..i - 1];
      OtherAnswersKeep(p, st, cs[0], v, cs[i].id);
      RequestIsAnswered(p, st', cs[1..], v', i - 1);
    }
  }

  lemma OtherAnswersKeep<S>(p: Plugin<S>, st: S, c: Command, v: Effects, id: nat)
    requires id in v.resolvers && (c.GetParam? ==> c.id != id)
    ensures var v' := TakeAll(v, Answer(p, st, c).1);
      id in v'.resolvers && v'.resolvers[id] == v.resolvers[id]
  {
    var rs := Answer(p, st, c).1;
    if rs != [] {
      assert TakeAll(v, rs) == Take(v, rs[0]);
    }
  }

  lemma {:induction false} ResolvedStays(v: Effects, rs: seq<Reply>)
    ensures v.resolved <= TakeAll(v, rs).resolved
    decreases rs
  {
    if rs != [] {
      ResolvedStays(Take(v, rs[0]), rs[1..]);
    }
  }
}
