/**
 The frames on the serial line between the browser and the guest host: their byte layout,
 the browser's incremental parser as a function of the bytes received, and the round trip
 from the host's frames to the browser's messages.
 */
module SerialProtocol {
  import opened Bytes
  import opened Common

  const LOAD: Byte := 1
  const PROCESS: Byte := 2
  const PROCESS_RESP: Byte := 3
  const SET_PARAM: Byte := 4
  const GET_PARAM: Byte := 5
  const GET_PARAM_RESP: Byte := 6
  const LOG: Byte := 7

  /** Floating-point values are opaque groups of bytes. */
  type Float32 = bs: seq<Byte> | |bs| == 4 witness [0, 0, 0, 0]
  type Float64 = bs: seq<Byte> | |bs| == 8 witness [0, 0, 0, 0, 0, 0, 0, 0]

  const ZERO: Float32 := [0, 0, 0, 0]

  type Row = seq<Float32>
  type Matrix = seq<Row>

  ghost predicate HasShape(m: Matrix, n: nat) {
    forall c :: 0 <= c < |m| ==> |m[c]| == n
  }

  function RowBytes(row: Row): (bs: seq<Byte>)
    ensures |bs| == 4 * |row|
  {
    if row == [] then [] else RowBytes(row[..|row| - 1]) + row[|row| - 1]
  }

  function MatrixBytes(m: Matrix): seq<Byte> {
    if m == [] then [] else MatrixBytes(m[..|m| - 1]) + RowBytes(m[|m| - 1])
  }

  lemma MatrixBytesNext(m: Matrix, c: nat)
    requires c < |m|
    ensures MatrixBytes(m[..c + 1]) == MatrixBytes(m[..c]) + RowBytes(m[c])
  {
    assert m[..c + 1][..c] == m[..c];
  }

  lemma {:induction false} MatrixBytesLength(m: Matrix, n: nat)
    requires HasShape(m, n)
    ensures |MatrixBytes(m)| == 4 * (n * |m|)
  {
    if m != [] {
      MatrixBytesLength(m[..|m| - 1], n);
      MulSucc(n, |m| - 1);
    }
  }

  /** A row of n values from the front of the bytes, and the matrix of all rows. */
  function TakeRow(bs: seq<Byte>, n: nat): (row: Row)
    requires |bs| == 4 * n
    ensures |row| == n
  {
    if n == 0 then [] else TakeRow(bs[..4 * (n - 1)], n - 1) + [bs[4 * (n - 1)..]]
  }

  function TakeMatrix(bs: seq<Byte>, n: nat, channels: nat): (m: Matrix)
    requires |bs| == 4 * (n * channels)
    ensures |m| == channels && HasShape(m, n)
  {
    if channels == 0 then []
    else
      MulSucc(n, channels - 1);
      var k := 4 * (n * (channels - 1));
      TakeMatrix(bs[..k], n, channels - 1) + [TakeRow(bs[k..], n)]
  }

  lemma {:induction false} RowRoundTrip(row: Row)
    ensures TakeRow(RowBytes(row), |row|) == row
  {
    if row != [] {
      var k := |row| - 1;
      RowRoundTrip(row[..k]);
      assert RowBytes(row)[..4 * k] == RowBytes(row[..k]);
      assert RowBytes(row)[4 * k..] == row[k];
    }
  }

  lemma {:induction false} MatrixRoundTrip(m: Matrix, n: nat)
    requires HasShape(m, n)
    ensures |MatrixBytes(m)| == 4 * (n * |m|)
    ensures TakeMatrix(MatrixBytes(m), n, |m|) == m
  {
    MatrixBytesLength(m, n);
    if m != [] {
      var k := |m| - 1;
      MatrixRoundTrip(m[..k], n);
      assert MatrixBytes(m)[..4 * (n * k)] == MatrixBytes(m[..k]);
      assert MatrixBytes(m)[4 * (n * k)..] == RowBytes(m[k]);
      RowRoundTrip(m[k]);
    }
  }

  /** The rows padded with zeros, or cut, to n values each. */
  function FitRow(row: Row, n: nat): (r: Row)
    ensures |r| == n && forall i :: 0 <= i < n ==> r[i] == if i < |row| then row[i] else ZERO
  {
    seq(n, i requires 0 <= i < n => if i < |row| then row[i] else ZERO)
  }

  function Fit(m: Matrix, channels: nat, n: nat): (r: Matrix)
    ensures |r| == channels
    ensures forall c :: 0 <= c < channels ==> r[c] == FitRow(if c < |m| then m[c] else [], n)
    ensures HasShape(r, n)
  {
    seq(channels, c requires 0 <= c < channels => FitRow(if c < |m| then m[c] else [], n))
  }

  // ---------------------------------------------------------------------------
  // From the host to the browser
  // ---------------------------------------------------------------------------

  /** What the host sends. A process response carries a matrix of `samples` columns. */
  datatype Reply =
    | ProcessResp(samples: nat, channels: Matrix)
    | ParamResp(id: nat, value: Float64)
    | LogEntry(level: Byte, subsystem: seq<Byte>, message: seq<Byte>)

  ghost predicate ValidReply(r: Reply) {
    match r
    case ProcessResp(n, m) => n < U32_LIMIT && |m| < U32_LIMIT && HasShape(m, n)
    case ParamResp(id, _) => id < U32_LIMIT
    case LogEntry(_, s, m) => |s| < U32_LIMIT && |m| < U32_LIMIT
  }

  function ReplyBytes(r: Reply): (bs: seq<Byte>)
    ensures bs != []
  {
    match r
    case ProcessResp(n, m) => [PROCESS_RESP] + LittleEndian(n, 4) + LittleEndian(|m|, 4) + MatrixBytes(m)
    case ParamResp(id, v) => [GET_PARAM_RESP] + LittleEndian(id, 4) + v
    case LogEntry(level, s, m) => [LOG, level] + LittleEndian(|s|, 4) + s + LittleEndian(|m|, 4) + m
  }

  /** The bytes of the host's frames. */
  lemma RepliesOnTheWire(n: nat, m: Matrix, value: Float64, level: Byte, text: seq<Byte>, more: seq<Byte>)
    ensures ReplyBytes(ProcessResp(n, m)) == [3] + FourBytes(n) + FourBytes(|m|) + MatrixBytes(m)
    ensures ReplyBytes(ParamResp(n, value)) == [6] + FourBytes(n) + value
    ensures ReplyBytes(LogEntry(level, text, more))
            == [7, level] + FourBytes(|text|) + text + FourBytes(|more|) + more
  {
    FourBytesOf(n);
    FourBytesOf(|m|);
    FourBytesOf(|text|);
    FourBytesOf(|more|);
  }

  /** What the front of the receive buffer allows: nothing yet, dropping a byte that starts
      no frame, or a message with the number of bytes it used. When the length field of a
      log message has not fully arrived, reading it throws and the buffer stays as it is,
      which is again nothing yet. */
  datatype Outcome = Wait | Skip | Dispatch(reply: Reply, used: nat)

  function U32At(bs: seq<Byte>, at: nat): (n: nat)
    requires at + 4 <= |bs|
    ensures n < U32_LIMIT
  {
    Limit32();
    FromLittleEndian(bs[at..at + 4])
  }

  function ParseOne(buf: seq<Byte>): (o: Outcome)
    requires buf != []
    ensures o.Dispatch? ==> 0 < o.used <= |buf|
  {
    if buf[0] == PROCESS_RESP then ParseProcessResp(buf)
    else if buf[0] == GET_PARAM_RESP then
      if |buf| < 13 then Wait else Dispatch(ParamResp(U32At(buf, 1), buf[5..13]), 13)
    else if buf[0] == LOG then ParseLog(buf)
    else Skip
  }

  function ParseProcessResp(buf: seq<Byte>): (o: Outcome)
    ensures o.Dispatch? ==> 0 < o.used <= |buf|
    ensures !o.Skip?
  {
    if |buf| < 9 then Wait
    else
      var n, channels := U32At(buf, 1), U32At(buf, 5);
      var total := 9 + 4 * (n * channels);
      if |buf| < total then Wait
      else Dispatch(ProcessResp(n, TakeMatrix(buf[9..total], n, channels)), total)
  }

  function ParseLog(buf: seq<Byte>): (o: Outcome)
    ensures o.Dispatch? ==> 0 < o.used <= |buf|
    ensures !o.Skip?
  {
    if |buf| < 10 then Wait
    else
      var s := U32At(buf, 2);
      if |buf| < 10 + s then Wait
      else
        var m := U32At(buf, 6 + s);
        var total := 10 + s + m;
        if |buf| < total then Wait
        else Dispatch(LogEntry(buf[1], buf[6..6 + s], buf[10 + s..total]), total)
  }

  /** The messages in the bytes received, and the bytes that stay in the buffer. */
  function Parse(buf: seq<Byte>): (r: (seq<Reply>, seq<Byte>))
    decreases |buf|
  {
    if buf == [] then ([], [])
    else
      match ParseOne(buf)
      case Wait => ([], buf)
      case Skip => Parse(buf[1..])
      case Dispatch(reply, used) => var (ms, rest) := Parse(buf[used..]); ([reply] + ms, rest)
  }

  lemma U32Stable(buf: seq<Byte>, more: seq<Byte>, at: nat)
    requires at + 4 <= |buf|
    ensures U32At(buf + more, at) == U32At(buf, at)
  {
    SliceStable(buf, more, at, at + 4);
  }

  lemma SliceStable(buf: seq<Byte>, more: seq<Byte>, lo: nat, hi: nat)
    requires lo <= hi <= |buf|
    ensures (buf + more)[lo..hi] == buf[lo..hi]
  {
  }

  lemma ProcessRespIsStable(buf: seq<Byte>, more: seq<Byte>)
    requires !ParseProcessResp(buf).Wait?
    ensures ParseProcessResp(buf + more) == ParseProcessResp(buf)
  {
    U32Stable(buf, more, 1);
    U32Stable(buf, more, 5);
    var total := 9 + 4 * (U32At(buf, 1) * U32At(buf, 5));
    SliceStable(buf, more, 9, total);
  }

  lemma LogIsStable(buf: seq<Byte>, more: seq<Byte>)
    requires !ParseLog(buf).Wait?
    ensures ParseLog(buf + more) == ParseLog(buf)
  {
    U32Stable(buf, more, 2);
    var s := U32At(buf, 2);
    U32Stable(buf, more, 6 + s);
    var m := U32At(buf, 6 + s);
    SliceStable(buf, more, 6, 6 + s);
    SliceStable(buf, more, 10 + s, 10 + s + m);
  }

  /** More bytes never change a decision already taken. */
  lemma ParseOneIsStable(buf: seq<Byte>, more: seq<Byte>)
    requires buf != [] && !ParseOne(buf).Wait?
    ensures ParseOne(buf + more) == ParseOne(buf)
  {
    if buf[0] == PROCESS_RESP {
      ProcessRespIsStable(buf, more);
    } else if buf[0] == GET_PARAM_RESP {
      U32Stable(buf, more, 1);
      SliceStable(buf, more, 5, 13);
    } else if buf[0] == LOG {
      LogIsStable(buf, more);
    }
  }

  /** Parsing in two portions, the second behind what the first left, is parsing at once. */
  lemma {:induction false} ParseInTwo(a: seq<Byte>, b: seq<Byte>)
    ensures var (ms, rest) := Parse(a);
      var (ms', rest') := Parse(rest + b);
      Parse(a + b) == (ms + ms', rest')
    decreases |a|
  {
    if a == [] {
      assert a + b == b;
      assert Parse(a).1 + b == b;
    } else {
      match ParseOne(a)
      case Wait =>
        assert [] + Parse(a + b).0 == Parse(a + b).0;
      case Skip =>
        ParseOneIsStable(a, b);
        assert (a + b)[1..] == a[1..] + b;
        ParseInTwo(a[1..], b);
      case Dispatch(reply, used) =>
        ParseOneIsStable(a, b);
        assert (a + b)[used..] == a[used..] + b;
        ParseInTwo(a[used..], b);
        var (ms, rest) := Parse(a[used..]);
        var (ms', rest') := Parse(rest + b);
        assert [reply] + (ms + ms') == ([reply] + ms) + ms';
    }
  }

  /** Draining after every chunk, starting with `buf` in the buffer. */
  function Feed(buf: seq<Byte>, chunks: seq<seq<Byte>>): (seq<Reply>, seq<Byte>)
    decreases chunks
  {
    if chunks == [] then ([], buf)
    else
      var (ms, rest) := Parse(buf + chunks[0]);
      var (ms', rest') := Feed(rest, chunks[1..]);
      (ms + ms', rest')
  }

  /** The same messages and the same remaining bytes come out however the bytes are split:
      one at a time, in any chunks, or all at once. */
  lemma {:induction false} ChunkingDoesNotMatter(buf: seq<Byte>, chunks: seq<seq<Byte>>)
    requires Parse(buf) == ([], buf)
    ensures Feed(buf, chunks) == Parse(buf + Concat(chunks))
    decreases chunks
  {
    if chunks == [] {
      assert buf + Concat(chunks) == buf;
    } else {
      var first, later := buf + chunks[0], Concat(chunks[1..]);
      assert buf + Concat(chunks) == first + later;
      RestIsDrained(first);
      ChunkingDoesNotMatter(Parse(first).1, chunks[1..]);
      ParseInTwo(first, later);
    }
  }

  /** What a drain leaves in the buffer holds no message and nothing to drop. */
  lemma {:induction false} RestIsDrained(buf: seq<Byte>)
    ensures Parse(Parse(buf).1) == ([], Parse(buf).1)
    decreases |buf|
  {
    if buf != [] {
      match ParseOne(buf)
      case Wait =>
      case Skip => RestIsDrained(buf[1..]);
      case Dispatch(reply, used) => RestIsDrained(buf[used..]);
    }
  }

  lemma ReplyIsParsed(r: Reply, rest: seq<Byte>)
    requires ValidReply(r)
    ensures ParseOne(ReplyBytes(r) + rest) == Dispatch(r, |ReplyBytes(r)|)
  {
    match r
    case ProcessResp(n, m) => ProcessRespIsParsed(n, m, rest);
    case ParamResp(id, v) => ParamRespIsParsed(id, v, rest);
    case LogEntry(level, s, m) => LogIsParsed(level, s, m, rest);
  }

  /** Where the fields of a process response lie, whatever is in them. */
  lemma ProcessRespFields(a: seq<Byte>, b: seq<Byte>, body: seq<Byte>, rest: seq<Byte>)
    requires |a| == |b| == 4
    ensures var buf := [PROCESS_RESP] + a + b + body + rest;
      && |buf| >= 9 + |body| && buf[0] == PROCESS_RESP
      && buf[1..5] == a && buf[5..9] == b && buf[9..9 + |body|] == body
  {
  }

  lemma ProcessRespIsParsed(n: nat, m: Matrix, rest: seq<Byte>)
    requires ValidReply(ProcessResp(n, m))
    ensures var bs := ReplyBytes(ProcessResp(n, m));
      ParseOne(bs + rest) == Dispatch(ProcessResp(n, m), |bs|)
  {
    Limit32();
    ProcessRespFields(LittleEndian(n, 4), LittleEndian(|m|, 4), MatrixBytes(m), rest);
    LittleEndianRoundTrip(n, 4);
    LittleEndianRoundTrip(|m|, 4);
    MatrixRoundTrip(m, n);
  }

  lemma ParamRespIsParsed(id: nat, v: Float64, rest: seq<Byte>)
    requires id < U32_LIMIT
    ensures ParseOne(ReplyBytes(ParamResp(id, v)) + rest) == Dispatch(ParamResp(id, v), |ReplyBytes(ParamResp(id, v))|)
  {
    var buf := ReplyBytes(ParamResp(id, v)) + rest;
    Limit32();
    assert buf[1..5] == LittleEndian(id, 4) && buf[5..13] == v;
    LittleEndianRoundTrip(id, 4);
  }

  lemma LogFields(level: Byte, a: seq<Byte>, s: seq<Byte>, b: seq<Byte>, m: seq<Byte>, rest: seq<Byte>)
    requires |a| == |b| == 4
    ensures var buf := [LOG, level] + a + s + b + m + rest;
      && |buf| >= 10 + |s| + |m| && buf[0] == LOG && buf[1] == level
      && buf[2..6] == a && buf[6..6 + |s|] == s && buf[6 + |s|..10 + |s|] == b && buf[10 + |s|..10 + |s| + |m|] == m
  {
  }

  lemma LogIsParsed(level: Byte, s: seq<Byte>, m: seq<Byte>, rest: seq<Byte>)
    requires |s| < U32_LIMIT && |m| < U32_LIMIT
    ensures var bs := ReplyBytes(LogEntry(level, s, m));
      ParseOne(bs + rest) == Dispatch(LogEntry(level, s, m), |bs|)
  {
    Limit32();
    LogFields(level, LittleEndian(|s|, 4), s, LittleEndian(|m|, 4), m, rest);
    LittleEndianRoundTrip(|s|, 4);
    LittleEndianRoundTrip(|m|, 4);
  }

  /** The line as it comes: frames of the host, and bytes of anything else between them. */
  datatype Item = Noise(b: Byte) | Sent(reply: Reply)

  ghost predicate ValidItem(i: Item) {
    match i
    case Noise(b) => b !in {PROCESS_RESP, GET_PARAM_RESP, LOG}
    case Sent(r) => ValidReply(r)
  }

  function LineBytes(items: seq<Item>): seq<Byte> {
    if items == [] then []
    else (match items[0] case Noise(b) => [b] case Sent(r) => ReplyBytes(r)) + LineBytes(items[1..])
  }

  function Replies(items: seq<Item>): seq<Reply> {
    if items == [] then []
    else (match items[0] case Noise(_) => [] case Sent(r) => [r]) + Replies(items[1..])
  }

  lemma ParseNoise(b: Byte, rest: seq<Byte>)
    requires b !in {PROCESS_RESP, GET_PARAM_RESP, LOG}
    ensures Parse([b] + rest) == Parse(rest)
  {
    assert ([b] + rest)[1..] == rest;
  }

  lemma ParseReply(r: Reply, rest: seq<Byte>)
    requires ValidReply(r)
    ensures Parse(ReplyBytes(r) + rest) == ([r] + Parse(rest).0, Parse(rest).1)
  {
    ReplyIsParsed(r, rest);
    assert (ReplyBytes(r) + rest)[|ReplyBytes(r)|..] == rest;
  }

  /** The browser gets exactly the frames the host wrote, in order, with nothing left over;
      bytes between them that start no frame do not disturb them. */
  lemma {:induction false} BrowserGetsWhatHostWrote(items: seq<Item>)
    requires forall i :: 0 <= i < |items| ==> ValidItem(items[i])
    ensures Parse(LineBytes(items)) == (Replies(items), [])
  {
    if items != [] {
      BrowserGetsWhatHostWrote(items[1..]);
      assert ValidItem(items[0]);
      match items[0]
      case Noise(b) =>
        ParseNoise(b, LineBytes(items[1..]));
        assert Replies(items) == [] + Replies(items[1..]) == Replies(items[1..]);
      case Sent(r) =>
        ParseReply(r, LineBytes(items[1..]));
    }
  }
}
