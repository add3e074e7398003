/**
 The frames that the browser sends and the host reads, and what the host makes of a stream
 of them: the specification of its frame loop, with the plugin as an arbitrary function.
 */
module HostProtocol {
  import opened Bytes
  import opened Common
  import opened SerialProtocol

  datatype Command =
    | Process(channels: Matrix)   // channels of any lengths
    | SetParam(id: nat, value: Float64)
    | GetParam(id: nat)

  /** The browser takes the length of the first channel, 128 if there is none. */
  function SampleCount(channels: Matrix): nat {
    if channels == [] then 128 else |channels[0]|
  }

  function ProcessBytes(n: nat, channels: nat, size: nat, audio: seq<Byte>): (bs: seq<Byte>)
    ensures bs != []
  {
    HeaderBytes(LittleEndian(n, 4), LittleEndian(channels, 4), LittleEndian(size, 4)) + audio
  }

  function HeaderBytes(a: seq<Byte>, b: seq<Byte>, c: seq<Byte>): (bs: seq<Byte>)
    ensures |bs| == 1 + |a| + |b| + |c|
  {
    [PROCESS] + a + b + c
  }

  function CommandBytes(c: Command): (bs: seq<Byte>)
    ensures bs != []
  {
    match c
    case Process(m) =>
      var n := SampleCount(m);
      ProcessBytes(n, |m|, 4 * (n * |m|), MatrixBytes(Fit(m, |m|, n)))
    case SetParam(id, v) => [SET_PARAM] + LittleEndian(id, 4) + v
    case GetParam(id) => [GET_PARAM] + LittleEndian(id, 4)
  }

  ghost predicate ValidCommand(c: Command) {
    match c
    case Process(m) => SampleCount(m) < U32_LIMIT && |m| < U32_LIMIT && 4 * (SampleCount(m) * |m|) < U32_LIMIT
    case SetParam(id, _) => id < U32_LIMIT
    case GetParam(id) => id < U32_LIMIT
  }

  /** A frame as the host reads it. */
  datatype HostFrame =
    | ProcessFrame(samples: nat, channels: nat, audio: Row)
    | ParamFrame(id: nat, value: Float64)
    | GetFrame(id: nat)
    | UnknownFrame

  /** The audio of a frame is read into whole samples; the length field gives bytes. */
  function TakeSamples(bs: seq<Byte>): (row: Row)
    ensures |row| == |bs| / 4
  {
    TakeRow(bs[..4 * (|bs| / 4)], |bs| / 4)
  }

  /** The first frame of the input and what follows it; None at the end of the input. */
  function ReadFrame(input: seq<Byte>): (r: Option<(HostFrame, seq<Byte>)>)
    ensures r.Some? ==> |r.value.1| < |input|
  {
    if input == [] then None
    else if input[0] == PROCESS then
      if |input| < 13 then None
      else
        var size := U32At(input, 9);
        if |input| < 13 + size then None
        else
          var audio := TakeSamples(input[13..13 + size]);
          Some((ProcessFrame(U32At(input, 1), U32At(input, 5), audio), input[13 + size..]))
    else if input[0] == SET_PARAM then
      if |input| < 13 then None else Some((ParamFrame(U32At(input, 1), input[5..13]), input[13..]))
    else if input[0] == GET_PARAM then
      if |input| < 5 then None else Some((GetFrame(U32At(input, 1)), input[5..]))
    else Some((UnknownFrame, input[1..]))
  }

  // ---------------------------------------------------------------------------
  // Interleaved audio
  // ---------------------------------------------------------------------------

  function Flat(m: Matrix): Row {
    if m == [] then [] else Flat(m[..|m| - 1]) + m[|m| - 1]
  }

  /** Row c of the audio starts at sample c * n. */
  lemma RowFits(c: nat, channels: nat, n: nat)
    requires c < channels
    ensures c * n + n <= channels * n && c * n + n == (c + 1) * n
  {
    Distribute(c, 1, n);
    Distribute(c + 1, channels - c - 1, n);
  }

  function RowAt(audio: Row, c: nat, channels: nat, n: nat): (row: Row)
    requires c < channels && channels * n <= |audio|
    ensures |row| == n
  {
    RowFits(c, channels, n);
    audio[c * n..c * n + n]
  }

  function Deinterleave(audio: Row, channels: nat, n: nat): (m: Matrix)
    requires channels * n <= |audio|
    ensures |m| == channels
    ensures forall c :: 0 <= c < channels ==> m[c] == RowAt(audio, c, channels, n)
    ensures HasShape(m, n)
  {
    seq(channels, c requires 0 <= c < channels => RowAt(audio, c, channels, n))
  }

  lemma {:induction false} FlatShape(m: Matrix, n: nat)
    requires HasShape(m, n)
    ensures |Flat(m)| == |m| * n
    ensures RowBytes(Flat(m)) == MatrixBytes(m)
  {
    if m != [] {
      var k := |m| - 1;
      FlatShape(m[..k], n);
      RowFits(k, |m|, n);
      RowBytesConcat(Flat(m[..k]), m[k]);
    }
  }

  lemma {:induction false} FlatRow(m: Matrix, n: nat, c: nat)
    requires HasShape(m, n) && c < |m|
    ensures |Flat(m)| == |m| * n && RowAt(Flat(m), c, |m|, n) == m[c]
  {
    FlatShape(m, n);
    var k := |m| - 1;
    FlatShape(m[..k], n);
    RowFits(c, |m|, n);
    if c < k {
      RowFits(c, k, n);
      FlatRow(m[..k], n, c);
      SliceOfPrefix(Flat(m[..k]), m[k], c * n, c * n + n);
    }
  }

  lemma SliceOfPrefix<T>(a: seq<T>, b: seq<T>, lo: nat, hi: nat)
    requires lo <= hi <= |a|
    ensures (a + b)[lo..hi] == a[lo..hi]
  {
  }

  lemma {:induction false} RowBytesConcat(a: Row, b: Row)
    ensures RowBytes(a + b) == RowBytes(a) + RowBytes(b)
  {
    if b == [] {
      assert a + b == a;
    } else {
      var k := |b| - 1;
      assert (a + b)[..|a + b| - 1] == a + b[..k];
      RowBytesConcat(a, b[..k]);
    }
  }

  lemma DeinterleaveUndoesFlat(m: Matrix, n: nat)
    requires HasShape(m, n)
    ensures |Flat(m)| == |m| * n && Deinterleave(Flat(m), |m|, n) == m
  {
    FlatShape(m, n);
    forall c | 0 <= c < |m| ensures RowAt(Flat(m), c, |m|, n) == m[c] {
      FlatRow(m, n, c);
    }
  }

  lemma {:induction false} SampleInRow(row: Row, i: nat)
    requires i < |row|
    ensures RowBytes(row)[4 * i..4 * i + 4] == row[i]
  {
    if i < |row| - 1 {
      SampleInRow(row[..|row| - 1], i);
      SliceOfPrefix(RowBytes(row[..|row| - 1]), row[|row| - 1], 4 * i, 4 * i + 4);
    }
  }

  lemma SampleOfFlat(m: Matrix, n: nat, c: nat, s: nat)
    requires HasShape(m, n) && c < |m| && s < n
    ensures c * n + s < |Flat(m)| == |m| * n && Flat(m)[c * n + s] == m[c][s]
  {
    RowFits(c, |m|, n);
    FlatShape(m, n);
    FlatRow(m, n, c);
    AtOffset(Flat(m), c * n, n, s);
  }

  /** Sample s of channel c lies at its place in the audio of a frame: channel after channel. */
  lemma SampleOnTheWire(m: Matrix, n: nat, c: nat, s: nat)
    requires HasShape(m, n) && c < |m| && s < n
    ensures var at := 4 * (c * n + s);
      at + 4 <= |MatrixBytes(m)| && MatrixBytes(m)[at..at + 4] == m[c][s]
  {
    SampleOfFlat(m, n, c, s);
    FlatShape(m, n);
    SampleInRow(Flat(m), c * n + s);
  }

  lemma AtOffset<T>(a: seq<T>, lo: nat, n: nat, k: nat)
    requires lo + n <= |a| && k < n
    ensures a[lo..lo + n][k] == a[lo + k]
  {
  }

  /** What the host reads when the browser sends a command. */
  function FrameOf(c: Command): HostFrame {
    match c
    case Process(m) => var n := SampleCount(m); ProcessFrame(n, |m|, Flat(Fit(m, |m|, n)))
    case SetParam(id, v) => ParamFrame(id, v)
    case GetParam(id) => GetFrame(id)
  }

  /** The bytes of the browser's frames. A block's length field counts the bytes of its audio. */
  lemma CommandsOnTheWire(id: nat, value: Float64, path: seq<Byte>)
    ensures LoadBytes(path) == [1] + FourBytes(|path|) + path
    ensures CommandBytes(SetParam(id, value)) == [4] + FourBytes(id) + value
    ensures CommandBytes(GetParam(id)) == [5] + FourBytes(id)
  {
    FourBytesOf(id);
    FourBytesOf(|path|);
  }

  lemma BlockOnTheWire(m: Matrix)
    requires HasShape(m, SampleCount(m))
    ensures var audio := MatrixBytes(m);
      CommandBytes(Process(m))
      == [2] + FourBytes(SampleCount(m)) + FourBytes(|m|) + FourBytes(|audio|) + audio
  {
    var n := SampleCount(m);
    FitOfShaped(m, n);
    MatrixBytesLength(m, n);
    BlockLayout(n, |m|, |MatrixBytes(m)|, MatrixBytes(m));
  }

  lemma BlockLayout(n: nat, channels: nat, size: nat, audio: seq<Byte>)
    ensures ProcessBytes(n, channels, size, audio)
            == [2] + FourBytes(n) + FourBytes(channels) + FourBytes(size) + audio
  {
    FourBytesOf(n);
    FourBytesOf(channels);
    FourBytesOf(size);
    HeaderOf(LittleEndian(n, 4), LittleEndian(channels, 4), LittleEndian(size, 4));
  }

  lemma HeaderOf(a: seq<Byte>, b: seq<Byte>, c: seq<Byte>)
    ensures HeaderBytes(a, b, c) == [2] + a + b + c
  {
  }

  lemma FitOfShaped(m: Matrix, n: nat)
    requires HasShape(m, n)
    ensures Fit(m, |m|, n) == m
  {
    forall c | 0 <= c < |m| ensures Fit(m, |m|, n)[c] == m[c] {
      assert Fit(m, |m|, n)[c] == FitRow(m[c], n);
    }
  }

  lemma CommandIsRead(c: Command, rest: seq<Byte>)
    requires ValidCommand(c)
    ensures ReadFrame(CommandBytes(c) + rest) == Some((FrameOf(c), rest))
  {
    Limit32();
    match c
    case Process(m) => ProcessIsRead(m, rest);
    case SetParam(id, v) =>
      var input := CommandBytes(c) + rest;
      assert input[1..5] == LittleEndian(id, 4) && input[5..13] == v && input[13..] == rest;
      LittleEndianRoundTrip(id, 4);
    case GetParam(id) =>
      var input := CommandBytes(c) + rest;
      assert input[1..5] == LittleEndian(id, 4) && input[5..] == rest;
      LittleEndianRoundTrip(id, 4);
  }

  /** Where the fields of a process frame lie, whatever is in them. */
  lemma HeaderFields(a: seq<Byte>, b: seq<Byte>, c: seq<Byte>, more: seq<Byte>)
    requires |a| == |b| == |c| == 4
    ensures var input := HeaderBytes(a, b, c) + more;
      input[0] == PROCESS && input[1..5] == a && input[5..9] == b && input[9..13] == c && input[13..] == more
  {
  }

  lemma BodyFields(input: seq<Byte>, body: seq<Byte>, rest: seq<Byte>, k: nat)
    requires |input| >= 13 && input[13..] == body + rest && k <= |body|
    ensures |input| >= 13 + k && input[13..13 + k] == body[..k] && input[13 + k..] == body[k..] + rest
  {
    assert input[13..13 + k] == input[13..][..k];
    assert input[13 + k..] == input[13..][k..];
  }

  lemma FrameFrom(input: seq<Byte>, n: nat, channels: nat, size: nat)
    requires |input| >= 13 + size && input[0] == PROCESS
    requires FromLittleEndian(input[1..5]) == n && FromLittleEndian(input[5..9]) == channels
    requires FromLittleEndian(input[9..13]) == size
    ensures ReadFrame(input) == Some((ProcessFrame(n, channels, TakeSamples(input[13..13 + size])), input[13 + size..]))
  {
  }

  lemma ReadProcess(n: nat, channels: nat, size: nat, body: seq<Byte>, rest: seq<Byte>)
    requires n < U32_LIMIT && channels < U32_LIMIT && size % U32_LIMIT <= |body|
    ensures var k := size % U32_LIMIT;
      ReadFrame(ProcessBytes(n, channels, size, body) + rest)
      == Some((ProcessFrame(n, channels, TakeSamples(body[..k])), body[k..] + rest))
  {
    var a, b, c := LittleEndian(n, 4), LittleEndian(channels, 4), LittleEndian(size, 4);
    var input := HeaderBytes(a, b, c) + (body + rest);
    Regroup(HeaderBytes(a, b, c), body, rest);
    Limit32();
    LittleEndianRoundTrip(n, 4);
    LittleEndianRoundTrip(channels, 4);
    LittleEndianTruncates(size, 4);
    HeaderFields(a, b, c, body + rest);
    BodyFields(input, body, rest, size % U32_LIMIT);
    FrameFrom(input, n, channels, size % U32_LIMIT);
  }

  lemma ReadWhole(n: nat, channels: nat, size: nat, body: seq<Byte>, rest: seq<Byte>)
    requires n < U32_LIMIT && channels < U32_LIMIT && size < U32_LIMIT && size == |body|
    ensures ReadFrame(ProcessBytes(n, channels, size, body) + rest)
            == Some((ProcessFrame(n, channels, TakeSamples(body)), rest))
  {
    WholeBody(body, rest);
    ReadProcess(n, channels, size, body, rest);
  }

  lemma SamplesOfRow(row: Row)
    ensures TakeSamples(RowBytes(row)) == row
  {
    RowRoundTrip(row);
    WholeRow(RowBytes(row), |row|);
  }

  lemma WholeRow(bs: seq<Byte>, n: nat)
    requires |bs| == 4 * n
    ensures |bs| / 4 == n && bs[..4 * n] == bs
  {
  }

  lemma SamplesOfFlat(m: Matrix, n: nat)
    requires HasShape(m, n)
    ensures TakeSamples(MatrixBytes(m)) == Flat(m)
  {
    FlatShape(m, n);
    SamplesOfRow(Flat(m));
  }

  lemma ProcessIsRead(m: Matrix, rest: seq<Byte>)
    requires ValidCommand(Process(m))
    ensures ReadFrame(CommandBytes(Process(m)) + rest) == Some((FrameOf(Process(m)), rest))
  {
    var n := SampleCount(m);
    var fit := Fit(m, |m|, n);
    MatrixBytesLength(fit, n);
    ReadWhole(n, |m|, 4 * (n * |m|), MatrixBytes(fit), rest);
    SamplesOfFlat(fit, n);
  }

  lemma WholeBody(body: seq<Byte>, rest: seq<Byte>)
    ensures body[..|body|] == body && body[|body|..] + rest == rest
  {
  }

  /** The length field holds the audio's size modulo 2^32, so the host gets all the samples
      of a frame if and only if that size is below 2^32. */
  lemma AudioArrivesWhole(m: Matrix, rest: seq<Byte>)
    requires SampleCount(m) < U32_LIMIT && |m| < U32_LIMIT
    ensures var r := ReadFrame(CommandBytes(Process(m)) + rest);
      && r.Some? && r.value.0.ProcessFrame?
      && r.value.0.samples == SampleCount(m) && r.value.0.channels == |m|
      && (|r.value.0.audio| == SampleCount(m) * |m| <==> 4 * (SampleCount(m) * |m|) < U32_LIMIT)
      && |r.value.0.audio| <= SampleCount(m) * |m|
  {
    var n := SampleCount(m);
    var body := MatrixBytes(Fit(m, |m|, n));
    MatrixBytesLength(Fit(m, |m|, n), n);
    TruncatedSize(n * |m|);
    ReadProcess(n, |m|, 4 * (n * |m|), body, rest);
  }

  /** One channel of 2^30 samples: the length field is zero, and no sample arrives. */
  lemma LongBlockIsLost(rest: seq<Byte>)
    ensures var m := [seq(0x4000_0000, _ => ZERO)];
      var r := ReadFrame(CommandBytes(Process(m)) + rest);
      r.Some? && r.value.0.ProcessFrame? && |r.value.0.audio| == 0 && r.value.0.samples == 0x4000_0000
  {
    var m: Matrix := [seq(0x4000_0000, _ => ZERO)];
    var n := 0x4000_0000;
    var body := MatrixBytes(Fit(m, 1, n));
    assert SampleCount(m) == n && 4 * (n * |m|) == U32_LIMIT;
    ReadProcess(n, 1, U32_LIMIT, body, rest);
  }

  lemma TruncatedSize(cells: nat)
    ensures (4 * cells) % U32_LIMIT <= 4 * cells
    ensures ((4 * cells) % U32_LIMIT) / 4 == cells <==> 4 * cells < U32_LIMIT
  {
  }

  // ---------------------------------------------------------------------------
  // The frame loop
  // ---------------------------------------------------------------------------

  /** A plugin: how it processes a block of n samples, and its parameters. */
  datatype Plugin<!S> = Plugin(
    process: (S, nat, Matrix) -> (S, Matrix),
    setParameter: (S, nat, Float64) -> S,
    getParameter: (S, nat) -> Float64)

  const HOST_NAME: seq<Byte> := Text("vst2-host")
  const UNKNOWN_TEXT: seq<Byte> := Text("unknown frame tag")
  const UNKNOWN_TAG: Reply := LogEntry(3, HOST_NAME, UNKNOWN_TEXT)

  function Text(s: string): (bs: seq<Byte>)
    ensures |bs| == |s|
  {
    seq(|s|, i requires 0 <= i < |s| => s[i] as int % 256)
  }

  /** The plugin writes into output buffers of the block's shape. */
  function ProcessBlock<S>(p: Plugin<S>, st: S, input: Matrix, n: nat): (S, Reply) {
    var (st', out) := p.process(st, n, input);
    (st', ProcessResp(n, Fit(out, |input|, n)))
  }

  /** What one frame makes the host do: its next state and what it sends. None: the audio is
      shorter than the header says and the host would read past its end. */
  function Handle<S>(p: Plugin<S>, st: S, f: HostFrame): Option<(S, seq<Reply>)> {
    match f
    case ProcessFrame(n, channels, audio) =>
      if |audio| < channels * n then None
      else var (st', r) := ProcessBlock(p, st, Deinterleave(audio, channels, n), n); Some((st', [r]))
    case ParamFrame(id, v) => Some((p.setParameter(st, id, v), []))
    case GetFrame(id) => Some((st, [ParamResp(id, p.getParameter(st, id))]))
    case UnknownFrame => Some((st, [UNKNOWN_TAG]))
  }

  /** How the loop ends: at the end of the input, or at a frame with missing audio. */
  datatype Ending = EndOfInput | MissingAudio

  function Loop<S>(p: Plugin<S>, st: S, input: seq<Byte>): (S, seq<Reply>, Ending)
    decreases |input|
  {
    match ReadFrame(input)
    case None => (st, [], EndOfInput)
    case Some((f, rest)) =>
      match Handle(p, st, f)
      case None => (st, [], MissingAudio)
      case Some((st', rs)) => var (st'', rs', e) := Loop(p, st', rest); (st'', rs + rs', e)
  }

  function Stream(cs: seq<Command>): seq<Byte> {
    if cs == [] then [] else CommandBytes(cs[0]) + Stream(cs[1..])
  }

  function RepliesBytes(rs: seq<Reply>): seq<Byte> {
    if rs == [] then [] else ReplyBytes(rs[0]) + RepliesBytes(rs[1..])
  }

  /** What the plugin answers to a command, with no wire in between. */
  function Answer<S>(p: Plugin<S>, st: S, c: Command): (S, seq<Reply>) {
    match c
    case Process(m) =>
      var n := SampleCount(m);
      var (st', r) := ProcessBlock(p, st, Fit(m, |m|, n), n);
      (st', [r])
    case SetParam(id, v) => (p.setParameter(st, id, v), [])
    case GetParam(id) => (st, [ParamResp(id, p.getParameter(st, id))])
  }

  function Answers<S>(p: Plugin<S>, st: S, cs: seq<Command>): (S, seq<Reply>) {
    if cs == [] then (st, [])
    else
      var (st', rs) := Answer(p, st, cs[0]);
      var (st'', rs') := Answers(p, st', cs[1..]);
      (st'', rs + rs')
  }

  /** The host loop reads the browser's stream as exactly its commands, and gives the plugin
      the browser's channels fitted to the length of the first. */
  lemma {:induction false} HostGetsWhatBrowserWrote<S>(p: Plugin<S>, st: S, cs: seq<Command>)
    requires forall i :: 0 <= i < |cs| ==> ValidCommand(cs[i])
    ensures var (st', rs) := Answers(p, st, cs);
      Loop(p, st, Stream(cs)) == (st', rs, EndOfInput)
  {
    if cs != [] {
      CommandIsRead(cs[0], Stream(cs[1..]));
      HandleAnswers(p, st, cs[0]);
      var st' := Answer(p, st, cs[0]).0;
      HostGetsWhatBrowserWrote(p, st', cs[1..]);
    }
  }

  lemma HandleAnswers<S>(p: Plugin<S>, st: S, c: Command)
    ensures Handle(p, st, FrameOf(c)) == Some(Answer(p, st, c))
  {
    if c.Process? {
      DeinterleaveUndoesFlat(Fit(c.channels, |c.channels|, SampleCount(c.channels)), SampleCount(c.channels));
    }
  }

  lemma {:induction false} AnswersAreValid<S>(p: Plugin<S>, st: S, cs: seq<Command>)
    requires forall i :: 0 <= i < |cs| ==> ValidCommand(cs[i])
    ensures forall i :: 0 <= i < |Answers(p, st, cs).1| ==> ValidReply(Answers(p, st, cs).1[i])
  {
    if cs != [] {
      var (st', rs) := Answer(p, st, cs[0]);
      AnswersAreValid(p, st', cs[1..]);
      assert ValidCommand(cs[0]);
      assert Answers(p, st, cs).1 == rs + Answers(p, st', cs[1..]).1;
    }
  }

  lemma {:induction false} RepliesAreParsed(rs: seq<Reply>)
    requires forall i :: 0 <= i < |rs| ==> ValidReply(rs[i])
    ensures Parse(RepliesBytes(rs)) == (rs, [])
  {
    if rs != [] {
      RepliesAreParsed(rs[1..]);
      ParseReply(rs[0], RepliesBytes(rs[1..]));
      assert rs == [rs[0]] + rs[1..];
    }
  }

  /** There and back: whatever commands the browser sends, the messages it receives are the
      plugin's answers to exactly those commands, in order, with nothing left over, however
      the host's bytes are split on the way. */
  lemma EndToEnd<S>(p: Plugin<S>, st: S, cs: seq<Command>)
    requires forall i :: 0 <= i < |cs| ==> ValidCommand(cs[i])
    ensures var (st', rs, ending) := Loop(p, st, Stream(cs));
      && ending == EndOfInput
      && (st', rs) == Answers(p, st, cs)
      && Parse(RepliesBytes(rs)) == (rs, [])
      && (forall chunks :: Concat(chunks) == RepliesBytes(rs) ==> Feed([], chunks) == (rs, []))
  {
    HostGetsWhatBrowserWrote(p, st, cs);
    AnswersAreValid(p, st, cs);
    var rs := Answers(p, st, cs).1;
    RepliesAreParsed(rs);
    forall chunks | Concat(chunks) == RepliesBytes(rs) ensures Feed([], chunks) == (rs, []) {
      ChunkingDoesNotMatter([], chunks);
      assert [] + Concat(chunks) == Concat(chunks);
    }
  }

  lemma {:induction false} AnswersAppend<S>(p: Plugin<S>, st: S, cs: seq<Command>, c: Command)
    ensures var (st', rs) := Answers(p, st, cs);
      var (st'', r) := Answer(p, st', c);
      Answers(p, st, cs + [c]) == (st'', rs + r)
  {
    if cs == [] {
      assert cs + [c] == [c] && [c][1..] == [];
      var (st'', r) := Answer(p, st, c);
      assert r + [] == r && [] + r == r;
    } else {
      var (st1, r1) := Answer(p, st, cs[0]);
      AnswersAppend(p, st1, cs[1..], c);
      assert (cs + [c])[1..] == cs[1..] + [c];
      Regroup(r1, Answers(p, st1, cs[1..]).1, Answer(p, Answers(p, st, cs).0, c).1);
    }
  }

  /** Matrix r has the values of m where m has them, and zeros elsewhere. */
  ghost predicate Padded(m: Matrix, channels: nat, n: nat, r: Matrix) {
    && |r| == channels
    && forall c :: 0 <= c < channels ==>
         |r[c]| == n
         && forall s :: 0 <= s < n ==> r[c][s] == if c < |m| && s < |m[c]| then m[c][s] else ZERO
  }

  /** A block of audio is processed once, on the browser's channels padded or cut to the length
      of the first. This takes the plugin from st to st', and out is what it made of them. */
  ghost predicate BlockProcessed<S>(p: Plugin<S>, st: S, m: Matrix, st': S, out: Matrix) {
    var n := if m == [] then 128 else |m[0]|;
    exists input: Matrix ::
      && Padded(m, |m|, n, input)
      && st' == p.process(st, n, input).0
      && Padded(p.process(st, n, input).1, |m|, n, out)
  }

  /** Command c takes the plugin from st to st' and makes the host reply rs. */
  ghost predicate AnsweredBy<S>(p: Plugin<S>, st: S, c: Command, st': S, rs: seq<Reply>) {
    match c
    case Process(m) =>
      && |rs| == 1 && rs[0].ProcessResp? && rs[0].samples == (if m == [] then 128 else |m[0]|)
      && BlockProcessed(p, st, m, st', rs[0].channels)
    case SetParam(id, v) => rs == [] && st' == p.setParameter(st, id, v)
    case GetParam(id) => rs == [ParamResp(id, p.getParameter(st, id))] && st' == st
  }

  lemma FitPads(m: Matrix, channels: nat, n: nat)
    ensures Padded(m, channels, n, Fit(m, channels, n))
  {
    var r := Fit(m, channels, n);
    forall c | 0 <= c < channels
      ensures |r[c]| == n
      ensures forall s :: 0 <= s < n ==> r[c][s] == if c < |m| && s < |m[c]| then m[c][s] else ZERO
    {
      assert r[c] == FitRow(if c < |m| then m[c] else [], n);
    }
  }

  lemma AnswerIsThePlugins<S>(p: Plugin<S>, st: S, c: Command)
    ensures AnsweredBy(p, st, c, Answer(p, st, c).0, Answer(p, st, c).1)
  {
    if c.Process? {
      var m, n := c.channels, SampleCount(c.channels);
      var input := Fit(m, |m|, n);
      FitPads(m, |m|, n);
      FitPads(p.process(st, n, input).1, |m|, n);
    }
  }

  lemma {:induction false} AnswersSplit<S>(p: Plugin<S>, st: S, cs: seq<Command>, i: nat)
    requires i <= |cs|
    ensures Answers(p, st, cs[..i]).1 <= Answers(p, st, cs).1
    decreases |cs|
  {
    if i == |cs| {
      assert cs[..i] == cs;
    } else {
      var before := cs[..|cs| - 1];
      assert cs == before + [cs[|cs| - 1]] && before[..i] == cs[..i];
      AnswersAppend(p, st, before, cs[|cs| - 1]);
      AnswersSplit(p, st, before, i);
    }
  }

  lemma AnswersStep<S>(p: Plugin<S>, st: S, cs: seq<Command>, i: nat)
    requires i < |cs|
    ensures var before, after := Answers(p, st, cs[..i]), Answers(p, st, cs[..i + 1]);
      && before.1 <= after.1 <= Answers(p, st, cs).1
      && (after.0, after.1[|before.1|..]) == Answer(p, before.0, cs[i])
  {
    assert cs[..i + 1] == cs[..i] + [cs[i]];
    AnswersAppend(p, st, cs[..i], cs[i]);
    AnswersSplit(p, st, cs, i + 1);
  }

  /** What command i of any list of commands leads to, in the plugin and in the browser. The
      state before it is the one in which the host's loop ends on the bytes of the commands
      before; the state after it and the messages that the browser receives next, however the
      bytes are split, are what the plugin makes of this command. */
  lemma EachCommandIsServed<S>(p: Plugin<S>, st: S, cs: seq<Command>, i: nat, chunks: seq<seq<Byte>>)
    requires forall j :: 0 <= j < |cs| ==> ValidCommand(cs[j])
    requires i < |cs| && Concat(chunks) == RepliesBytes(Loop(p, st, Stream(cs)).1)
    ensures var before, after := Loop(p, st, Stream(cs[..i])), Loop(p, st, Stream(cs[..i + 1]));
      && before.1 <= after.1 <= Feed([], chunks).0
      && AnsweredBy(p, before.0, cs[i], after.0, after.1[|before.1|..])
  {
    EndToEnd(p, st, cs);
    HostGetsWhatBrowserWrote(p, st, cs[..i]);
    HostGetsWhatBrowserWrote(p, st, cs[..i + 1]);
    AnswersStep(p, st, cs, i);
    AnswerIsThePlugins(p, Answers(p, st, cs[..i]).0, cs[i]);
  }

  /** Before the first command the plugin is in its initial state and nothing was sent, and
      after the last the browser has received everything. */
  lemma ServedFromStartToEnd<S>(p: Plugin<S>, st: S, cs: seq<Command>, chunks: seq<seq<Byte>>)
    requires forall j :: 0 <= j < |cs| ==> ValidCommand(cs[j])
    requires Concat(chunks) == RepliesBytes(Loop(p, st, Stream(cs)).1)
    ensures Loop(p, st, Stream(cs[..0])) == (st, [], EndOfInput)
    ensures Loop(p, st, Stream(cs[..|cs|])).1 == Feed([], chunks).0 && Feed([], chunks).1 == []
  {
    EndToEnd(p, st, cs);
    assert cs[..0] == [] && cs[..|cs|] == cs;
  }

  // ---------------------------------------------------------------------------
  // Input that is not a stream of commands
  // ---------------------------------------------------------------------------

  /** A byte that starts none of the three frames that the host expects. */
  predicate Stray(b: Byte) {
    b !in {2, 4, 5}
  }

  ghost predicate AllStray(bytes: seq<Byte>) {
    forall i :: 0 <= i < |bytes| ==> Stray(bytes[i])
  }

  /** Each stray byte is skipped alone and reported to the browser, and changes nothing else. */
  lemma {:induction false} StrayBytesAreReported<S>(p: Plugin<S>, st: S, stray: seq<Byte>, rest: seq<Byte>)
    requires AllStray(stray)
    ensures var (st', rs, ending) := Loop(p, st, rest);
      var report := LogEntry(3, Text("vst2-host"), Text("unknown frame tag"));
      Loop(p, st, stray + rest) == (st', seq(|stray|, _ => report) + rs, ending)
  {
    var report := LogEntry(3, Text("vst2-host"), Text("unknown frame tag"));
    if stray == [] {
      assert stray + rest == rest;
      assert seq(0, _ => report) + Loop(p, st, rest).1 == Loop(p, st, rest).1;
    } else {
      var more := stray[1..];
      assert (stray + rest)[1..] == more + rest;
      StrayBytesAreReported(p, st, more, rest);
      OneMoreReport(report, |more|, Loop(p, st, rest).1);
    }
  }

  lemma OneMoreReport(report: Reply, n: nat, rs: seq<Reply>)
    ensures [report] + (seq(n, _ => report) + rs) == seq(n + 1, _ => report) + rs
  {
  }

  /** A command that the input breaks off is not carried out, and the loop ends. */
  lemma CutCommandIsNotServed<S>(p: Plugin<S>, st: S, c: Command, k: nat)
    requires ValidCommand(c) && k < |CommandBytes(c)|
    ensures Loop(p, st, CommandBytes(c)[..k]) == (st, [], EndOfInput)
  {
    if c.Process? {
      CutBlock(c.channels, k);
    }
  }

  lemma CutBlock(m: Matrix, k: nat)
    requires ValidCommand(Process(m)) && k < |CommandBytes(Process(m))|
    ensures ReadFrame(CommandBytes(Process(m))[..k]) == None
  {
    var n := SampleCount(m);
    var size, audio := 4 * (n * |m|), MatrixBytes(Fit(m, |m|, n));
    MatrixBytesLength(Fit(m, |m|, n), n);
    CutFrame(LittleEndian(n, 4), LittleEndian(|m|, 4), size, audio, k);
  }

  lemma CutFrame(a: seq<Byte>, b: seq<Byte>, size: nat, audio: seq<Byte>, k: nat)
    requires |a| == |b| == 4 && size < U32_LIMIT && |audio| == size && k < 13 + size
    ensures ReadFrame((HeaderBytes(a, b, LittleEndian(size, 4)) + audio)[..k]) == None
  {
    var whole := HeaderBytes(a, b, LittleEndian(size, 4)) + audio;
    HeaderFields(a, b, LittleEndian(size, 4), audio);
    Limit32();
    LittleEndianRoundTrip(size, 4);
    if k >= 13 {
      SliceOfPrefix(whole[..k], whole[k..], 9, 13);
      assert whole[..k] + whole[k..] == whole;
    }
  }

  /** A frame with fewer samples than its header promises makes the host read past the end of
      them; any other block is answered. */
  lemma ShortAudioEndsTheLoop<S>(p: Plugin<S>, st: S, n: nat, channels: nat, row: Row, rest: seq<Byte>)
    requires n < U32_LIMIT && channels < U32_LIMIT && 4 * |row| < U32_LIMIT
    ensures Loop(p, st, ProcessBytes(n, channels, 4 * |row|, RowBytes(row)) + rest) == (st, [], MissingAudio)
            <==> |row| < channels * n
  {
    ReadWhole(n, channels, 4 * |row|, RowBytes(row), rest);
    SamplesOfRow(row);
  }

  // ---------------------------------------------------------------------------
  // The session
  // ---------------------------------------------------------------------------

  const LOADED_TEXT: seq<Byte> := Text("plugin loaded and activated")
  const LOADED: Reply := LogEntry(1, HOST_NAME, LOADED_TEXT)

  function LoadBytes(path: seq<Byte>): seq<Byte> {
    [LOAD] + LittleEndian(|path|, 4) + path
  }

  /** The path in the body of a LOAD frame, and what follows it. */
  function ReadLoad(input: seq<Byte>): Option<(seq<Byte>, seq<Byte>)> {
    if |input| < 4 then None
    else
      var len := U32At(input, 0);
      if |input| < 4 + len then None else Some((input[4..4 + len], input[4 + len..]))
  }

  /** The first frame names the plugin, then the loop runs. None: the first tag is another
      one, the input ends in the LOAD frame, or the plugin cannot be loaded; each is an
      exception that ends the process before it has sent anything. */
  function Session<S>(load: seq<Byte> -> Option<(Plugin<S>, S)>, input: seq<Byte>): Option<(S, seq<Reply>, Ending)> {
    if input == [] || input[0] != LOAD then None
    else
      match ReadLoad(input[1..])
      case None => None
      case Some((path, rest)) =>
        match load(path)
        case None => None
        case Some((p, st)) => var (st', rs, e) := Loop(p, st, rest); Some((st', [LOADED] + rs, e))
  }

  lemma LoadIsRead(path: seq<Byte>, rest: seq<Byte>)
    requires |path| < U32_LIMIT
    ensures var input := LoadBytes(path) + rest;
      input[0] == LOAD && ReadLoad(input[1..]) == Some((path, rest))
  {
    Limit32();
    var body := (LoadBytes(path) + rest)[1..];
    assert body[0..4] == LittleEndian(|path|, 4);
    LittleEndianRoundTrip(|path|, 4);
    assert body[4..4 + |path|] == path && body[4 + |path|..] == rest;
  }

  /** There is a session exactly if the input begins with a LOAD frame whose plugin can be loaded. */
  lemma SessionNeedsLoad<S>(load: seq<Byte> -> Option<(Plugin<S>, S)>, input: seq<Byte>)
    ensures Session(load, input).Some? <==> exists path: seq<Byte> :: StartsWithLoad(input, path) && load(path).Some?
  {
    if Session(load, input).Some? {
      var (path, rest) := ReadLoad(input[1..]).value;
      LoadWasWritten(input);
      assert StartsWithLoad(input, path);
    }
    forall path: seq<Byte> | StartsWithLoad(input, path) && load(path).Some? ensures Session(load, input).Some? {
      FourBytesOf(|path|);
      assert input == LoadBytes(path) + input[|LoadBytes(path)|..];
      LoadIsRead(path, input[|LoadBytes(path)|..]);
    }
  }

  /** The input begins with the tag 1, the path's length and the path. */
  ghost predicate StartsWithLoad(input: seq<Byte>, path: seq<Byte>) {
    |path| < U32_LIMIT && [1] + FourBytes(|path|) + path <= input
  }

  lemma LoadWasWritten(input: seq<Byte>)
    requires input != [] && input[0] == LOAD && ReadLoad(input[1..]).Some?
    ensures StartsWithLoad(input, ReadLoad(input[1..]).value.0)
  {
    var field, path := input[1..][0..4], ReadLoad(input[1..]).value.0;
    Limit32();
    BytesRoundTrip(field);
    FourBytesOf(|path|);
    assert input[..5] == [1] + field;
    assert input[5..5 + |path|] == path;
    assert input[..5 + |path|] == [1] + field + path;
  }

  /** A whole session: after the LOAD frame the browser's commands are answered in order, and
      the browser receives exactly the host's greeting and those answers, however the bytes
      are split on the way. */
  lemma WholeSession<S>(load: seq<Byte> -> Option<(Plugin<S>, S)>, path: seq<Byte>, cs: seq<Command>)
    requires |path| < U32_LIMIT && load(path).Some?
    requires forall i :: 0 <= i < |cs| ==> ValidCommand(cs[i])
    ensures var (p, st) := load(path).value;
      var (st', answers) := Answers(p, st, cs);
      var replies := [LOADED] + answers;
      && Session(load, LoadBytes(path) + Stream(cs)) == Some((st', replies, EndOfInput))
      && (forall chunks :: Concat(chunks) == RepliesBytes(replies) ==> Feed([], chunks) == (replies, []))
  {
    var (p, st) := load(path).value;
    LoadIsRead(path, Stream(cs));
    EndToEnd(p, st, cs);
    AnswersAreValid(p, st, cs);
    GreetedRepliesArrive(LOADED, Answers(p, st, cs).1);
  }

  lemma GreetedRepliesArrive(hello: Reply, rs: seq<Reply>)
    requires ValidReply(hello) && forall i :: 0 <= i < |rs| ==> ValidReply(rs[i])
    ensures forall chunks :: Concat(chunks) == RepliesBytes([hello] + rs) ==> Feed([], chunks) == ([hello] + rs, [])
  {
    var replies := [hello] + rs;
    RepliesAreParsed(replies);
    forall chunks | Concat(chunks) == RepliesBytes(replies) ensures Feed([], chunks) == (replies, []) {
      ChunkingDoesNotMatter([], chunks);
      assert [] + Concat(chunks) == Concat(chunks);
    }
  }

  lemma RepliesBytesCons(r: Reply, rs: seq<Reply>)
    ensures RepliesBytes([r] + rs) == ReplyBytes(r) + RepliesBytes(rs)
  {
    assert ([r] + rs)[1..] == rs;
  }
}
