/**
 The guest host: its frame loop over the serial channel with the plugin as an arbitrary
 function, and the whole session from the browser's LOAD frame on.
 */
module Vst2Host {
  import opened Bytes
  import opened Common
  import opened SerialProtocol
  import opened HostProtocol
  import opened SerialChannel

  /** What is left of a run of the loop: after `seen`, from this state on this input, it ends
      like the whole run. */
  ghost predicate Continues<S>(p: Plugin<S>, whole: (S, seq<Reply>, Ending),
                               seen: seq<Reply>, st: S, input: seq<Byte>) {
    var (st', rs, e) := Loop(p, st, input);
    whole == (st', seen + rs, e)
  }

  lemma {:induction false} RepliesBytesConcat(a: seq<Reply>, b: seq<Reply>)
    ensures RepliesBytes(a + b) == RepliesBytes(a) + RepliesBytes(b)
  {
    if a == [] {
      assert a + b == b;
    } else {
      assert (a + b)[1..] == a[1..] + b;
      RepliesBytesConcat(a[1..], b);
    }
  }

  lemma ContinuesStep<S>(p: Plugin<S>, whole: (S, seq<Reply>, Ending), seen: seq<Reply>, st: S, input: seq<Byte>,
                         o: Served, rs: seq<Reply>, st': S, rest: seq<Byte>)
    requires Continues(p, whole, seen, st, input) && Serves(p, st, input, o, rs, st', rest)
    ensures o == Done ==> Continues(p, whole, seen + rs, st', rest)
    ensures o == Ended ==> whole == (st', seen + rs, EndOfInput)
    ensures o == Faulted ==> whole == (st', seen + rs, MissingAudio)
  {
    if o == Done {
      var later := Loop(p, st', rest).1;
      assert seen + (rs + later) == (seen + rs) + later;
    }
  }

  lemma ContinuesFromStart<S>(p: Plugin<S>, st: S, input: seq<Byte>)
    ensures Continues(p, Loop(p, st, input), [], st, input)
  {
    assert [] + Loop(p, st, input).1 == Loop(p, st, input).1;
  }

  lemma ContinuesToEnd<S>(p: Plugin<S>, whole: (S, seq<Reply>, Ending), seen: seq<Reply>, st: S)
    requires Continues(p, whole, seen, st, [])
    ensures whole == (st, seen, EndOfInput)
  {
    assert seen + [] == seen;
  }

  class Vst2Host<!S> {
    const ch: SerialChannel
    const plugin: Plugin<S>
    var state: S

    constructor (plugin: Plugin<S>, initial: S, ch: SerialChannel)
      modifies ch
      ensures this.ch == ch && this.plugin == plugin && state == initial
      ensures ch.input == old(ch.input) && ch.output == old(ch.output) + ReplyBytes(LOADED)
    {
      this.ch, this.plugin, state := ch, plugin, initial;
      new;
      ch.WriteLog(1, HOST_NAME, LOADED_TEXT);
    }

    /** Reads and serves frames until the input ends. */
    method Run() returns (ending: Ending)
      modifies this, ch
      ensures var (st', rs, e) := Loop(plugin, old(state), old(ch.input));
        state == st' && ending == e && ch.output == old(ch.output) + RepliesBytes(rs)
    {
      ghost var whole := Loop(plugin, state, ch.input);
      ghost var seen, rest := [], ch.input;
      ContinuesFromStart(plugin, state, ch.input);
      var tag := ch.ReadTag();
      while tag.Some?
        invariant rest == if tag.Some? then [tag.value] + ch.input else []
        invariant Continues(plugin, whole, seen, state, rest)
        invariant ch.output == old(ch.output) + RepliesBytes(seen)
        decreases |rest|
      {
        var outcome;
        outcome, seen := ServeNext(tag.value, whole, seen);
        if outcome == Ended { return EndOfInput; }
        if outcome == Faulted { return MissingAudio; }
        rest := ch.input;
        tag := ch.ReadTag();
      }
      ContinuesToEnd(plugin, whole, seen, state);
      return EndOfInput;
    }

    /** The next frame of a run of the loop. */
    method ServeNext(tag: Byte, ghost whole: (S, seq<Reply>, Ending), ghost seen: seq<Reply>)
      returns (outcome: Served, ghost seen': seq<Reply>)
      requires Continues(plugin, whole, seen, state, [tag] + ch.input)
      modifies this, ch
      ensures |ch.input| <= old(|ch.input|)
      ensures forall before ::
        old(ch.output) == before + RepliesBytes(seen) ==> ch.output == before + RepliesBytes(seen')
      ensures outcome == Done ==> Continues(plugin, whole, seen', state, ch.input)
      ensures outcome == Ended ==> whole == (state, seen', EndOfInput)
      ensures outcome == Faulted ==> whole == (state, seen', MissingAudio)
    {
      ghost var st, frame := state, [tag] + ch.input;
      ghost var rs;
      outcome, rs := Serve(tag);
      ContinuesStep(plugin, whole, seen, st, frame, outcome, rs, state, ch.input);
      seen' := seen + rs;
      RepliesBytesConcat(seen, rs);
    }

    /** One frame whose tag has been read. */
    method Serve(tag: Byte) returns (outcome: Served, ghost rs: seq<Reply>)
      modifies this, ch
      ensures Serves(plugin, old(state), [tag] + old(ch.input), outcome, rs, state, ch.input)
      ensures ch.output == old(ch.output) + RepliesBytes(rs)
    {
      var f := ReadFrameBody(tag);
      if f.None? { return Ended, []; }
      outcome, rs := HandleFrame(f.value);
    }

    method ReadFrameBody(tag: Byte) returns (f: Option<HostFrame>)
      modifies ch`input
      ensures ReadsAs([tag] + old(ch.input), f, ch.input)
    {
      if tag == PROCESS {
        f := ch.ReadProcessFrameBody();
      } else if tag == SET_PARAM {
        f := ch.ReadSetParamFrameBody();
      } else if tag == GET_PARAM {
        f := ch.ReadGetParamFrameBody();
      } else {
        f := Some(UnknownFrame);
        assert ([tag] + ch.input)[1..] == ch.input;
      }
    }

    method HandleFrame(f: HostFrame) returns (outcome: Served, ghost rs: seq<Reply>)
      modifies this, ch
      ensures ch.input == old(ch.input)
      ensures HandledAs(plugin, old(state), f, outcome, rs, state)
      ensures ch.output == old(ch.output) + RepliesBytes(rs)
    {
      match f {
        case ProcessFrame(n, channelCount, samples) =>
          var ok, _ := ProcessBlock(n, channelCount, samples);
          if !ok { return Faulted, []; }
          rs := Handle(plugin, old(state), f).value.1;
        case ParamFrame(id, value) =>
          state := plugin.setParameter(state, id, value);
          rs := [];
        case GetFrame(id) =>
          var value := plugin.getParameter(state, id);
          ch.WriteGetParamResp(id, value);
          rs := [ParamResp(id, value)];
        case UnknownFrame =>
          ch.WriteLog(3, HOST_NAME, UNKNOWN_TEXT);
          rs := [UNKNOWN_TAG];
      }
      OneReply(rs);
      outcome := Done;
    }

    /** Takes the channels apart, lets the plugin work on them and sends what it made. */
    method ProcessBlock(n: nat, channelCount: nat, samples: Row) returns (ok: bool, ghost sent: Matrix)
      modifies this, ch
      ensures ch.input == old(ch.input)
      ensures ok == (channelCount * n <= |samples|)
      ensures !ok ==> state == old(state) && ch.output == old(ch.output)
      ensures ok ==>
        var (st', r) := HostProtocol.ProcessBlock(plugin, old(state), Deinterleave(samples, channelCount, n), n);
        state == st' && ch.output == old(ch.output) + ReplyBytes(r)
      ensures ok ==>
        var (st', out) := plugin.process(old(state), n, Deinterleave(samples, channelCount, n));
        && state == st' && Padded(out, channelCount, n, sent)
        && ch.output == old(ch.output) + ReplyBytes(ProcessResp(n, sent))
    {
      if |samples| < channelCount * n {
        return false, [];  // the copy would read past the end of the samples
      }
      var inBufs := Split(n, channelCount, samples);
      var (st', out) := plugin.process(state, n, inBufs);
      state := st';
      sent := Fit(out, channelCount, n);
      FitPads(out, channelCount, n);
      ch.WriteProcessResp(n, Fit(out, channelCount, n));
      return true, sent;
    }

    static method Split(n: nat, channelCount: nat, samples: Row) returns (inBufs: Matrix)
      requires channelCount * n <= |samples|
      ensures inBufs == Deinterleave(samples, channelCount, n)
    {
      inBufs := [];
      for c := 0 to channelCount
        invariant |inBufs| == c
        invariant forall k :: 0 <= k < c ==> inBufs[k] == RowAt(samples, k, channelCount, n)
      {
        RowFits(c, channelCount, n);
        var buf := CopyRow(samples, c * n, n);
        inBufs := inBufs + [buf];
      }
    }

    static method CopyRow(samples: Row, start: nat, n: nat) returns (copy: Row)
      requires start + n <= |samples|
      ensures copy == samples[start..start + n]
    {
      var buf := new Float32[n](_ => ZERO);
      for s := 0 to n
        invariant buf[..s] == samples[start..start + s]
      {
        buf[s] := samples[start + s];
      }
      copy := buf[..];
    }
  }

  /** How serving one frame ends: the loop goes on, the input ended inside the frame, or its
      audio is missing. */
  datatype Served = Done | Ended | Faulted

  ghost predicate Serves<S>(p: Plugin<S>, st: S, whole: seq<Byte>, o: Served, rs: seq<Reply>, st': S, rest: seq<Byte>) {
    match ReadFrame(whole)
    case None => o == Ended && rs == [] && st' == st && rest == []
    case Some((f, left)) =>
      rest == left && HandledAs(p, st, f, o, rs, st')
  }

  ghost predicate HandledAs<S>(p: Plugin<S>, st: S, f: HostFrame, o: Served, rs: seq<Reply>, st': S) {
    match Handle(p, st, f)
    case None => o == Faulted && rs == [] && st' == st
    case Some((next, sent)) => o == Done && rs == sent && st' == next
  }

  lemma OneReply(rs: seq<Reply>)
    ensures |rs| == 1 ==> RepliesBytes(rs) == ReplyBytes(rs[0])
  {
    if |rs| == 1 {
      assert RepliesBytes(rs[1..]) == [];
    }
  }

  lemma GreetingFirst(before: seq<Byte>, hello: Reply, rs: seq<Reply>)
    ensures before + ReplyBytes(hello) + RepliesBytes(rs) == before + RepliesBytes([hello] + rs)
  {
    RepliesBytesCons(hello, rs);
  }

  /** The host program, once the plugin is loaded. */
  method Host<S>(ch: SerialChannel, plugin: Plugin<S>, initial: S) returns (ending: Ending)
    modifies ch
    ensures var (_, rs, e) := Loop(plugin, initial, old(ch.input));
      ending == e && ch.output == old(ch.output) + RepliesBytes([LOADED] + rs)
  {
    ghost var start := ch.output;
    var host := new Vst2Host(plugin, initial, ch);
    ghost var rs := Loop(plugin, initial, ch.input).1;
    GreetingFirst(start, LOADED, rs);
    ending := host.Run();
  }

  /** The host program. */
  method HostMain<S>(ch: SerialChannel, load: seq<Byte> -> Option<(Plugin<S>, S)>) returns (ending: Option<Ending>)
    modifies ch
    ensures var r := Session(load, old(ch.input));
      if r.None? then ending == None && ch.output == old(ch.output)
      else ending == Some(r.value.2) && ch.output == old(ch.output) + RepliesBytes(r.value.1)
  {
    var tag := ch.ReadTag();
    if tag != Some(LOAD) { return None; }
    var path := ch.ReadLoadFrameBody();
    if path.None? { return None; }
    var loaded := load(path.value);
    if loaded.None? { return None; }
    var (plugin, initial) := loaded.value;
    var e := Host(ch, plugin, initial);
    return Some(e);
  }
}
