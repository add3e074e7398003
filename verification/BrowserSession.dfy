/**
 The browser object over a whole session: commands are sent while bytes of the host arrive,
 in any interleaving in which the host answers only what has been sent. Each parameter
 request's promise is resolved with the plugin's value, through the bytes on the line.
 */
module BrowserSession {
  import opened Bytes
  import opened Common
  import opened SerialProtocol
  import opened HostProtocol
  import opened WasiVst

  /** What happens to the browser object: it sends a command, with a promise that matters for
      a parameter request only, or it receives a byte. */
  datatype Event = Issue(command: Command, promise: PromiseId) | Receive(b: Byte)

  datatype Browser = Browser(
    effects: Effects,
    rxBuf: seq<Byte>,
    sent: seq<Command>,
    promises: seq<PromiseId>,  // of the commands sent
    received: seq<Byte>)       // everything received so far

  const NOTHING_YET := Browser(Effects(map[], [], [], []), [], [], [], [])

  /** As the contracts of GetParam, SetParam, OnProcess and OnSerialByte say. */
  function After(b: Browser, e: Event): Browser {
    match e
    case Issue(c, q) =>
      b.(effects := if c.GetParam? then b.effects.(resolvers := b.effects.resolvers[c.id := q]) else b.effects,
         sent := b.sent + [c],
         promises := b.promises + [q])
    case Receive(x) =>
      var (rs, rest) := Parse(b.rxBuf + [x]);
      b.(effects := TakeAll(b.effects, rs), rxBuf := rest, received := b.received + [x])
  }

  function Run(es: seq<Event>): Browser {
    if es == [] then NOTHING_YET else After(Run(es[..|es| - 1]), es[|es| - 1])
  }

  /** Where the reply to command i comes among the answers. */
  function ReplyIndex<S>(p: Plugin<S>, st: S, cs: seq<Command>, i: nat): nat
    requires i <= |cs|
  {
    |Answers(p, st, cs[..i]).1|
  }

  /** The reply to command i has arrived. */
  ghost predicate Answered<S>(p: Plugin<S>, st: S, b: Browser, i: nat)
    requires i < |b.sent|
  {
    ReplyIndex(p, st, b.sent, i) < |Parse(b.received).0|
  }

  /** A request for the parameter. */
  predicate Asks(c: Command, id: nat) {
    c.GetParam? && c.id == id
  }

  /** What may happen next: any command that can be encoded, but no request for a parameter
      that has an unanswered one; and a byte that the host, given the commands so far, sends
      next. */
  ghost predicate Possible<S>(p: Plugin<S>, st: S, b: Browser, e: Event) {
    match e
    case Issue(c, _) =>
      ValidCommand(c) && forall i: nat :: i < |b.sent| && c.GetParam? && Asks(b.sent[i], c.id) ==> Answered(p, st, b, i)
    case Receive(x) => b.received + [x] <= RepliesBytes(Answers(p, st, b.sent).1)
  }

  ghost predicate AllPossible<S>(p: Plugin<S>, st: S, es: seq<Event>) {
    es == [] || (AllPossible(p, st, es[..|es| - 1]) && Possible(p, st, Run(es[..|es| - 1]), es[|es| - 1]))
  }

  // ---------------------------------------------------------------------------
  // Answers and their places
  // ---------------------------------------------------------------------------

  /** The reply to request i. */
  function ReplyTo<S>(p: Plugin<S>, st: S, cs: seq<Command>, i: nat): Reply
    requires i < |cs| && cs[i].GetParam?
  {
    ParamResp(cs[i].id, p.getParameter(Answers(p, st, cs[..i]).0, cs[i].id))
  }

  lemma {:induction false} ReplyAtIndex<S>(p: Plugin<S>, st: S, cs: seq<Command>, i: nat)
    requires i < |cs| && cs[i].GetParam?
    ensures var rs := Answers(p, st, cs).1;
      ReplyIndex(p, st, cs, i) < |rs| && rs[ReplyIndex(p, st, cs, i)] == ReplyTo(p, st, cs, i)
    decreases |cs|
  {
    var before := cs[..|cs| - 1];
    assert cs == before + [cs[|cs| - 1]];
    AnswersAppend(p, st, before, cs[|cs| - 1]);
    if i < |before| {
      assert before[..i] == cs[..i];
      ReplyAtIndex(p, st, before, i);
    }
  }

  /** Answer r is the reply about a parameter that command i asks for. */
  ghost predicate RepliesTo<S>(p: Plugin<S>, st: S, cs: seq<Command>, r: nat, i: nat)
    requires r < |Answers(p, st, cs).1| && Answers(p, st, cs).1[r].ParamResp?
  {
    i < |cs| && Asks(cs[i], Answers(p, st, cs).1[r].id) && r == ReplyIndex(p, st, cs, i)
  }

  lemma EarlierAnswer<S>(p: Plugin<S>, st: S, cs: seq<Command>, c: Command, r: nat)
    requires r < |Answers(p, st, cs).1|
    ensures var rs := Answers(p, st, cs + [c]).1; r < |rs| && rs[r] == Answers(p, st, cs).1[r]
  {
    AnswersAppend(p, st, cs, c);
  }

  lemma OldReply<S>(p: Plugin<S>, st: S, cs: seq<Command>, c: Command, r: nat, i: nat)
    requires r < |Answers(p, st, cs).1| && Answers(p, st, cs).1[r].ParamResp? && RepliesTo(p, st, cs, r, i)
    ensures var rs := Answers(p, st, cs + [c]).1;
      r < |rs| && rs[r] == Answers(p, st, cs).1[r] && RepliesTo(p, st, cs + [c], r, i)
  {
    EarlierAnswer(p, st, cs, c, r);
    assert (cs + [c])[..i] == cs[..i];
  }

  lemma NewReply<S>(p: Plugin<S>, st: S, cs: seq<Command>, c: Command, r: nat)
    requires |Answers(p, st, cs).1| <= r < |Answers(p, st, cs + [c]).1| && Answers(p, st, cs + [c]).1[r].ParamResp?
    ensures RepliesTo(p, st, cs + [c], r, |cs|)
  {
    AnswersAppend(p, st, cs, c);
    LastReply(p, Answers(p, st, cs).0, c);
    assert (cs + [c])[..|cs|] == cs;
  }

  /** A reply about a parameter is the reply to a request for it. */
  lemma {:induction false} ReplyHasRequest<S>(p: Plugin<S>, st: S, cs: seq<Command>, r: nat) returns (i: nat)
    requires r < |Answers(p, st, cs).1| && Answers(p, st, cs).1[r].ParamResp?
    ensures RepliesTo(p, st, cs, r, i)
    decreases |cs|, 1
  {
    assert cs != [];
    var before, c := cs[..|cs| - 1], cs[|cs| - 1];
    assert cs == before + [c];
    i := ReplyHasRequestIn(p, st, before, c, r);
  }

  lemma {:induction false} ReplyHasRequestIn<S>(p: Plugin<S>, st: S, cs: seq<Command>, c: Command, r: nat)
    returns (i: nat)
    requires r < |Answers(p, st, cs + [c]).1| && Answers(p, st, cs + [c]).1[r].ParamResp?
    ensures RepliesTo(p, st, cs + [c], r, i)
    decreases |cs| + 1, 0
  {
    if r < |Answers(p, st, cs).1| {
      EarlierAnswer(p, st, cs, c, r);
      i := ReplyHasRequest(p, st, cs, r);
      OldReply(p, st, cs, c, r, i);
    } else {
      i := |cs|;
      NewReply(p, st, cs, c, r);
    }
  }

  lemma LastReply<S>(p: Plugin<S>, st: S, c: Command)
    ensures var rs := Answer(p, st, c).1;
      |rs| <= 1 && (rs != [] && rs[0].ParamResp? ==> Asks(c, rs[0].id))
  {
  }

  // ---------------------------------------------------------------------------
  // What messages do to the promises
  // ---------------------------------------------------------------------------

  predicate Concerns(r: Reply, id: nat) {
    r.ParamResp? && r.id == id
  }

  lemma {:induction false} OthersKeepPending(v: Effects, rs: seq<Reply>, id: nat)
    requires id in v.resolvers && forall j :: 0 <= j < |rs| ==> !Concerns(rs[j], id)
    ensures var v' := TakeAll(v, rs); id in v'.resolvers && v'.resolvers[id] == v.resolvers[id]
    decreases rs
  {
    if rs != [] {
      assert !Concerns(rs[0], id);
      forall j | 0 <= j < |rs[1..]| ensures !Concerns(rs[1..][j], id) {
        assert rs[1..][j] == rs[j + 1];
      }
      OthersKeepPending(Take(v, rs[0]), rs[1..], id);
    }
  }

  lemma ResolvedByReply(v: Effects, rs: seq<Reply>, k: nat)
    requires k < |rs| && rs[k].ParamResp? && rs[k].id in v.resolvers
    requires forall j :: 0 <= j < k ==> !Concerns(rs[j], rs[k].id)
    ensures (v.resolvers[rs[k].id], rs[k].value) in TakeAll(v, rs).resolved
  {
    var first, later := rs[..k], rs[k + 1..];
    assert rs == first + ([rs[k]] + later);
    TakeAllInTwo(v, first, [rs[k]] + later);
    OthersKeepPending(v, first, rs[k].id);
    ResolvedFirst(TakeAll(v, first), rs[k], later);
  }

  lemma ResolvedFirst(v: Effects, r: Reply, later: seq<Reply>)
    requires r.ParamResp? && r.id in v.resolvers
    ensures (v.resolvers[r.id], r.value) in TakeAll(v, [r] + later).resolved
  {
    TakeAllStep(v, r, later);
    assert Take(v, r).resolved[|v.resolved|] == (v.resolvers[r.id], r.value);
    ResolvedStays(Take(v, r), later);
  }

  // ---------------------------------------------------------------------------
  // The invariant
  // ---------------------------------------------------------------------------

  /** An answered request's promise is resolved with the parameter's value after all commands
      sent before the request; an unanswered one's is pending. */
  ghost predicate PromiseKept<S>(p: Plugin<S>, st: S, b: Browser, i: nat)
    requires i < |b.sent| == |b.promises| && b.sent[i].GetParam?
  {
    if Answered(p, st, b, i) then (b.promises[i], ReplyTo(p, st, b.sent, i).value) in b.effects.resolved
    else b.sent[i].id in b.effects.resolvers && b.effects.resolvers[b.sent[i].id] == b.promises[i]
  }

  /** Two unanswered requests are for different parameters. */
  ghost predicate OneEach<S>(p: Plugin<S>, st: S, b: Browser) {
    forall i: nat, j: nat :: i < j < |b.sent| && b.sent[i].GetParam? && Asks(b.sent[j], b.sent[i].id) ==>
      Answered(p, st, b, i) || Answered(p, st, b, j)
  }

  ghost predicate Inv<S>(p: Plugin<S>, st: S, b: Browser) {
    && |b.promises| == |b.sent|
    && (forall i :: 0 <= i < |b.sent| ==> ValidCommand(b.sent[i]))
    && b.rxBuf == Parse(b.received).1
    && Parse(b.received).0 <= Answers(p, st, b.sent).1
    && (forall i: nat :: i < |b.sent| && b.sent[i].GetParam? ==> PromiseKept(p, st, b, i))
    && OneEach(p, st, b)
  }

  lemma SamePlace<S>(p: Plugin<S>, st: S, b: Browser, c: Command, q: PromiseId, i: nat)
    requires i < |b.sent| == |b.promises|
    ensures var b' := After(b, Issue(c, q));
      && b'.sent[i] == b.sent[i] && b'.promises[i] == b.promises[i] && b'.received == b.received
      && ReplyIndex(p, st, b'.sent, i) == ReplyIndex(p, st, b.sent, i)
      && (b.sent[i].GetParam? ==> ReplyTo(p, st, b'.sent, i) == ReplyTo(p, st, b.sent, i))
  {
    assert (b.sent + [c])[..i] == b.sent[..i];
  }

  lemma IssueKeepsPromise<S>(p: Plugin<S>, st: S, b: Browser, c: Command, q: PromiseId, i: nat)
    requires Inv(p, st, b) && Possible(p, st, b, Issue(c, q))
    requires i <= |b.sent| && (b.sent + [c])[i].GetParam?
    ensures PromiseKept(p, st, After(b, Issue(c, q)), i)
  {
    if i < |b.sent| {
      SamePlace(p, st, b, c, q, i);
      assert PromiseKept(p, st, b, i);
    } else {
      assert (b.sent + [c])[..i] == b.sent;
    }
  }

  lemma IssueKeepsInv<S>(p: Plugin<S>, st: S, b: Browser, c: Command, q: PromiseId)
    requires Inv(p, st, b) && Possible(p, st, b, Issue(c, q))
    ensures Inv(p, st, After(b, Issue(c, q)))
  {
    var b' := After(b, Issue(c, q));
    AnswersAppend(p, st, b.sent, c);
    forall i: nat | i < |b'.sent| && b'.sent[i].GetParam? ensures PromiseKept(p, st, b', i) {
      IssueKeepsPromise(p, st, b, c, q, i);
    }
    forall i: nat, j: nat | i < j < |b'.sent| && b'.sent[i].GetParam? && Asks(b'.sent[j], b'.sent[i].id)
      ensures Answered(p, st, b', i) || Answered(p, st, b', j)
    {
      SamePlace(p, st, b, c, q, i);
      if j < |b.sent| { SamePlace(p, st, b, c, q, j); }
    }
  }

  /** A byte adds the messages it completes to those that have arrived. */
  lemma ReceiveParses<S>(p: Plugin<S>, st: S, b: Browser, x: Byte)
    requires Inv(p, st, b) && Possible(p, st, b, Receive(x))
    ensures var rs := Parse(b.rxBuf + [x]).0;
      && Parse(b.received + [x]) == (Parse(b.received).0 + rs, Parse(b.rxBuf + [x]).1)
      && Parse(b.received).0 + rs <= Answers(p, st, b.sent).1
  {
    ParseInTwo(b.received, [x]);
    var answers := Answers(p, st, b.sent).1;
    AnswersAreValid(p, st, b.sent);
    RepliesAreParsed(answers);
    PrefixParses(b.received + [x], RepliesBytes(answers));
  }

  lemma PrefixParses(bs: seq<Byte>, whole: seq<Byte>)
    requires bs <= whole
    ensures Parse(bs).0 <= Parse(whole).0
  {
    var more := whole[|bs|..];
    assert whole == bs + more;
    ParseInTwo(bs, more);
  }

  lemma ReceiveKeepsPromise<S>(p: Plugin<S>, st: S, b: Browser, x: Byte, i: nat)
    requires Inv(p, st, b) && Possible(p, st, b, Receive(x)) && i < |b.sent| && b.sent[i].GetParam?
    ensures PromiseKept(p, st, After(b, Receive(x)), i)
  {
    ReceiveParses(p, st, b, x);
    assert PromiseKept(p, st, b, i);
    var rs := Parse(b.rxBuf + [x]).0;
    if Answered(p, st, b, i) {
      ResolvedStays(b.effects, rs);
    } else {
      NewReplies(p, st, b, rs, i);
      PendingKept(p, st, b, rs, i);
    }
  }

  lemma PendingKept<S>(p: Plugin<S>, st: S, b: Browser, rs: seq<Reply>, i: nat)
    requires i < |b.sent| == |b.promises| && b.sent[i].GetParam? && !Answered(p, st, b, i) && PromiseKept(p, st, b, i)
    requires Parse(b.received).0 + rs <= Answers(p, st, b.sent).1
    requires forall j :: 0 <= j < |rs| && Concerns(rs[j], b.sent[i].id) ==>
      |Parse(b.received).0| + j == ReplyIndex(p, st, b.sent, i)
    ensures var v, r := TakeAll(b.effects, rs), ReplyTo(p, st, b.sent, i);
      if ReplyIndex(p, st, b.sent, i) < |Parse(b.received).0 + rs| then (b.promises[i], r.value) in v.resolved
      else r.id in v.resolvers && v.resolvers[r.id] == b.promises[i]
  {
    var k := ReplyIndex(p, st, b.sent, i) - |Parse(b.received).0|;
    if k < |rs| {
      ReplyAtIndex(p, st, b.sent, i);
      AtOffset(Parse(b.received).0, rs, Answers(p, st, b.sent).1, k);
      ResolvedByReply(b.effects, rs, k);
    } else {
      OthersKeepPending(b.effects, rs, b.sent[i].id);
    }
  }

  lemma AtOffset(got: seq<Reply>, rs: seq<Reply>, answers: seq<Reply>, k: nat)
    requires got + rs <= answers && k < |rs|
    ensures answers[|got| + k] == rs[k]
  {
  }

  /** Among new messages only its own reply concerns an unanswered request's parameter. */
  lemma NewReplies<S>(p: Plugin<S>, st: S, b: Browser, rs: seq<Reply>, i: nat)
    requires OneEach(p, st, b) && i < |b.sent| && b.sent[i].GetParam? && !Answered(p, st, b, i)
    requires Parse(b.received).0 + rs <= Answers(p, st, b.sent).1
    ensures forall j :: 0 <= j < |rs| && Concerns(rs[j], b.sent[i].id) ==>
      |Parse(b.received).0| + j == ReplyIndex(p, st, b.sent, i)
  {
    var got, answers := Parse(b.received).0, Answers(p, st, b.sent).1;
    forall j | 0 <= j < |rs| && Concerns(rs[j], b.sent[i].id)
      ensures |got| + j == ReplyIndex(p, st, b.sent, i)
    {
      AtOffset(got, rs, answers, j);
      var other := ReplyHasRequest(p, st, b.sent, |got| + j);
      assert !Answered(p, st, b, other);
      assert other == i;
    }
  }

  lemma ReceiveKeepsInv<S>(p: Plugin<S>, st: S, b: Browser, x: Byte)
    requires Inv(p, st, b) && Possible(p, st, b, Receive(x))
    ensures Inv(p, st, After(b, Receive(x)))
  {
    var b' := After(b, Receive(x));
    ReceiveParses(p, st, b, x);
    forall i: nat | i < |b'.sent| && b'.sent[i].GetParam? ensures PromiseKept(p, st, b', i) {
      ReceiveKeepsPromise(p, st, b, x, i);
    }
    forall i: nat, j: nat | i < j < |b'.sent| && b'.sent[i].GetParam? && Asks(b'.sent[j], b'.sent[i].id)
      ensures Answered(p, st, b', i) || Answered(p, st, b', j)
    {
      assert Answered(p, st, b, i) || Answered(p, st, b, j);
    }
  }

  lemma {:induction false} SessionInv<S>(p: Plugin<S>, st: S, es: seq<Event>)
    requires AllPossible(p, st, es)
    ensures Inv(p, st, Run(es))
  {
    if es != [] {
      var b := Run(es[..|es| - 1]);
      SessionInv(p, st, es[..|es| - 1]);
      match es[|es| - 1]
      case Issue(c, q) => IssueKeepsInv(p, st, b, c, q);
      case Receive(x) => ReceiveKeepsInv(p, st, b, x);
    }
  }

  /** In any interleaving of commands and received bytes without overlapping requests for one
      parameter: a request whose reply has arrived has its promise resolved with the
      parameter's value after the commands sent before it, and one whose reply has not is
      still pending with its own promise. */
  lemma EveryRequestIsAnswered<S>(p: Plugin<S>, st: S, es: seq<Event>, i: nat)
    requires AllPossible(p, st, es) && i < |Run(es).sent| && Run(es).sent[i].GetParam?
    ensures |Run(es).promises| == |Run(es).sent| && PromiseKept(p, st, Run(es), i)
  {
    SessionInv(p, st, es);
  }

  /** And when all the host's bytes have arrived, every promise is resolved. */
  lemma AllArrivedAllResolved<S>(p: Plugin<S>, st: S, es: seq<Event>, i: nat)
    requires AllPossible(p, st, es) && i < |Run(es).sent| && Run(es).sent[i].GetParam?
    requires Run(es).received == RepliesBytes(Answers(p, st, Run(es).sent).1)
    ensures var b := Run(es);
      |b.promises| == |b.sent| && (b.promises[i], ReplyTo(p, st, b.sent, i).value) in b.effects.resolved
  {
    var b := Run(es);
    SessionInv(p, st, es);
    AnswersAreValid(p, st, b.sent);
    RepliesAreParsed(Answers(p, st, b.sent).1);
    ReplyAtIndex(p, st, b.sent, i);
    assert PromiseKept(p, st, b, i);
  }
}
