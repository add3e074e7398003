/**
 Everything a session does in the browser: which block of audio is posted, and which promise
 is resolved with which value, for each command, in every interleaving of commands and bytes.
 */
module BrowserEffects {
  import opened Bytes
  import opened Common
  import opened SerialProtocol
  import opened HostProtocol
  import opened WasiVst
  import opened BrowserSession

  /** The number of parameter requests, and of blocks of audio, among the commands. */
  function Gets(cs: seq<Command>): nat {
    if cs == [] then 0 else Gets(cs[..|cs| - 1]) + if cs[|cs| - 1].GetParam? then 1 else 0
  }

  function Blocks(cs: seq<Command>): nat {
    if cs == [] then 0 else Blocks(cs[..|cs| - 1]) + if cs[|cs| - 1].Process? then 1 else 0
  }

  function Values(rs: seq<Reply>): nat {
    if rs == [] then 0 else Values(rs[..|rs| - 1]) + if rs[|rs| - 1].ParamResp? then 1 else 0
  }

  lemma {:induction false} MatricesInTwo(a: seq<Reply>, b: seq<Reply>)
    ensures Matrices(a + b) == Matrices(a) + Matrices(b)
  {
    if a == [] {
      assert a + b == b;
    } else {
      assert (a + b)[1..] == a[1..] + b;
      MatricesInTwo(a[1..], b);
    }
  }

  /** What one command adds to the answers, and to the numbers of values and blocks in them. */
  lemma AnswerCounts<S>(p: Plugin<S>, st: S, cs: seq<Command>, c: Command)
    ensures var rs, rs' := Answers(p, st, cs).1, Answers(p, st, cs + [c]).1;
      && rs <= rs'
      && Values(rs') == Values(rs) + (if c.GetParam? then 1 else 0)
      && Matrices(rs') == Matrices(rs) + Matrices(rs'[|rs|..])
      && |Matrices(rs'[|rs|..])| == if c.Process? then 1 else 0
  {
    AnswersAppend(p, st, cs, c);
    var rs := Answers(p, st, cs).1;
    var added := Answer(p, Answers(p, st, cs).0, c).1;
    MatricesInTwo(rs, added);
    assert (rs + added)[|rs|..] == added;
    if added == [] {
      assert rs + added == rs;
    } else {
      assert added == [added[0]] && added[1..] == [];
      assert (rs + added)[..|rs|] == rs;
    }
  }

  lemma {:induction false} CountsOfAnswers<S>(p: Plugin<S>, st: S, cs: seq<Command>)
    ensures Values(Answers(p, st, cs).1) == Gets(cs)
    ensures |Matrices(Answers(p, st, cs).1)| == Blocks(cs)
  {
    if cs != [] {
      var before := cs[..|cs| - 1];
      assert cs == before + [cs[|cs| - 1]];
      CountsOfAnswers(p, st, before);
      AnswerCounts(p, st, before, cs[|cs| - 1]);
    }
  }

  // ---------------------------------------------------------------------------
  // The promises, reply by reply. Commands cs, promises qs, replies rs; the reply to command i
  // comes at place at[i]
  // ---------------------------------------------------------------------------

  /** A request has its reply at its place, and the requests before it have the values before. */
  ghost predicate RequestPlaced(cs: seq<Command>, at: seq<nat>, rs: seq<Reply>, i: nat)
    requires |at| == |cs|
  {
    i < |cs| && cs[i].GetParam? ==>
      at[i] < |rs| && Concerns(rs[at[i]], cs[i].id) && Values(rs[..at[i]]) == Gets(cs[..i])
  }

  ghost predicate InOrder(cs: seq<Command>, at: seq<nat>, i: nat, j: nat)
    requires |at| == |cs|
  {
    i < j < |cs| && cs[i].GetParam? ==> at[i] < at[j] && Gets(cs[..i]) < Gets(cs[..j])
  }

  /** A reply with a value has a request. */
  ghost predicate HasRequest(cs: seq<Command>, at: seq<nat>, rs: seq<Reply>, r: nat)
    requires |at| == |cs|
  {
    r < |rs| && rs[r].ParamResp? ==> exists i: nat :: i < |cs| && Asks(cs[i], rs[r].id) && at[i] == r
  }

  ghost predicate Placed(cs: seq<Command>, at: seq<nat>, rs: seq<Reply>) {
    && |at| == |cs|
    && (forall i: nat :: RequestPlaced(cs, at, rs, i))
    && (forall i: nat, j: nat :: InOrder(cs, at, i, j))
    && (forall r: nat :: HasRequest(cs, at, rs, r))
  }

  /** A request when k replies have been taken: pending, or resolved with its reply's value, in
      the order of the requests. */
  ghost predicate Due(cs: seq<Command>, qs: seq<PromiseId>, at: seq<nat>, rs: seq<Reply>, v: Effects, k: nat, i: nat)
    requires |cs| == |qs| == |at|
  {
    i < |cs| && cs[i].GetParam? ==>
      if k <= at[i]
      then cs[i].id in v.resolvers && v.resolvers[cs[i].id] == qs[i]
      else
        && at[i] < |rs| && rs[at[i]].ParamResp?
        && Gets(cs[..i]) < |v.resolved| && v.resolved[Gets(cs[..i])] == (qs[i], rs[at[i]].value)
  }

  /** Some request for the parameter has its reply still to come. */
  ghost predicate Awaited(cs: seq<Command>, at: seq<nat>, k: nat, id: nat)
    requires |at| == |cs|
  {
    exists i: nat :: i < |cs| && Asks(cs[i], id) && k <= at[i]
  }

  /** The promises are as they should be when k replies have been taken. */
  ghost predicate Exact(cs: seq<Command>, qs: seq<PromiseId>, at: seq<nat>, rs: seq<Reply>, v: Effects, k: nat) {
    && Placed(cs, at, rs) && |qs| == |cs| && k <= |rs|
    && |v.resolved| == Values(rs[..k])
    && (forall i: nat :: Due(cs, qs, at, rs, v, k, i))
    && (forall id :: id in v.resolvers ==> Awaited(cs, at, k, id))
  }

  /** Two requests whose replies are still to come are for different parameters. */
  ghost predicate ApartAt(cs: seq<Command>, at: seq<nat>, k: nat, i: nat, j: nat)
    requires |at| == |cs|
  {
    i < j < |cs| && cs[i].GetParam? && Asks(cs[j], cs[i].id) ==> at[i] < k || at[j] < k
  }

  ghost predicate Apart(cs: seq<Command>, at: seq<nat>, k: nat)
    requires |at| == |cs|
  {
    forall i: nat, j: nat :: ApartAt(cs, at, k, i, j)
  }

  lemma ValuesNext(rs: seq<Reply>, k: nat)
    requires k < |rs|
    ensures Values(rs[..k + 1]) == Values(rs[..k]) + if rs[k].ParamResp? then 1 else 0
  {
    assert rs[..k + 1][..k] == rs[..k];
  }

  lemma TakeKeepsDue(
    cs: seq<Command>, qs: seq<PromiseId>, at: seq<nat>, rs: seq<Reply>, v: Effects, k: nat, i: nat)
    requires k < |rs| && Exact(cs, qs, at, rs, v, k) && Apart(cs, at, k)
    ensures Due(cs, qs, at, rs, Take(v, rs[k]), k + 1, i)
  {
    assert Due(cs, qs, at, rs, v, k, i) && RequestPlaced(cs, at, rs, i) && HasRequest(cs, at, rs, k);
    if i < |cs| && cs[i].GetParam? && rs[k].ParamResp? && at[i] > k {
      var j: nat :| j < |cs| && Asks(cs[j], rs[k].id) && at[j] == k;
      assert ApartAt(cs, at, k, i, j) && ApartAt(cs, at, k, j, i);
    }
  }

  lemma TakeKeepsExact(cs: seq<Command>, qs: seq<PromiseId>, at: seq<nat>, rs: seq<Reply>, v: Effects, k: nat)
    requires k < |rs| && Exact(cs, qs, at, rs, v, k) && Apart(cs, at, k)
    ensures Exact(cs, qs, at, rs, Take(v, rs[k]), k + 1)
  {
    ValuesNext(rs, k);
    if rs[k].ParamResp? {
      assert HasRequest(cs, at, rs, k);
      var j: nat :| j < |cs| && Asks(cs[j], rs[k].id) && at[j] == k;
      assert Due(cs, qs, at, rs, v, k, j);
    }
    var v', k' := Take(v, rs[k]), k + 1;
    forall i: nat ensures Due(cs, qs, at, rs, v', k', i) {
      TakeKeepsDue(cs, qs, at, rs, v, k, i);
    }
    forall id | id in Take(v, rs[k]).resolvers ensures Awaited(cs, at, k + 1, id) {
      TakeKeepsAwaited(cs, at, rs, v, k, id);
    }
  }

  lemma TakeKeepsAwaited(cs: seq<Command>, at: seq<nat>, rs: seq<Reply>, v: Effects, k: nat, id: nat)
    requires k < |rs| && Placed(cs, at, rs) && id in Take(v, rs[k]).resolvers
    requires id in v.resolvers ==> Awaited(cs, at, k, id)
    ensures Awaited(cs, at, k + 1, id)
  {
    var i: nat :| i < |cs| && Asks(cs[i], id) && k <= at[i];
    assert RequestPlaced(cs, at, rs, i);
  }

  lemma ApartLater(cs: seq<Command>, at: seq<nat>, k: nat, k': nat)
    requires |at| == |cs| && Apart(cs, at, k) && k <= k'
    ensures Apart(cs, at, k')
  {
    forall i: nat, j: nat ensures ApartAt(cs, at, k', i, j) {
      assert ApartAt(cs, at, k, i, j);
    }
  }

  lemma {:induction false} TakeAllKeepsExact(
    cs: seq<Command>, qs: seq<PromiseId>, at: seq<nat>, rs: seq<Reply>, v: Effects, k: nat, taken: seq<Reply>)
    requires k + |taken| <= |rs| && rs[k..k + |taken|] == taken
    requires Exact(cs, qs, at, rs, v, k) && Apart(cs, at, k)
    ensures Exact(cs, qs, at, rs, TakeAll(v, taken), k + |taken|)
    decreases taken
  {
    if taken != [] {
      NextSlice(rs, k, taken);
      TakeKeepsExact(cs, qs, at, rs, v, k);
      ApartLater(cs, at, k, k + 1);
      TakeAllKeepsExact(cs, qs, at, rs, Take(v, taken[0]), k + 1, taken[1..]);
    }
  }

  lemma NextSlice(rs: seq<Reply>, k: nat, taken: seq<Reply>)
    requires taken != [] && k + |taken| <= |rs| && rs[k..k + |taken|] == taken
    ensures taken[0] == rs[k] && rs[k + 1..k + 1 + |taken[1..]|] == taken[1..]
  {
    assert rs[k..k + |taken|][1..] == rs[k + 1..k + |taken|];
  }

  // ---------------------------------------------------------------------------
  // One more command
  // ---------------------------------------------------------------------------

  /** The replies that one command adds: one with a value for a request, else none with one. */
  ghost predicate RepliesOf(c: Command, added: seq<Reply>) {
    && |added| <= 1
    && (c.GetParam? ==> |added| == 1 && Concerns(added[0], c.id))
    && (!c.GetParam? && added != [] ==> !added[0].ParamResp?)
  }

  lemma {:induction false} GetsGrow(cs: seq<Command>, i: nat)
    requires i < |cs| && cs[i].GetParam?
    ensures Gets(cs[..i]) < Gets(cs)
  {
    var before := cs[..|cs| - 1];
    if i < |before| {
      assert before[..i] == cs[..i];
      GetsGrow(before, i);
    }
  }

  lemma StillPlaced(cs: seq<Command>, at: seq<nat>, rs: seq<Reply>, c: Command, added: seq<Reply>, i: nat)
    requires Placed(cs, at, rs) && RepliesOf(c, added) && Values(rs) == Gets(cs)
    ensures RequestPlaced(cs + [c], at + [|rs|], rs + added, i)
  {
    assert RequestPlaced(cs, at, rs, i);
    if i < |cs| {
      if cs[i].GetParam? {
        assert (rs + added)[..at[i]] == rs[..at[i]] && (cs + [c])[..i] == cs[..i];
      }
    } else {
      assert (rs + added)[..|rs|] == rs && (cs + [c])[..|cs|] == cs;
    }
  }

  lemma StillInOrder(cs: seq<Command>, at: seq<nat>, rs: seq<Reply>, c: Command, i: nat, j: nat)
    requires Placed(cs, at, rs)
    ensures InOrder(cs + [c], at + [|rs|], i, j)
  {
    assert InOrder(cs, at, i, j) && RequestPlaced(cs, at, rs, i);
    if i < j <= |cs| && cs[i].GetParam? {
      GetsGrow((cs + [c])[..j], i);
      assert (cs + [c])[..j][..i] == (cs + [c])[..i];
    }
  }

  lemma StillRequested(cs: seq<Command>, at: seq<nat>, rs: seq<Reply>, c: Command, added: seq<Reply>, r: nat)
    requires Placed(cs, at, rs) && RepliesOf(c, added)
    ensures HasRequest(cs + [c], at + [|rs|], rs + added, r)
  {
    assert HasRequest(cs, at, rs, r);
    if r < |rs| && rs[r].ParamResp? {
      var i: nat :| i < |cs| && Asks(cs[i], rs[r].id) && at[i] == r;
      assert (cs + [c])[i] == cs[i] && (at + [|rs|])[i] == at[i];
    } else if r == |rs| && added != [] {
      assert (cs + [c])[|cs|] == c && (at + [|rs|])[|cs|] == |rs|;
    }
  }

  lemma PlacedNext(cs: seq<Command>, at: seq<nat>, rs: seq<Reply>, c: Command, added: seq<Reply>)
    requires Placed(cs, at, rs) && RepliesOf(c, added) && Values(rs) == Gets(cs)
    ensures Placed(cs + [c], at + [|rs|], rs + added)
  {
    var cs', at', rs' := cs + [c], at + [|rs|], rs + added;
    forall i: nat ensures RequestPlaced(cs', at', rs', i) { StillPlaced(cs, at, rs, c, added, i); }
    forall i: nat, j: nat ensures InOrder(cs', at', i, j) { StillInOrder(cs, at, rs, c, i, j); }
    forall r: nat ensures HasRequest(cs', at', rs', r) { StillRequested(cs, at, rs, c, added, r); }
  }

  lemma IssueKeepsDue(
    cs: seq<Command>, qs: seq<PromiseId>, at: seq<nat>, rs: seq<Reply>, v: Effects, k: nat,
    c: Command, q: PromiseId, added: seq<Reply>, i: nat)
    requires |cs| == |qs| == |at| && k <= |rs| && RequestPlaced(cs, at, rs, i) && Due(cs, qs, at, rs, v, k, i)
    requires i < |cs| && c.GetParam? && Asks(cs[i], c.id) ==> at[i] < k
    ensures Due(cs + [c], qs + [q], at + [|rs|], rs + added,
                if c.GetParam? then v.(resolvers := v.resolvers[c.id := q]) else v, k, i)
  {
    if i < |cs| && cs[i].GetParam? {
      assert (cs + [c])[i] == cs[i] && (rs + added)[at[i]] == rs[at[i]] && (cs + [c])[..i] == cs[..i];
    }
  }

  lemma IssueKeepsExact(
    cs: seq<Command>, qs: seq<PromiseId>, at: seq<nat>, rs: seq<Reply>, v: Effects, k: nat,
    c: Command, q: PromiseId, added: seq<Reply>)
    requires Exact(cs, qs, at, rs, v, k) && RepliesOf(c, added) && Values(rs) == Gets(cs)
    requires forall j: nat :: j < |cs| && c.GetParam? && Asks(cs[j], c.id) ==> at[j] < k
    ensures Exact(cs + [c], qs + [q], at + [|rs|], rs + added,
                  if c.GetParam? then v.(resolvers := v.resolvers[c.id := q]) else v, k)
  {
    var v' := if c.GetParam? then v.(resolvers := v.resolvers[c.id := q]) else v;
    var cs', qs', at', rs' := cs + [c], qs + [q], at + [|rs|], rs + added;
    PlacedNext(cs, at, rs, c, added);
    assert rs'[..k] == rs[..k];
    forall i: nat ensures Due(cs', qs', at', rs', v', k, i) {
      assert RequestPlaced(cs, at, rs, i) && Due(cs, qs, at, rs, v, k, i);
      IssueKeepsDue(cs, qs, at, rs, v, k, c, q, added, i);
    }
    forall id | id in v'.resolvers ensures Awaited(cs', at', k, id) {
      IssueKeepsAwaited(cs, at, rs, v, k, c, id);
    }
  }

  lemma IssueKeepsAwaited(
    cs: seq<Command>, at: seq<nat>, rs: seq<Reply>, v: Effects, k: nat, c: Command, id: nat)
    requires |at| == |cs| && k <= |rs| && (id in v.resolvers ==> Awaited(cs, at, k, id))
    requires Asks(c, id) || id in v.resolvers
    ensures Awaited(cs + [c], at + [|rs|], k, id)
  {
    if Asks(c, id) {
      assert Asks((cs + [c])[|cs|], id) && k <= (at + [|rs|])[|cs|];
    } else {
      var i: nat :| i < |cs| && Asks(cs[i], id) && k <= at[i];
      assert Asks((cs + [c])[i], id) && k <= (at + [|rs|])[i];
    }
  }

  // ---------------------------------------------------------------------------
  // Over a session
  // ---------------------------------------------------------------------------

  /** Where the replies to the commands come among the plugin's answers. */
  function PlacesOf<S>(p: Plugin<S>, st: S, cs: seq<Command>): (at: seq<nat>)
    ensures |at| == |cs|
  {
    if cs == [] then []
    else PlacesOf(p, st, cs[..|cs| - 1]) + [|Answers(p, st, cs[..|cs| - 1]).1|]
  }

  lemma {:induction false} PlaceIsReplyIndex<S>(p: Plugin<S>, st: S, cs: seq<Command>, i: nat)
    requires i < |cs|
    ensures PlacesOf(p, st, cs)[i] == ReplyIndex(p, st, cs, i)
  {
    var before := cs[..|cs| - 1];
    if i < |before| {
      assert before[..i] == cs[..i];
      PlaceIsReplyIndex(p, st, before, i);
    }
  }

  /** What one command adds to the answers, with everything about it that matters here. */
  lemma OneMoreCommand<S>(p: Plugin<S>, st: S, cs: seq<Command>, c: Command) returns (added: seq<Reply>)
    ensures Answers(p, st, cs + [c]).1 == Answers(p, st, cs).1 + added && RepliesOf(c, added)
    ensures PlacesOf(p, st, cs + [c]) == PlacesOf(p, st, cs) + [|Answers(p, st, cs).1|]
    ensures Values(Answers(p, st, cs).1) == Gets(cs)
  {
    AnswersAppend(p, st, cs, c);
    CountsOfAnswers(p, st, cs);
    added := Answer(p, Answers(p, st, cs).0, c).1;
    assert (cs + [c])[..|cs|] == cs;
  }

  /** The browser's effects are those of the messages it has received. */
  ghost predicate Settled<S>(p: Plugin<S>, st: S, b: Browser) {
    && Exact(b.sent, b.promises, PlacesOf(p, st, b.sent), Answers(p, st, b.sent).1, b.effects, |Parse(b.received).0|)
    && b.effects.posted == Matrices(Parse(b.received).0)
  }

  lemma AnsweredByNow<S>(p: Plugin<S>, st: S, b: Browser, j: nat)
    requires j < |b.sent|
    ensures Answered(p, st, b, j) <==> PlacesOf(p, st, b.sent)[j] < |Parse(b.received).0|
  {
    PlaceIsReplyIndex(p, st, b.sent, j);
  }

  lemma IssueKeepsSettled<S>(p: Plugin<S>, st: S, b: Browser, c: Command, q: PromiseId)
    requires Possible(p, st, b, Issue(c, q)) && Settled(p, st, b)
    ensures Settled(p, st, After(b, Issue(c, q)))
  {
    var at, k := PlacesOf(p, st, b.sent), |Parse(b.received).0|;
    forall j: nat | j < |b.sent| && c.GetParam? && Asks(b.sent[j], c.id) ensures at[j] < k {
      AnsweredByNow(p, st, b, j);
    }
    var added := OneMoreCommand(p, st, b.sent, c);
    IssueKeepsExact(b.sent, b.promises, at, Answers(p, st, b.sent).1, b.effects, k, c, q, added);
  }

  lemma OneEachApart<S>(p: Plugin<S>, st: S, b: Browser)
    requires OneEach(p, st, b)
    ensures Apart(b.sent, PlacesOf(p, st, b.sent), |Parse(b.received).0|)
  {
    var at := PlacesOf(p, st, b.sent);
    forall i: nat, j: nat ensures ApartAt(b.sent, at, |Parse(b.received).0|, i, j) {
      if i < j < |b.sent| && b.sent[i].GetParam? && Asks(b.sent[j], b.sent[i].id) {
        AnsweredByNow(p, st, b, i);
        AnsweredByNow(p, st, b, j);
        assert Answered(p, st, b, i) || Answered(p, st, b, j);
      }
    }
  }

  lemma MoreKeepsExact(
    cs: seq<Command>, qs: seq<PromiseId>, at: seq<nat>, rs: seq<Reply>, v: Effects, got: seq<Reply>, more: seq<Reply>)
    requires got + more <= rs && Exact(cs, qs, at, rs, v, |got|) && Apart(cs, at, |got|)
    ensures Exact(cs, qs, at, rs, TakeAll(v, more), |got + more|)
  {
    SliceBehind(got, more, rs);
    TakeAllKeepsExact(cs, qs, at, rs, v, |got|, more);
  }

  lemma SliceBehind(got: seq<Reply>, more: seq<Reply>, rs: seq<Reply>)
    requires got + more <= rs
    ensures |got| + |more| <= |rs| && rs[|got|..|got| + |more|] == more && |got + more| == |got| + |more|
  {
    assert rs[|got|..|got| + |more|] == rs[..|got + more|][|got|..];
  }

  /** What one byte brings, in the terms of what holds so far. */
  lemma Received<S>(p: Plugin<S>, st: S, b: Browser, x: Byte)
    requires Inv(p, st, b) && Possible(p, st, b, Receive(x))
    ensures var got, more := Parse(b.received).0, Parse(b.rxBuf + [x]).0;
      && Parse(b.received + [x]).0 == got + more
      && got + more <= Answers(p, st, b.sent).1
      && Apart(b.sent, PlacesOf(p, st, b.sent), |got|)
  {
    ReceiveParses(p, st, b, x);
    OneEachApart(p, st, b);
  }

  lemma ReceiveKeepsSettled<S>(p: Plugin<S>, st: S, b: Browser, x: Byte)
    requires Inv(p, st, b) && Possible(p, st, b, Receive(x)) && Settled(p, st, b)
    ensures Settled(p, st, After(b, Receive(x)))
  {
    var got, more := Parse(b.received).0, Parse(b.rxBuf + [x]).0;
    Received(p, st, b, x);
    ReceivedSettles(p, st, b, got, more);
  }

  lemma ReceivedSettles<S>(p: Plugin<S>, st: S, b: Browser, got: seq<Reply>, more: seq<Reply>)
    requires got + more <= Answers(p, st, b.sent).1 && Apart(b.sent, PlacesOf(p, st, b.sent), |got|)
    requires b.effects.posted == Matrices(got)
    requires Exact(b.sent, b.promises, PlacesOf(p, st, b.sent), Answers(p, st, b.sent).1, b.effects, |got|)
    ensures TakeAll(b.effects, more).posted == Matrices(got + more)
    ensures Exact(b.sent, b.promises, PlacesOf(p, st, b.sent), Answers(p, st, b.sent).1,
                  TakeAll(b.effects, more), |got + more|)
  {
    AudioIsPosted(b.effects, more);
    MatricesInTwo(got, more);
    MoreKeepsExact(b.sent, b.promises, PlacesOf(p, st, b.sent), Answers(p, st, b.sent).1, b.effects, got, more);
  }

  lemma NothingYetSettled<S>(p: Plugin<S>, st: S)
    ensures Settled(p, st, NOTHING_YET)
  {
    assert Answers(p, st, []).1 == [] && PlacesOf(p, st, []) == [];
  }

  lemma {:induction false} SessionSettles<S>(p: Plugin<S>, st: S, es: seq<Event>)
    requires AllPossible(p, st, es)
    ensures Settled(p, st, BrowserSession.Run(es))
  {
    if es == [] {
      NothingYetSettled(p, st);
    } else {
      var b := BrowserSession.Run(es[..|es| - 1]);
      SessionInv(p, st, es[..|es| - 1]);
      SessionSettles(p, st, es[..|es| - 1]);
      match es[|es| - 1]
      case Issue(c, q) => IssueKeepsSettled(p, st, b, c, q);
      case Receive(x) => ReceiveKeepsSettled(p, st, b, x);
    }
  }

  // ---------------------------------------------------------------------------
  // What each command leads to
  // ---------------------------------------------------------------------------

  /** A matrix for each block of audio, in their order. */
  lemma {:induction false} BlockOfCommand<S>(p: Plugin<S>, st: S, cs: seq<Command>, i: nat)
    requires i < |cs| && cs[i].Process?
    ensures var before := Answers(p, st, cs[..i]).0;
      && Blocks(cs[..i]) < |Matrices(Answers(p, st, cs).1)|
      && BlockProcessed(p, before, cs[i].channels, Answer(p, before, cs[i]).0,
                        Matrices(Answers(p, st, cs).1)[Blocks(cs[..i])])
    decreases |cs|
  {
    var sooner, c := cs[..|cs| - 1], cs[|cs| - 1];
    assert cs == sooner + [c];
    AnswerCounts(p, st, sooner, c);
    if i < |sooner| {
      assert sooner[..i] == cs[..i];
      BlockOfCommand(p, st, sooner, i);
    } else {
      CountsOfAnswers(p, st, sooner);
      AnswersAppend(p, st, sooner, c);
      AnswerIsThePlugins(p, Answers(p, st, sooner).0, c);
    }
  }

  /** What command i leads to in the browser: the plugin's block of audio is posted, or the
      promise is resolved with the parameter's value, in the order of the commands. The plugin
      is in the state in which the host's loop ends on the bytes of the commands before. */
  ghost predicate Delivered<S>(p: Plugin<S>, st: S, b: Browser, i: nat)
    requires i < |b.sent| == |b.promises|
  {
    var before, after := Loop(p, st, Stream(b.sent[..i])).0, Loop(p, st, Stream(b.sent[..i + 1])).0;
    match b.sent[i]
    case Process(m) =>
      var k := Blocks(b.sent[..i]);
      k < |b.effects.posted| && BlockProcessed(p, before, m, after, b.effects.posted[k])
    case GetParam(id) =>
      var k := Gets(b.sent[..i]);
      && k < |b.effects.resolved|
      && b.effects.resolved[k] == (b.promises[i], p.getParameter(before, id)) && after == before
    case SetParam(id, v) => after == p.setParameter(before, id, v)
  }

  lemma StatesOfLoop<S>(p: Plugin<S>, st: S, cs: seq<Command>, i: nat)
    requires i < |cs| && forall j :: 0 <= j < |cs| ==> ValidCommand(cs[j])
    ensures Loop(p, st, Stream(cs[..i])).0 == Answers(p, st, cs[..i]).0
    ensures Loop(p, st, Stream(cs[..i + 1])).0 == Answer(p, Answers(p, st, cs[..i]).0, cs[i]).0
  {
    HostGetsWhatBrowserWrote(p, st, cs[..i]);
    HostGetsWhatBrowserWrote(p, st, cs[..i + 1]);
    AnswersStep(p, st, cs, i);
  }

  lemma CommandIsDelivered<S>(p: Plugin<S>, st: S, b: Browser, i: nat)
    requires Inv(p, st, b) && Settled(p, st, b) && Parse(b.received).0 == Answers(p, st, b.sent).1
    requires i < |b.sent|
    ensures Delivered(p, st, b, i)
  {
    StatesOfLoop(p, st, b.sent, i);
    if b.sent[i].Process? {
      BlockOfCommand(p, st, b.sent, i);
    } else if b.sent[i].GetParam? {
      ReplyAtIndex(p, st, b.sent, i);
      PlaceIsReplyIndex(p, st, b.sent, i);
      var answers := Answers(p, st, b.sent).1;
      assert Due(b.sent, b.promises, PlacesOf(p, st, b.sent), answers, b.effects, |answers|, i);
    }
  }

  /** When all the host's bytes have arrived, every command has had exactly its effect: as many
      blocks are posted as were sent, as many promises are resolved as requests were sent, each
      with the plugin's answer to its own command, in order, and no promise is pending. */
  lemma EverythingIsDelivered<S>(p: Plugin<S>, st: S, es: seq<Event>)
    requires AllPossible(p, st, es)
    requires BrowserSession.Run(es).received == RepliesBytes(Loop(p, st, Stream(BrowserSession.Run(es).sent)).1)
    ensures var b := BrowserSession.Run(es);
      && |b.promises| == |b.sent|
      && |b.effects.posted| == Blocks(b.sent) && |b.effects.resolved| == Gets(b.sent)
      && b.effects.resolvers == map[]
      && (forall i: nat :: i < |b.sent| ==> Delivered(p, st, b, i))
  {
    var b := BrowserSession.Run(es);
    SessionInv(p, st, es);
    SessionSettles(p, st, es);
    HostGetsWhatBrowserWrote(p, st, b.sent);
    var answers := Answers(p, st, b.sent).1;
    AnswersAreValid(p, st, b.sent);
    RepliesAreParsed(answers);
    CountsOfAnswers(p, st, b.sent);
    assert answers[..|answers|] == answers;
    forall i: nat | i < |b.sent| ensures Delivered(p, st, b, i) {
      CommandIsDelivered(p, st, b, i);
    }
    NothingAwaited(b.sent, b.promises, PlacesOf(p, st, b.sent), answers, b.effects);
  }

  lemma NothingAwaited(cs: seq<Command>, qs: seq<PromiseId>, at: seq<nat>, rs: seq<Reply>, v: Effects)
    requires Exact(cs, qs, at, rs, v, |rs|)
    ensures v.resolvers == map[]
  {
    forall id ensures id !in v.resolvers {
      forall i: nat | i < |cs| && Asks(cs[i], id) ensures at[i] < |rs| {
        assert RequestPlaced(cs, at, rs, i);
      }
    }
  }
}
