/**
 Overlapping requests for one parameter. The browser keeps one promise per parameter, so a
 request made while another for the same parameter is pending takes its place. Every promise
 of a session is resolved with its own value exactly if that never happens.
 */
module BrowserOverlap {
  import opened Bytes
  import opened Common
  import opened SerialProtocol
  import opened HostProtocol
  import opened WasiVst
  import opened BrowserSession
  import opened BrowserEffects

  function StateOf(es: seq<Event>): Browser {
    BrowserSession.Run(es)
  }

  /** What may happen next if requests may overlap. */
  ghost predicate Arrives<S>(p: Plugin<S>, st: S, b: Browser, e: Event) {
    match e
    case Issue(c, _) => ValidCommand(c)
    case Receive(x) => b.received + [x] <= RepliesBytes(Answers(p, st, b.sent).1)
  }

  ghost predicate AllArrive<S>(p: Plugin<S>, st: S, es: seq<Event>) {
    es == [] || (AllArrive(p, st, es[..|es| - 1]) && Arrives(p, st, StateOf(es[..|es| - 1]), es[|es| - 1]))
  }

  /** A request for a parameter that has a pending promise. */
  predicate Overlaps(b: Browser, e: Event) {
    e.Issue? && e.command.GetParam? && e.command.id in b.effects.resolvers
  }

  predicate NoOverlap(es: seq<Event>) {
    es == [] || (NoOverlap(es[..|es| - 1]) && !Overlaps(StateOf(es[..|es| - 1]), es[|es| - 1]))
  }

  // ---------------------------------------------------------------------------
  // Without overlap
  // ---------------------------------------------------------------------------

  /** A parameter has a pending promise exactly if a request for it is unanswered. */
  lemma PendingIffUnanswered<S>(p: Plugin<S>, st: S, b: Browser, id: nat)
    requires Inv(p, st, b) && Settled(p, st, b)
    ensures id in b.effects.resolvers <==>
            exists i: nat :: i < |b.sent| && Asks(b.sent[i], id) && !Answered(p, st, b, i)
  {
    var at := PlacesOf(p, st, b.sent);
    if id in b.effects.resolvers {
      assert Awaited(b.sent, at, |Parse(b.received).0|, id);
      var i: nat :| i < |b.sent| && Asks(b.sent[i], id) && |Parse(b.received).0| <= at[i];
      AnsweredByNow(p, st, b, i);
    } else {
      forall i: nat | i < |b.sent| && Asks(b.sent[i], id) ensures Answered(p, st, b, i) {
        assert PromiseKept(p, st, b, i);
      }
    }
  }

  lemma PossibleUnlessOverlap<S>(p: Plugin<S>, st: S, b: Browser, e: Event)
    requires Inv(p, st, b) && Settled(p, st, b) && Arrives(p, st, b, e)
    ensures Possible(p, st, b, e) <==> !Overlaps(b, e)
  {
    if e.Issue? && e.command.GetParam? {
      PendingIffUnanswered(p, st, b, e.command.id);
    }
  }

  lemma {:induction false} PossibleIffNoOverlap<S>(p: Plugin<S>, st: S, es: seq<Event>)
    requires AllArrive(p, st, es)
    ensures AllPossible(p, st, es) <==> NoOverlap(es)
  {
    if es != [] {
      var before := es[..|es| - 1];
      PossibleIffNoOverlap(p, st, before);
      if AllPossible(p, st, before) {
        SessionInv(p, st, before);
        SessionSettles(p, st, before);
        PossibleUnlessOverlap(p, st, StateOf(before), es[|es| - 1]);
      }
    }
  }

  // ---------------------------------------------------------------------------
  // With overlap
  // ---------------------------------------------------------------------------

  ghost predicate AllDifferent(qs: seq<PromiseId>) {
    forall i, j :: 0 <= i < j < |qs| ==> qs[i] != qs[j]
  }

  /** Promise q is that of a request for the parameter. */
  ghost predicate OfRequest(cs: seq<Command>, qs: seq<PromiseId>, id: nat, q: PromiseId) {
    exists i: nat :: i < |cs| == |qs| && Asks(cs[i], id) && qs[i] == q
  }

  /** A pending promise is that of a request for its parameter and has not been resolved, and
      only promises of requests have been. */
  ghost predicate Tracked(cs: seq<Command>, qs: seq<PromiseId>, v: Effects) {
    && |qs| == |cs|
    && (forall id :: id in v.resolvers ==> OfRequest(cs, qs, id, v.resolvers[id]))
    && (forall id, x :: id in v.resolvers && x in v.resolved ==> x.0 != v.resolvers[id])
    && (forall x :: x in v.resolved ==> x.0 in qs)
  }

  lemma PromisesDiffer(cs: seq<Command>, qs: seq<PromiseId>, id: nat, id': nat, q: PromiseId)
    requires AllDifferent(qs) && OfRequest(cs, qs, id, q) && OfRequest(cs, qs, id', q)
    ensures id == id'
  {
  }

  lemma TakeKeepsTracked(cs: seq<Command>, qs: seq<PromiseId>, v: Effects, r: Reply)
    requires AllDifferent(qs) && Tracked(cs, qs, v)
    ensures Tracked(cs, qs, Take(v, r))
  {
    var v' := Take(v, r);
    forall id, x | id in v'.resolvers && x in v'.resolved ensures x.0 != v'.resolvers[id] {
      if x !in v.resolved && x.0 == v.resolvers[id] {
        PromisesDiffer(cs, qs, id, r.id, x.0);
      }
    }
    forall x | x in v'.resolved ensures x.0 in qs {
      if x !in v.resolved {
        assert OfRequest(cs, qs, r.id, v.resolvers[r.id]);
      }
    }
  }

  lemma {:induction false} TakeAllKeepsTracked(cs: seq<Command>, qs: seq<PromiseId>, v: Effects, rs: seq<Reply>)
    requires AllDifferent(qs) && Tracked(cs, qs, v)
    ensures Tracked(cs, qs, TakeAll(v, rs))
    decreases rs
  {
    if rs != [] {
      TakeKeepsTracked(cs, qs, v, rs[0]);
      TakeAllKeepsTracked(cs, qs, Take(v, rs[0]), rs[1..]);
    }
  }

  lemma IssueKeepsTracked(b: Browser, c: Command, q: PromiseId)
    requires Tracked(b.sent, b.promises, b.effects) && AllDifferent(b.promises + [q])
    ensures var b' := After(b, Issue(c, q)); Tracked(b'.sent, b'.promises, b'.effects)
  {
    var b' := After(b, Issue(c, q));
    NewPromise(b.promises, q);
    forall id | id in b'.effects.resolvers ensures OfRequest(b'.sent, b'.promises, id, b'.effects.resolvers[id]) {
      if Asks(c, id) {
        assert Asks(b'.sent[|b.sent|], id) && b'.promises[|b.sent|] == q;
      } else {
        var i: nat :| i < |b.sent| && Asks(b.sent[i], id) && b.promises[i] == b.effects.resolvers[id];
        assert Asks(b'.sent[i], id) && b'.promises[i] == b.promises[i];
      }
    }
  }

  lemma NewPromise(qs: seq<PromiseId>, q: PromiseId)
    requires AllDifferent(qs + [q])
    ensures AllDifferent(qs) && q !in qs
  {
    forall i | 0 <= i < |qs| ensures qs[i] != q {
      assert (qs + [q])[i] == qs[i] && (qs + [q])[|qs|] == q;
    }
    forall i, j | 0 <= i < j < |qs| ensures qs[i] != qs[j] {
      assert (qs + [q])[i] == qs[i] && (qs + [q])[j] == qs[j];
    }
  }

  lemma {:induction false} RunTracked(es: seq<Event>)
    requires AllDifferent(StateOf(es).promises)
    ensures Tracked(StateOf(es).sent, StateOf(es).promises, StateOf(es).effects)
  {
    if es != [] {
      var b := StateOf(es[..|es| - 1]);
      match es[|es| - 1]
      case Issue(c, q) =>
        NewPromise(b.promises, q);
        RunTracked(es[..|es| - 1]);
        IssueKeepsTracked(b, c, q);
      case Receive(x) =>
        RunTracked(es[..|es| - 1]);
        TakeAllKeepsTracked(b.sent, b.promises, b.effects, Parse(b.rxBuf + [x]).0);
    }
  }

  /** Promise q is neither pending nor resolved. */
  ghost predicate Gone(v: Effects, q: PromiseId) {
    (forall id :: id in v.resolvers ==> v.resolvers[id] != q) && (forall x :: x in v.resolved ==> x.0 != q)
  }

  lemma {:induction false} GoneAfterReplies(v: Effects, rs: seq<Reply>, q: PromiseId)
    requires Gone(v, q)
    ensures Gone(TakeAll(v, rs), q)
    decreases rs
  {
    if rs != [] {
      GoneAfterReplies(Take(v, rs[0]), rs[1..], q);
    }
  }

  lemma GoneAfterEvent(b: Browser, e: Event, q: PromiseId)
    requires Gone(b.effects, q) && (e.Issue? ==> e.promise != q)
    ensures Gone(After(b, e).effects, q)
  {
    if e.Receive? {
      GoneAfterReplies(b.effects, Parse(b.rxBuf + [e.b]).0, q);
    }
  }

  /** What was sent stays, with its promises. */
  lemma {:induction false} SentGrows(es: seq<Event>, later: seq<Event>)
    ensures StateOf(es).sent <= StateOf(es + later).sent && StateOf(es).promises <= StateOf(es + later).promises
  {
    if later == [] {
      assert es + later == es;
    } else {
      var sooner := later[..|later| - 1];
      assert (es + later)[..|es + later| - 1] == es + sooner;
      SentGrows(es, sooner);
    }
  }

  /** A promise that is gone stays gone. */
  lemma {:induction false} GoneForEver(es: seq<Event>, later: seq<Event>, q: PromiseId)
    requires Gone(StateOf(es).effects, q) && q in StateOf(es).promises && AllDifferent(StateOf(es + later).promises)
    ensures Gone(StateOf(es + later).effects, q)
  {
    if later == [] {
      assert es + later == es;
    } else {
      var sooner, e := later[..|later| - 1], later[|later| - 1];
      assert (es + later)[..|es + later| - 1] == es + sooner;
      var b := StateOf(es + sooner);
      SentGrows(es, sooner);
      if e.Issue? { NewPromise(b.promises, e.promise); }
      GoneForEver(es, sooner, q);
      GoneAfterEvent(b, e, q);
    }
  }

  lemma {:induction false} SomeOverlap(es: seq<Event>) returns (m: nat)
    requires !NoOverlap(es)
    ensures m < |es| && Overlaps(StateOf(es[..m]), es[m])
  {
    var before := es[..|es| - 1];
    if NoOverlap(before) {
      m := |before|;
    } else {
      m := SomeOverlap(before);
      assert before[..m] == es[..m];
    }
  }

  /** An overlapping request takes the place of another promise, which is then gone. */
  lemma OverlapLosesAPromise(b: Browser, e: Event) returns (i: nat)
    requires Overlaps(b, e) && Tracked(b.sent, b.promises, b.effects) && AllDifferent(After(b, e).promises)
    ensures i < |b.sent| == |b.promises| && b.sent[i].GetParam? && Gone(After(b, e).effects, b.promises[i])
  {
    var id, v := e.command.id, b.effects;
    var q := v.resolvers[id];
    NewPromise(b.promises, e.promise);
    assert OfRequest(b.sent, b.promises, id, q);
    i :| i < |b.sent| == |b.promises| && Asks(b.sent[i], id) && b.promises[i] == q;
    forall id' | id' in v.resolvers && id' != id ensures v.resolvers[id'] != q {
      if v.resolvers[id'] == q {
        PromisesDiffer(b.sent, b.promises, id, id', q);
      }
    }
  }

  /** Request i's promise has been resolved with the value of its own reply. */
  ghost predicate Resolved<S>(p: Plugin<S>, st: S, b: Browser, i: nat)
    requires i < |b.sent| && b.sent[i].GetParam?
  {
    i < |b.promises| && (b.promises[i], ReplyTo(p, st, b.sent, i).value) in b.effects.resolved
  }

  ghost predicate AllResolved<S>(p: Plugin<S>, st: S, b: Browser) {
    forall i: nat :: i < |b.sent| && b.sent[i].GetParam? ==> Resolved(p, st, b, i)
  }

  /** When all the host's bytes have arrived, every request's promise has been resolved with its
      own value if and only if no request was made while another one for the same parameter
      was pending, which the caller can tell beforehand. */
  lemma AllResolvedIffNoOverlap<S>(p: Plugin<S>, st: S, es: seq<Event>)
    requires AllArrive(p, st, es) && AllDifferent(StateOf(es).promises)
    requires StateOf(es).received == RepliesBytes(Answers(p, st, StateOf(es).sent).1)
    ensures AllResolved(p, st, StateOf(es)) <==> NoOverlap(es)
  {
    var b := StateOf(es);
    PossibleIffNoOverlap(p, st, es);
    if NoOverlap(es) {
      forall i: nat | i < |b.sent| && b.sent[i].GetParam? ensures Resolved(p, st, b, i) {
        AllArrivedAllResolved(p, st, es, i);
      }
    } else {
      var i := SomePromiseIsLost(es);
      assert !Resolved(p, st, b, i);
    }
  }

  lemma SomePromiseIsLost(es: seq<Event>) returns (i: nat)
    requires !NoOverlap(es) && AllDifferent(StateOf(es).promises)
    ensures var b := StateOf(es);
      i < |b.sent| && i < |b.promises| && b.sent[i].GetParam? && Gone(b.effects, b.promises[i])
  {
    var m := SomeOverlap(es);
    var first, later := es[..m + 1], es[m + 1..];
    assert es == first + later && first[..m] == es[..m];
    assert es == es[..m] + es[m..];
    SentGrows(es[..m], es[m..]);
    SentGrows(first, later);
    DifferentPrefix(StateOf(es[..m]).promises, StateOf(es).promises);
    DifferentPrefix(StateOf(first).promises, StateOf(es).promises);
    RunTracked(es[..m]);
    i := OverlapLosesAPromise(StateOf(es[..m]), es[m]);
    GoneForEver(first, later, StateOf(es[..m]).promises[i]);
  }

  lemma DifferentPrefix(a: seq<PromiseId>, b: seq<PromiseId>)
    requires a <= b && AllDifferent(b)
    ensures AllDifferent(a)
  {
    forall i, j | 0 <= i < j < |a| ensures a[i] != a[j] {
      assert a[i] == b[i] && a[j] == b[j];
    }
  }
}
