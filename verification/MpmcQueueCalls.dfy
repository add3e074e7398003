/**
 Calls of the queue over whole runs: which operation a thread was asked for decides what code
 it runs and what it returns, and a try_ call left alone ends after a bounded number of steps.
 */
module MpmcQueueCalls {
  import opened MpmcQueue

  /** Choice i calls op on thread t, which has no other call in progress. */
  ghost predicate Called<T>(capacity: nat, choices: seq<Choice<T>>, i: nat, t: ThreadId, op: Operation<T>)
    requires capacity >= 1 && i < |choices|
  {
    choices[i] == Call(t, op) && StateAt(capacity, choices, i).At(t).Idle?
  }

  /** Choice i, for op, is the latest call of t before instant m. */
  ghost predicate LatestCall<T>(capacity: nat, choices: seq<Choice<T>>, i: nat, m: nat, t: ThreadId, op: Operation<T>)
    requires capacity >= 1 && m <= |choices|
  {
    && i < m
    && Called(capacity, choices, i, t, op)
    && forall k: nat :: i < k < m && choices[k].Call? && choices[k].thread == t ==>
         !StateAt(capacity, choices, k).At(t).Idle?
  }

  ghost predicate Pushing<T>(pc: Pc<T>, v: T) {
    (pc.Construct? || pc.Publish?) && pc.v == v
  }

  predicate Popping<T>(pc: Pc<T>) {
    pc.Take? || pc.Destroy? || pc.Release?
  }

  /** The places where a call of op can be before it returns. */
  ghost predicate InCodeOf<T>(op: Operation<T>, pc: Pc<T>) {
    match op
    case Emplace(v) => ((pc.EmplaceTicket? || pc.EmplaceSpin?) && pc.v == v) || Pushing(pc, v)
    case TryEmplace(v) =>
      || ((pc.TryEmplaceLoad? || pc.TryEmplaceCheck? || pc.TryEmplaceCas? || pc.TryEmplaceReload?) && pc.v == v)
      || Pushing(pc, v)
    case Pop => pc.PopTicket? || pc.PopSpin? || Popping(pc)
    case TryPop => pc.TryPopLoad? || pc.TryPopCheck? || pc.TryPopCas? || pc.TryPopReload? || Popping(pc)
  }

  /** What a call of op by t can return. */
  ghost predicate Returns<T>(t: ThreadId, op: Operation<T>, e: Event<T>) {
    e.thread == t &&
    match op
    case Emplace(v) => e.Pushed? && e.value == v
    case TryEmplace(v) => (e.Pushed? || e.PushRefused?) && e.value == v
    case Pop => e.Popped?
    case TryPop => e.Popped? || e.PopRefused?
  }

  /** A thread's own step inside a call of op stays in that call's code and returns nothing,
      or returns one of op's results. */
  ghost predicate StaysOrReturns<T>(s: State<T>, s': State<T>, t: ThreadId, op: Operation<T>) {
    || (InCodeOf(op, s'.At(t)) && s'.log == s.log)
    || (s'.At(t).Idle? && |s'.log| == |s.log| + 1 && s'.log[..|s.log|] == s.log && Returns(t, op, s'.log[|s.log|]))
  }

  lemma PushStepStays<T>(s: State<T>, t: ThreadId, op: Operation<T>)
    requires s.Shaped() && InCodeOf(op, s.At(t)) && DrawingPush(s.At(t))
    ensures StaysOrReturns(s, PushStep(s, t), t, op)
  {
  }

  lemma PopStepStays<T>(s: State<T>, t: ThreadId, op: Operation<T>)
    requires s.Shaped() && InCodeOf(op, s.At(t)) && DrawingPop(s.At(t))
    ensures StaysOrReturns(s, PopStep(s, t), t, op)
  {
  }

  lemma SectionStays<T>(s: State<T>, t: ThreadId, op: Operation<T>)
    requires s.Shaped() && InCodeOf(op, s.At(t)) && InSection(s.At(t))
    ensures StaysOrReturns(s, StepThread(s, t), t, op)
  {
  }

  lemma OwnStepStays<T>(s: State<T>, t: ThreadId, op: Operation<T>)
    requires s.Shaped() && InCodeOf(op, s.At(t))
    ensures StaysOrReturns(s, StepThread(s, t), t, op)
  {
    if DrawingPush(s.At(t)) { PushStepStays(s, t, op); }
    else if DrawingPop(s.At(t)) { PopStepStays(s, t, op); }
    else { SectionStays(s, t, op); }
  }

  /** The log is extended by at most one event, of thread u. */
  ghost predicate LogsAtMostOne<T>(s: State<T>, s': State<T>, u: ThreadId) {
    s'.log == s.log || (|s'.log| == |s.log| + 1 && s'.log[..|s.log|] == s.log && s'.log[|s.log|].thread == u)
  }

  lemma StepLogsAtMostOne<T>(s: State<T>, u: ThreadId)
    requires s.Shaped()
    ensures LogsAtMostOne(s, StepThread(s, u), u)
  {
    if DrawingPush(s.At(u)) {
      PushStepLogsAtMostOne(s, u);
    } else if DrawingPop(s.At(u)) {
      PopStepLogsAtMostOne(s, u);
    }
  }

  lemma PushStepLogsAtMostOne<T>(s: State<T>, u: ThreadId)
    requires s.Shaped() && DrawingPush(s.At(u))
    ensures LogsAtMostOne(s, PushStep(s, u), u)
  {
  }

  lemma PopStepLogsAtMostOne<T>(s: State<T>, u: ThreadId)
    requires s.Shaped() && DrawingPop(s.At(u))
    ensures LogsAtMostOne(s, PopStep(s, u), u)
  {
  }

  /** Event k is the only one of t among those after the first `from`. */
  ghost predicate OnlyEvent<T>(log: seq<Event<T>>, from: nat, k: nat, t: ThreadId) {
    from <= k < |log| && forall j: nat :: from <= j < |log| && log[j].thread == t ==> j == k
  }

  ghost predicate NoEvent<T>(log: seq<Event<T>>, from: nat, t: ThreadId) {
    forall j: nat :: from <= j < |log| ==> log[j].thread != t
  }

  /** How far t's call of op, made when the log had `from` events, has come: in progress it is
      in op's code and has returned nothing; over, it has returned once, one of op's results. */
  ghost predicate Follows<T>(s: State<T>, from: nat, t: ThreadId, op: Operation<T>) {
    if s.At(t).Idle?
    then exists k: nat :: OnlyEvent(s.log, from, k, t) && Returns(t, op, s.log[k])
    else InCodeOf(op, s.At(t)) && NoEvent(s.log, from, t)
  }

  lemma StepFollows<T>(s: State<T>, c: Choice<T>, from: nat, t: ThreadId, op: Operation<T>)
    requires s.Shaped() && from <= |s.log| && Follows(s, from, t, op)
    requires c.Call? && c.thread == t ==> !s.At(t).Idle?
    ensures from <= |Step(s, c).log| && Follows(Step(s, c), from, t, op)
  {
    var s' := Step(s, c);
    if c.Advance? {
      if c.thread != t {
        OthersStayPut(s, c.thread, t);
        StepLogsAtMostOne(s, c.thread);
        OthersFollow(s, s', c.thread, from, t, op);
      } else if !s.At(t).Idle? {
        OwnStepStays(s, t, op);
        if s'.At(t).Idle? {
          assert OnlyEvent(s'.log, from, |s.log|, t);
        }
      }
    }
  }

  lemma OthersFollow<T>(s: State<T>, s': State<T>, u: ThreadId, from: nat, t: ThreadId, op: Operation<T>)
    requires from <= |s.log| && Follows(s, from, t, op)
    requires s'.At(t) == s.At(t) && u != t && LogsAtMostOne(s, s', u)
    ensures Follows(s', from, t, op)
  {
    assert forall j: nat :: j < |s.log| ==> s'.log[j] == s'.log[..|s.log|][j];
    if s.At(t).Idle? {
      var k: nat :| OnlyEvent(s.log, from, k, t) && Returns(t, op, s.log[k]);
      assert OnlyEvent(s'.log, from, k, t);
    }
  }

  /** A call runs the code of its own operation until it returns, and what it returns, once,
      is a result of that operation with its own argument. */
  lemma {:induction false} CallRunsItsOperation<T>(
    capacity: nat, choices: seq<Choice<T>>, i: nat, m: nat, t: ThreadId, op: Operation<T>)
    requires capacity >= 1 && m <= |choices| && LatestCall(capacity, choices, i, m, t, op)
    ensures var s, s' := StateAt(capacity, choices, i), StateAt(capacity, choices, m);
      |s.log| <= |s'.log| && Follows(s', |s.log|, t, op)
    decreases m
  {
    NextState(capacity, choices, m - 1);
    if i < m - 1 {
      CallRunsItsOperation(capacity, choices, i, m - 1, t, op);
      var from := |StateAt(capacity, choices, i).log|;
      StepFollows(StateAt(capacity, choices, m - 1), choices[m - 1], from, t, op);
    }
  }

  /** A thread in the middle of a call was called, and the call is its latest. */
  lemma {:induction false} BusyThreadWasCalled<T>(capacity: nat, choices: seq<Choice<T>>, m: nat, t: ThreadId)
    returns (i: nat, op: Operation<T>)
    requires capacity >= 1 && m <= |choices| && !StateAt(capacity, choices, m).At(t).Idle?
    ensures LatestCall(capacity, choices, i, m, t, op)
  {
    if m == 0 {
      assert false;
    } else {
      NextState(capacity, choices, m - 1);
      var s := StateAt(capacity, choices, m - 1);
      if s.At(t).Idle? {
        OwnStep(s, choices[m - 1], t);
        IdleStepIsACall(s, choices[m - 1], t);
        i, op := m - 1, choices[m - 1].op;
      } else {
        i, op := BusyThreadWasCalled(capacity, choices, m - 1, t);
      }
    }
  }

  lemma IdleStepIsACall<T>(s: State<T>, c: Choice<T>, t: ThreadId)
    requires s.Shaped() && s.At(t).Idle? && c.thread == t && !Step(s, c).At(t).Idle?
    ensures c.Call?
  {
  }

  /** Whatever a step returns, it returns to the latest call of its thread, and it is one of
      the results of the operation called, with the value it was called with. */
  lemma EveryReturnMatchesItsCall<T>(capacity: nat, choices: seq<Choice<T>>, m: nat, e: Event<T>)
    requires capacity >= 1 && m < |choices|
    requires StateAt(capacity, choices, m + 1).log == StateAt(capacity, choices, m).log + [e]
    ensures choices[m] == Advance(e.thread)
    ensures exists i: nat, op :: LatestCall(capacity, choices, i, m, e.thread, op) && Returns(e.thread, op, e)
  {
    NextState(capacity, choices, m);
    var s, s' := StateAt(capacity, choices, m), StateAt(capacity, choices, m + 1);
    assert s'.log[|s.log|] == e;
    assert choices[m].Advance?;
    StepLogsAtMostOne(s, choices[m].thread);
    var t := e.thread;
    if s.At(t).Idle? {
      assert false;
    } else {
      var i, op := BusyThreadWasCalled(capacity, choices, m, t);
      CallRunsItsOperation(capacity, choices, i, m, t, op);
      OwnStepStays(s, t, op);
    }
  }

  /** Only a try_ call is ever refused, and only the one that asked. */
  lemma OnlyTriesAreRefused<T>(capacity: nat, choices: seq<Choice<T>>, m: nat, e: Event<T>)
    requires capacity >= 1 && m < |choices|
    requires StateAt(capacity, choices, m + 1).log == StateAt(capacity, choices, m).log + [e]
    ensures e.PushRefused? ==> exists i: nat :: LatestCall(capacity, choices, i, m, e.thread, TryEmplace(e.value))
    ensures e.PopRefused? ==> exists i: nat :: LatestCall(capacity, choices, i, m, e.thread, TryPop)
  {
    EveryReturnMatchesItsCall(capacity, choices, m, e);
    var i: nat, op :| LatestCall(capacity, choices, i, m, e.thread, op) && Returns(e.thread, op, e);
    assert e.PushRefused? ==> op == TryEmplace(e.value);
    assert e.PopRefused? ==> op == TryPop;
  }

  /** A try_ call never waits for a slot. */
  lemma TriesNeverSpin<T>(capacity: nat, choices: seq<Choice<T>>, i: nat, m: nat, t: ThreadId, op: Operation<T>)
    requires capacity >= 1 && m <= |choices| && LatestCall(capacity, choices, i, m, t, op)
    requires op.TryEmplace? || op.TryPop?
    ensures !StateAt(capacity, choices, m).At(t).EmplaceSpin? && !StateAt(capacity, choices, m).At(t).PopSpin?
  {
    CallRunsItsOperation(capacity, choices, i, m, t, op);
  }

  // ---------------------------------------------------------------------------
  // When calls end
  // ---------------------------------------------------------------------------

  /** The slot that t waits for, or will wait for if no other thread steps before it, is at
      the turn of t's ticket. A try_ call waits for no slot. */
  predicate Proceeds<T>(s: State<T>, t: ThreadId)
    requires s.Shaped()
  {
    var cap := |s.slots|;
    match s.At(t)
    case EmplaceTicket(_) => s.SlotOf(s.head).turn == Turn(cap, s.head) * 2
    case EmplaceSpin(_, n) => s.SlotOf(n).turn == Turn(cap, n) * 2
    case PopTicket => s.SlotOf(s.tail).turn == Turn(cap, s.tail) * 2 + 1
    case PopSpin(n) => s.SlotOf(n).turn == Turn(cap, n) * 2 + 1
    case _ => true
  }

  /** An upper bound on the steps that t, running alone, takes to return. */
  function StepsLeft<T>(s: State<T>, t: ThreadId): (n: nat)
    ensures n <= 7
  {
    match s.At(t)
    case Idle => 0
    case EmplaceTicket(_) => 4
    case EmplaceSpin(_, _) => 3
    case TryEmplaceLoad(_) => 5
    case TryEmplaceCheck(_, h) => if h == s.head then 4 else 6
    case TryEmplaceCas(_, h) => if h == s.head then 3 else 5
    case TryEmplaceReload(_, h) => if h == s.head then 1 else 5
    case Construct(_, _) => 2
    case Publish(_, _) => 1
    case PopTicket => 5
    case PopSpin(_) => 4
    case TryPopLoad => 6
    case TryPopCheck(h) => if h == s.tail then 5 else 7
    case TryPopCas(h) => if h == s.tail then 4 else 6
    case TryPopReload(h) => if h == s.tail then 1 else 6
    case Take(_) => 3
    case Destroy(_, _) => 2
    case Release(_, _) => 1
  }

  ghost predicate ComesCloser<T>(s: State<T>, s': State<T>, t: ThreadId)
    requires s.Shaped() && s'.Shaped()
  {
    if Proceeds(s, t) then Proceeds(s', t) && StepsLeft(s', t) < StepsLeft(s, t)
    else !Proceeds(s', t)
  }

  lemma PushStepComesCloser<T>(s: State<T>, t: ThreadId)
    requires s.Shaped() && DrawingPush(s.At(t))
    ensures ComesCloser(s, PushStep(s, t), t)
  {
  }

  lemma PopStepComesCloser<T>(s: State<T>, t: ThreadId)
    requires s.Shaped() && DrawingPop(s.At(t)) && !s.At(t).Idle?
    ensures ComesCloser(s, PopStep(s, t), t)
  {
  }

  lemma SectionComesCloser<T>(s: State<T>, t: ThreadId)
    requires s.Shaped() && InSection(s.At(t))
    requires s.At(t).Take? ==> s.SlotOf(s.At(t).ticket).storage.Live?
    ensures ComesCloser(s, StepThread(s, t), t)
  {
  }

  /** The run goes on with n steps of t and of no other thread. */
  function Alone<T>(choices: seq<Choice<T>>, t: ThreadId, n: nat): (r: seq<Choice<T>>)
    ensures |r| == |choices| + n && choices <= r
    ensures forall k :: |choices| <= k < |r| ==> r[k] == Advance(t)
  {
    choices + seq(n, _ => Advance(t))
  }

  lemma OneStepCloser<T>(capacity: nat, choices: seq<Choice<T>>, t: ThreadId)
    requires capacity >= 1 && !Run(capacity, choices).At(t).Idle?
    ensures ComesCloser(Run(capacity, choices), Run(capacity, choices + [Advance(t)]), t)
  {
    var s := Run(capacity, choices);
    assert (choices + [Advance(t)])[..|choices|] == choices;
    if DrawingPush(s.At(t)) {
      PushStepComesCloser(s, t);
    } else if DrawingPop(s.At(t)) {
      PopStepComesCloser(s, t);
    } else {
      SectionsAreExclusive(capacity, choices, t, t + 1);
      SectionComesCloser(s, t);
    }
  }

  lemma {:induction false} AloneItReturns<T>(capacity: nat, choices: seq<Choice<T>>, t: ThreadId) returns (n: nat)
    requires capacity >= 1 && Proceeds(Run(capacity, choices), t)
    ensures n <= StepsLeft(Run(capacity, choices), t)
    ensures Run(capacity, Alone(choices, t, n)).At(t).Idle?
    decreases StepsLeft(Run(capacity, choices), t)
  {
    if Run(capacity, choices).At(t).Idle? {
      n := 0;
      assert Alone(choices, t, 0) == choices;
    } else {
      OneStepCloser(capacity, choices, t);
      var k := AloneItReturns(capacity, choices + [Advance(t)], t);
      n := k + 1;
      assert Alone(choices, t, n) == Alone(choices + [Advance(t)], t, k);
    }
  }

  lemma {:induction false} AloneItWaits<T>(capacity: nat, choices: seq<Choice<T>>, t: ThreadId, n: nat)
    requires capacity >= 1 && !Proceeds(Run(capacity, choices), t)
    ensures !Proceeds(Run(capacity, Alone(choices, t, n)), t)
  {
    if n == 0 {
      assert Alone(choices, t, 0) == choices;
    } else {
      AloneItWaits(capacity, choices, t, n - 1);
      OneStepCloser(capacity, Alone(choices, t, n - 1), t);
      assert Alone(choices, t, n) == Alone(choices, t, n - 1) + [Advance(t)];
    }
  }

  lemma LogGrowsOnce<T>(capacity: nat, choices: seq<Choice<T>>, j: nat)
    requires capacity >= 1 && j < |choices|
    ensures StateAt(capacity, choices, j).log <= StateAt(capacity, choices, j + 1).log
  {
    NextState(capacity, choices, j);
    if choices[j].Advance? {
      StepLogsAtMostOne(StateAt(capacity, choices, j), choices[j].thread);
    }
  }

  lemma {:induction false} LogGrows<T>(capacity: nat, choices: seq<Choice<T>>, j: nat, m: nat)
    requires capacity >= 1 && j <= m <= |choices|
    ensures StateAt(capacity, choices, j).log <= StateAt(capacity, choices, m).log
  {
    if j < m {
      LogGrows(capacity, choices, j, m - 1);
      LogGrowsOnce(capacity, choices, m - 1);
    }
  }

  lemma StillTheLatestCall<T>(
    capacity: nat, choices: seq<Choice<T>>, i: nat, t: ThreadId, op: Operation<T>, n: nat)
    requires capacity >= 1 && LatestCall(capacity, choices, i, |choices|, t, op)
    ensures LatestCall(capacity, Alone(choices, t, n), i, |choices| + n, t, op)
  {
    var run := Alone(choices, t, n);
    forall k: nat | k < |choices| ensures run[k] == choices[k] && run[..k] == choices[..k] {
    }
  }

  /** After n more steps of t alone t has returned, once since then, a result of op. */
  ghost predicate ReturnsAfter<T>(capacity: nat, choices: seq<Choice<T>>, t: ThreadId, op: Operation<T>, n: nat)
    requires capacity >= 1
  {
    var s, s' := Run(capacity, choices), Run(capacity, Alone(choices, t, n));
    && s'.At(t).Idle?
    && s.log <= s'.log
    && exists k: nat :: OnlyEvent(s'.log, |s.log|, k, t) && Returns(t, op, s'.log[k])
  }

  lemma EventsSinceThen<T>(s: State<T>, s': State<T>, from: nat, t: ThreadId, op: Operation<T>)
    requires from <= |s.log| && s.log <= s'.log
    requires !s.At(t).Idle? && s'.At(t).Idle? && Follows(s, from, t, op) && Follows(s', from, t, op)
    ensures exists k: nat :: OnlyEvent(s'.log, |s.log|, k, t) && Returns(t, op, s'.log[k])
  {
    var k: nat :| OnlyEvent(s'.log, from, k, t) && Returns(t, op, s'.log[k]);
    if k < |s.log| {
      assert false;
    }
    assert OnlyEvent(s'.log, |s.log|, k, t);
  }

  /** A call in progress, however far it has come and whatever the other threads have done,
      returns within seven steps of its own if it then runs alone and its slot is at the turn
      of its ticket. Alone it never returns if its slot is not. */
  lemma CallsReturn<T>(capacity: nat, choices: seq<Choice<T>>, i: nat, t: ThreadId, op: Operation<T>)
    requires capacity >= 1 && LatestCall(capacity, choices, i, |choices|, t, op)
    requires !Run(capacity, choices).At(t).Idle?
    ensures Proceeds(Run(capacity, choices), t) ==> exists n: nat :: n <= 7 && ReturnsAfter(capacity, choices, t, op, n)
    ensures !Proceeds(Run(capacity, choices), t) ==> forall n: nat :: !ReturnsAfter(capacity, choices, t, op, n)
  {
    if Proceeds(Run(capacity, choices), t) {
      var n := AloneItReturns(capacity, choices, t);
      ReturnedAlone(capacity, choices, i, t, op, n);
    } else {
      forall n: nat ensures !ReturnsAfter(capacity, choices, t, op, n) {
        AloneItWaits(capacity, choices, t, n);
      }
    }
  }

  lemma ReturnedAlone<T>(capacity: nat, choices: seq<Choice<T>>, i: nat, t: ThreadId, op: Operation<T>, n: nat)
    requires capacity >= 1 && LatestCall(capacity, choices, i, |choices|, t, op)
    requires !Run(capacity, choices).At(t).Idle? && Run(capacity, Alone(choices, t, n)).At(t).Idle?
    ensures ReturnsAfter(capacity, choices, t, op, n)
  {
    assert choices[..|choices|] == choices;
    CallRunsItsOperation(capacity, choices, i, |choices|, t, op);
    var run := Alone(choices, t, n);
    assert run[..|run|] == run && run[..|choices|] == choices && run[..i] == choices[..i];
    StillTheLatestCall(capacity, choices, i, t, op, n);
    CallRunsItsOperation(capacity, run, i, |run|, t, op);
    LogGrows(capacity, run, |choices|, |run|);
    EventsSinceThen(Run(capacity, choices), Run(capacity, run), |StateAt(capacity, choices, i).log|, t, op);
  }

  lemma TriesProceed<T>(s: State<T>, t: ThreadId, op: Operation<T>)
    requires s.Shaped() && InCodeOf(op, s.At(t)) && (op.TryEmplace? || op.TryPop?)
    ensures Proceeds(s, t)
  {
  }

  /** A try_ call in progress always returns within seven steps of its own if it runs alone. */
  lemma TriesReturn<T>(capacity: nat, choices: seq<Choice<T>>, i: nat, t: ThreadId, op: Operation<T>)
    requires capacity >= 1 && LatestCall(capacity, choices, i, |choices|, t, op)
    requires (op.TryEmplace? || op.TryPop?) && !Run(capacity, choices).At(t).Idle?
    ensures exists n: nat :: n <= 7 && ReturnsAfter(capacity, choices, t, op, n)
  {
    assert choices[..|choices|] == choices;
    CallRunsItsOperation(capacity, choices, i, |choices|, t, op);
    TriesProceed(Run(capacity, choices), t, op);
    CallsReturn(capacity, choices, i, t, op);
  }

  /** The threads whose step changes nothing are those without a call and those whose spin
      finds another turn than their ticket's. */
  lemma StuckIffBlocked<T>(capacity: nat, choices: seq<Choice<T>>, t: ThreadId)
    requires capacity >= 1
    ensures var s := Run(capacity, choices); Step(s, Advance(t)) == s <==> s.At(t).Idle? || Blocked(s, t)
  {
    var s := Run(capacity, choices);
    if DrawingPush(s.At(t)) {
      PushStuckIffBlocked(s, t);
    } else if DrawingPop(s.At(t)) {
      PopStuckIffBlocked(s, t);
    } else {
      SectionsAreExclusive(capacity, choices, t, t + 1);
      SectionComesCloser(s, t);
    }
  }

  lemma PushStuckIffBlocked<T>(s: State<T>, t: ThreadId)
    requires s.Shaped() && DrawingPush(s.At(t))
    ensures PushStep(s, t) == s <==> Blocked(s, t)
  {
    assert PushStep(s, t).At(t) != s.At(t) || PushStep(s, t) == s;
  }

  lemma PopStuckIffBlocked<T>(s: State<T>, t: ThreadId)
    requires s.Shaped() && DrawingPop(s.At(t))
    ensures PopStep(s, t) == s <==> s.At(t).Idle? || Blocked(s, t)
  {
    assert PopStep(s, t).At(t) != s.At(t) || PopStep(s, t) == s;
  }
}
