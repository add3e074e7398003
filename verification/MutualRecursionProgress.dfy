/**
 Progress of the mutual recursion helper: what a thread can wait for, why forks by a single
 thread never deadlock, and how two forking threads can.
 */
module MutualRecursionProgress {
  import opened Common
  import opened MutualRecursion

  /** A step of code already running, as opposed to a new call. */
  predicate GoesOn(s: State, a: Choice) {
    !a.CallFork? && !a.CallHandle? && Enabled(s, a)
  }

  ghost predicate CanGoOn(s: State, t: ThreadId) {
    exists a: Choice :: a.thread == t && GoesOn(s, a)
  }

  /** What thread t, in the middle of a call or a fork, may have to wait for. */
  predicate Waits(s: State, t: ThreadId)
    requires s.Frames(t) != []
  {
    match s.Frames(t)[|s.Frames(t)| - 1]
    case Fork(c) => c in s.contexts && var x := s.contexts[c];
      || (x.phase == Running && x.queue == [] && x.guard != Reset)   // for its fn, or for a call
      || (x.phase == Awaiting && x.stage != Ended)                   // for its sender to end
    case Sending(c) => c in s.contexts && s.contexts[c].stage == FnDone && s.mutex.Some?
    case Waiting(k) => k in s.calls && s.calls[k].status != Finished
    case InTask(_) => false
    case Direct(_) => false
  }

  // ---------------------------------------------------------------------------
  // A thread goes on unless it waits
  // ---------------------------------------------------------------------------

  lemma ForkGoesOn(s: State, t: ThreadId, c: ContextId)
    requires s.OnTop(t, Fork(c)) && c in s.contexts && ContextInv(s, c) && FrameInv(s, t, |s.Frames(t)| - 1)
    requires forall u :: u !in s.threads ==> s.Frames(u) == []
    ensures !Waits(s, t) ==> CanGoOn(s, t)
  {
    match s.contexts[c].phase
    case Pushed => assert GoesOn(s, MakeGuard(t, c));
    case Guarded =>
      var u := BoundOf(s.threads.Keys);
      assert GoesOn(s, Spawn(t, c, u));
    case Running =>
      if s.contexts[c].queue != [] {
        assert s.contexts[c].queue[0] in s.contexts[c].queue;
        assert GoesOn(s, RunTask(t, c));
      } else if s.contexts[c].guard == Reset {
        assert GoesOn(s, RunReturns(t, c));
      }
    case Awaiting =>
      if s.contexts[c].stage == Ended {
        assert GoesOn(s, ForkReturns(t, c));
      }
  }

  lemma SenderGoesOn(s: State, t: ThreadId, c: ContextId)
    requires s.OnTop(t, Sending(c)) && c in s.contexts && s.contexts[c].stage !in {NotSpawned, Ended}
    ensures !Waits(s, t) ==> CanGoOn(s, t)
  {
    if s.contexts[c].stage == InFn {
      assert GoesOn(s, FnReturns(t, c, 0));
    } else if !Waits(s, t) {
      assert GoesOn(s, SenderStep(t, c));
    }
  }

  lemma ThreadGoesOn(s: State, t: ThreadId)
    requires Inv(s) && s.Frames(t) != [] && !Waits(s, t)
    ensures CanGoOn(s, t)
  {
    assert FrameInv(s, t, |s.Frames(t)| - 1);
    match s.Frames(t)[|s.Frames(t)| - 1]
    case Fork(c) =>
      assert ContextInv(s, c);
      ForkGoesOn(s, t, c);
    case Sending(c) => SenderGoesOn(s, t, c);
    case _ => CallGoesOn(s, t);
  }

  lemma CallGoesOn(s: State, t: ThreadId)
    requires s.Frames(t) != [] && !Waits(s, t) && FrameInv(s, t, |s.Frames(t)| - 1)
    requires var top := s.Frames(t)[|s.Frames(t)| - 1]; top.Waiting? || top.InTask? || top.Direct?
    ensures CanGoOn(s, t)
  {
    match s.Frames(t)[|s.Frames(t)| - 1]
    case Waiting(k) => assert GoesOn(s, HandleReturns(t, k));
    case InTask(k) => assert GoesOn(s, EndTask(t, k));
    case Direct(k) => assert GoesOn(s, EndDirect(t, k));
  }

  lemma WaitingIsReal(s: State, t: ThreadId, a: Choice)
    requires s.Frames(t) != [] && Waits(s, t) && a.thread == t && !a.CallFork? && !a.CallHandle?
    ensures !Enabled(s, a)
  {
  }

  /** In every reachable state a thread with anything on its stack goes on by itself, whatever
      the others do, unless it waits; and then it cannot. */
  lemma GoesOnUnlessItWaits(choices: seq<Choice>, t: ThreadId)
    requires Run(choices).Frames(t) != []
    ensures CanGoOn(Run(choices), t) <==> !Waits(Run(choices), t)
  {
    ReachableInv(choices);
    if Waits(Run(choices), t) {
      forall a: Choice | a.thread == t && !a.CallFork? && !a.CallHandle? ensures !Enabled(Run(choices), a) {
        WaitingIsReal(Run(choices), t, a);
      }
    } else {
      ThreadGoesOn(Run(choices), t);
    }
  }

  // ---------------------------------------------------------------------------
  // Forks by one thread
  // ---------------------------------------------------------------------------

  /** The sender of a fork is a thread of its own, with the sending at the bottom of its stack. */
  ghost predicate SenderThere(s: State, c: ContextId)
    requires c in s.contexts
  {
    var x := s.contexts[c];
    x.stage !in {NotSpawned, Ended} ==>
      x.sender != x.owner && s.Frames(x.sender) != [] && s.Frames(x.sender)[0] == Sending(c)
  }

  /** A thread never waits for a fork that it is inside of; and the sender of a fork never waits
      for an outer fork of the same thread. */
  ghost predicate WaitsInward(s: State, t: ThreadId) {
    s.Frames(t) != [] && s.Frames(t)[|s.Frames(t)| - 1].Waiting? ==>
      var k := s.Frames(t)[|s.Frames(t)| - 1].call;
      && k in s.calls && s.calls[k].target.Some? && s.calls[k].target.value in s.contexts
      && var d := s.calls[k].target.value;
         && !s.Inside(t, d)
         && (s.Frames(t)[0].Sending? ==> InnerOf(s, s.Frames(t)[0].ctx, d))
  }

  ghost predicate InnerOf(s: State, c: ContextId, d: ContextId)
    requires d in s.contexts
  {
    c in s.contexts && (s.contexts[c].owner == s.contexts[d].owner ==> s.contexts[c].depth <= s.contexts[d].depth)
  }

  ghost predicate AllWaitInward(s: State) {
    && (forall c :: c in s.contexts ==> SenderThere(s, c))
    && (forall t: ThreadId :: WaitsInward(s, t))
  }

  /** The threads whose stack a step changes. */
  lemma OthersKeepFrames(s: State, a: Choice, u: ThreadId)
    requires u != a.thread && (a.Spawn? ==> u != a.sender)
    ensures Step(s, a).Frames(u) == s.Frames(u)
  {
  }

  ghost predicate PushOrPop(f: seq<Frame>, f': seq<Frame>) {
    f' == f || (f != [] && f' == f[..|f| - 1]) || (|f'| == |f| + 1 && f'[..|f|] == f)
  }

  /** What a thread's own step leaves at the bottom and puts on top of its stack. */
  lemma OwnFrames(s: State, a: Choice)
    requires Enabled(s, a) && !a.SenderStep?
    ensures var f, f' := s.Frames(a.thread), Step(s, a).Frames(a.thread);
      && PushOrPop(f, f')
      && (|f'| > |f| && f'[|f|].Waiting? ==>
            a.CallHandle? && s.stack != [] && f'[|f|] == Waiting(a.call))
      && (|f'| < |f| ==> !f[|f| - 1].Sending?)
  {
  }

  lemma SenderFrames(s: State, u: ThreadId, c: ContextId)
    requires Enabled(s, SenderStep(u, c))
    ensures var s' := Step(s, SenderStep(u, c));
      s'.Frames(u) == s.Frames(u)
      || (s.OnTop(u, Sending(c)) && s'.Frames(u) == s.Frames(u)[..|s.Frames(u)| - 1] && s'.contexts[c].stage == Ended)
  {
  }

  ghost predicate StillSending(x: Context, x': Context) {
    && x'.sender == x.sender && x'.owner == x.owner
    && (x'.stage !in {NotSpawned, Ended} ==> x.stage !in {NotSpawned, Ended})
  }

  lemma ContextKept(s: State, a: Choice, c: ContextId)
    requires c in s.contexts && Enabled(s, a) && !(a.Spawn? && a.ctx == c)
    ensures c in Step(s, a).contexts && StillSending(s.contexts[c], Step(s, a).contexts[c])
  {
    if a.SenderStep? { SenderKeepsContext(s, a.thread, a.ctx, c); }
  }

  lemma SenderKeepsContext(s: State, u: ThreadId, d: ContextId, c: ContextId)
    requires c in s.contexts && Enabled(s, SenderStep(u, d))
    ensures c in SenderDone(s, u, d).contexts && StillSending(s.contexts[c], SenderDone(s, u, d).contexts[c])
  {
    match s.contexts[d].stage
    case FnDone => assert SenderDone(s, u, d) == LockDone(s, u, d);
    case HasLock => assert SenderDone(s, u, d) == ResetGuardDone(s, u, d);
    case GuardReset => assert SenderDone(s, u, d) == EraseContextDone(s, u, d);
    case Erased => assert SenderDone(s, u, d) == SetPromiseDone(s, u, d);
    case Promised => assert SenderDone(s, u, d) == EndSenderDone(s, u, d);
  }

  lemma ContextMade(s: State, a: Choice, c: ContextId)
    requires c !in s.contexts && c in Step(s, a).contexts
    ensures Step(s, a).contexts[c].stage == NotSpawned
  {
  }

  lemma CallKept(s: State, a: Choice, k: CallId)
    requires k in s.calls
    ensures k in Step(s, a).calls && Step(s, a).calls[k].target == s.calls[k].target
  {
  }

  lemma BottomKept(s: State, a: Choice, c: ContextId, u: ThreadId)
    requires Inv(s) && Enabled(s, a) && s.Frames(u) != [] && s.Frames(u)[0] == Sending(c)
    ensures var s' := Step(s, a);
      (s'.Frames(u) != [] && s'.Frames(u)[0] == Sending(c)) || (c in s'.contexts && s'.contexts[c].stage == Ended)
  {
    if u == a.thread {
      assert FrameInv(s, u, |s.Frames(u)| - 1);
      if a.SenderStep? { SenderFrames(s, u, a.ctx); } else { OwnFrames(s, a); }
    } else {
      OthersKeepFrames(s, a, u);
    }
  }

  lemma StepKeepsSender(s: State, a: Choice, c: ContextId)
    requires Inv(s) && Enabled(s, a) && c in Step(s, a).contexts && (c in s.contexts ==> SenderThere(s, c))
    ensures SenderThere(Step(s, a), c)
  {
    if c !in s.contexts {
      ContextMade(s, a, c);
    } else if a.Spawn? && a.ctx == c {
      assert FrameInv(s, a.thread, |s.Frames(a.thread)| - 1);
    } else {
      ContextKept(s, a, c);
      var x := s.contexts[c];
      if x.stage !in {NotSpawned, Ended} {
        BottomKept(s, a, c, x.sender);
      }
    }
  }

  lemma SameFramesWaitInward(s: State, s': State, t: ThreadId)
    requires WaitsInward(s, t) && s'.Frames(t) == s.Frames(t) && SameForks(s, s')
    requires forall k :: k in s.calls ==> k in s'.calls && s'.calls[k].target == s.calls[k].target
    ensures WaitsInward(s', t)
  {
  }

  lemma CallerWaitsInward(s: State, t: ThreadId, k: CallId, must: bool, d: ContextId)
    requires Inv(s) && Nested(s.contexts, s.stack) && MayCallTop(s, t, k, must, d) && d == s.stack[|s.stack| - 1]
    ensures WaitsInward(CallTopDone(s, t, k, must, d), t)
  {
    if s.Frames(t) != [] && s.Frames(t)[0].Sending? {
      assert FrameInv(s, t, 0);
      assert ContextInv(s, s.Frames(t)[0].ctx);
      SenderIsInner(s, s.Frames(t)[0].ctx, d);
    }
    NowWaiting(s, t, k, must, d);
  }

  lemma NowWaiting(s: State, t: ThreadId, k: CallId, must: bool, d: ContextId)
    requires MayCallTop(s, t, k, must, d)
    requires s.Frames(t) != [] && s.Frames(t)[0].Sending? ==> InnerOf(s, s.Frames(t)[0].ctx, d)
    ensures WaitsInward(CallTopDone(s, t, k, must, d), t)
  {
  }

  lemma SenderIsInner(s: State, c: ContextId, d: ContextId)
    requires Nested(s.contexts, s.stack) && s.stack != [] && d == s.stack[|s.stack| - 1] && d in s.contexts
    requires c in s.contexts && ContextInv(s, c) && s.contexts[c].stage == InFn
    ensures InnerOf(s, c, d)
  {
    var i :| 0 <= i < |s.stack| && s.stack[i] == c;
  }

  lemma StepKeepsWaitsInward(s: State, a: Choice, t: ThreadId)
    requires Inv(s) && Nested(s.contexts, s.stack) && Enabled(s, a) && WaitsInward(s, t)
    ensures WaitsInward(Step(s, a), t)
  {
    if Step(s, a).Frames(t) == s.Frames(t) {
      StepKeepsInv(s, a);
      forall k | k in s.calls
        ensures k in Step(s, a).calls && Step(s, a).calls[k].target == s.calls[k].target
      {
        CallKept(s, a, k);
      }
      SameFramesWaitInward(s, Step(s, a), t);
    } else if t == a.thread {
      OwnStepKeepsWaitsInward(s, a);
    } else if a.Spawn? && t == a.sender {
      SpawnedIsSending(s, a.thread, a.ctx, t);
    } else {
      OthersKeepFrames(s, a, t);
    }
  }

  lemma SpawnedIsSending(s: State, t: ThreadId, c: ContextId, u: ThreadId)
    requires MaySpawn(s, t, c, u)
    ensures Step(s, Spawn(t, c, u)).Frames(u) == [Sending(c)]
  {
  }

  lemma OwnStepKeepsWaitsInward(s: State, a: Choice)
    requires Inv(s) && Nested(s.contexts, s.stack) && Enabled(s, a)
    requires Step(s, a).Frames(a.thread) != s.Frames(a.thread)
    ensures WaitsInward(Step(s, a), a.thread)
  {
    var f := s.Frames(a.thread);
    if a.SenderStep? {
      SenderFrames(s, a.thread, a.ctx);
      assert FrameInv(s, a.thread, |f| - 1);
    } else if a.CallHandle? && s.stack != [] {
      CallerWaitsInward(s, a.thread, a.call, a.must, s.stack[|s.stack| - 1]);
    } else {
      TopStaysActive(s, a);
    }
  }

  /** No other step puts a waiting frame on top, or uncovers one. */
  lemma TopStaysActive(s: State, a: Choice)
    requires Inv(s) && Enabled(s, a) && !a.SenderStep? && !(a.CallHandle? && s.stack != [])
    requires Step(s, a).Frames(a.thread) != s.Frames(a.thread)
    ensures var f' := Step(s, a).Frames(a.thread); f' != [] ==> !f'[|f'| - 1].Waiting?
  {
    OwnFrames(s, a);
    BelowTopIsActive(s, a.thread);
    TopOf(s.Frames(a.thread), Step(s, a).Frames(a.thread));
  }

  lemma BelowTopIsActive(s: State, t: ThreadId)
    requires Inv(s)
    ensures var f := s.Frames(t); |f| >= 2 ==> !f[|f| - 2].Waiting?
  {
    if |s.Frames(t)| >= 2 {
      assert FrameInv(s, t, |s.Frames(t)| - 2);
    }
  }

  lemma TopOf(f: seq<Frame>, f': seq<Frame>)
    requires f' != f && PushOrPop(f, f')
    requires |f'| > |f| ==> !f'[|f|].Waiting?
    requires |f| >= 2 ==> !f[|f| - 2].Waiting?
    ensures f' != [] ==> !f'[|f'| - 1].Waiting?
  {
  }

  lemma {:induction false} ReachableWaitInward(choices: seq<Choice>)
    ensures AllWaitInward(Run(choices))
  {
    if choices != [] {
      var before, a := choices[..|choices| - 1], choices[|choices| - 1];
      ReachableWaitInward(before);
      ReachableInv(before);
      ReachableNested(before);
      var s := Run(before);
      if Enabled(s, a) {
        forall c | c in Step(s, a).contexts ensures SenderThere(Step(s, a), c) { StepKeepsSender(s, a, c); }
        forall t: ThreadId ensures WaitsInward(Step(s, a), t) { StepKeepsWaitsInward(s, a, t); }
      }
    }
  }

  /** Every fork so far was made by thread t. */
  ghost predicate OneForker(s: State, t: ThreadId) {
    forall c :: c in s.contexts ==> s.contexts[c].owner == t
  }

  ghost predicate SomebodyGoesOn(s: State) {
    exists a: Choice :: GoesOn(s, a)
  }

  /** A sender in its critical section goes on. */
  lemma HolderGoesOn(s: State, c: ContextId)
    requires Inv(s) && AllWaitInward(s) && c in s.contexts && InSection(s.contexts[c].stage)
    ensures SomebodyGoesOn(s)
  {
    var u := s.contexts[c].sender;
    assert SenderThere(s, c);
    assert FrameInv(s, u, 0);
    assert GoesOn(s, SenderStep(u, c));
  }

  /** Thread t, the only one that forks, waits in its innermost fork, and the sender of that
      fork waits for a call: the call is dispatched to no outer fork. */
  lemma InnermostGetsTheCall(s: State, t: ThreadId, c: ContextId, k: CallId)
    requires Inv(s) && OneForker(s, t) && s.OnTop(t, Fork(c)) && c in s.contexts && s.contexts[c].queue == []
    requires k in s.calls && s.calls[k].target.Some? && s.calls[k].target.value in s.contexts
    requires InnerOf(s, c, s.calls[k].target.value)
    ensures s.calls[k].status == Finished
  {
    assert FrameInv(s, t, |s.Frames(t)| - 1);
    if s.calls[k].status != Finished {
      UnfinishedHasForkAhead(s, k);
    }
  }

  lemma InnermostForkGoesOn(s: State, t: ThreadId, c: ContextId)
    requires Inv(s) && AllWaitInward(s) && OneForker(s, t) && s.OnTop(t, Fork(c)) && Waits(s, t)
    ensures SomebodyGoesOn(s)
  {
    assert FrameInv(s, t, |s.Frames(t)| - 1);
    assert ContextInv(s, c) && SenderThere(s, c);
    if InSection(s.contexts[c].stage) {
      HolderGoesOn(s, c);
    } else {
      SenderOfInnermostGoesOn(s, t, c);
    }
  }

  lemma SenderOfInnermostGoesOn(s: State, t: ThreadId, c: ContextId)
    requires Inv(s) && AllWaitInward(s) && OneForker(s, t) && s.OnTop(t, Fork(c)) && Waits(s, t)
    requires c in s.contexts && s.contexts[c].stage in {InFn, FnDone}
    ensures SomebodyGoesOn(s)
  {
    assert ContextInv(s, c) && SenderThere(s, c);
    var u := s.contexts[c].sender;
    var top := s.Frames(u)[|s.Frames(u)| - 1];
    assert FrameInv(s, u, 0) && FrameInv(s, u, |s.Frames(u)| - 1) && WaitsInward(s, u);
    if !Waits(s, u) {
      ThreadGoesOn(s, u);
    } else if top.Sending? {
      HolderGoesOn(s, s.mutex.value);
    } else if top.Waiting? {
      InnermostGetsTheCall(s, t, c, top.call);
    }
  }

  /** The forking thread itself never waits for a call. */
  lemma ForkerNeverWaitsForACall(s: State, t: ThreadId, k: CallId)
    requires Inv(s) && WaitsInward(s, t) && OneForker(s, t) && s.OnTop(t, Waiting(k))
    ensures !Waits(s, t)
  {
    if Waits(s, t) {
      UnfinishedHasForkAhead(s, k);
    }
  }

  lemma ForkerOrItsForkGoesOn(s: State, t: ThreadId)
    requires Inv(s) && AllWaitInward(s) && OneForker(s, t) && s.Frames(t) != []
    ensures SomebodyGoesOn(s)
  {
    if !Waits(s, t) {
      ThreadGoesOn(s, t);
    } else {
      match s.Frames(t)[|s.Frames(t)| - 1]
      case Fork(c) => InnermostForkGoesOn(s, t, c);
      case Sending(c) => HolderAfterWait(s, t, c);
      case Waiting(k) =>
        assert WaitsInward(s, t);
        ForkerNeverWaitsForACall(s, t, k);
    }
  }

  lemma HolderAfterWait(s: State, u: ThreadId, c: ContextId)
    requires Inv(s) && AllWaitInward(s) && s.OnTop(u, Sending(c)) && Waits(s, u)
    ensures SomebodyGoesOn(s)
  {
    assert ContextInv(s, s.mutex.value);
    HolderGoesOn(s, s.mutex.value);
  }

  /** As long as all forks are made by one thread, nested as deep as may be, there is no
      deadlock: if any thread has anything on its stack, some thread goes on without a new call. */
  lemma OneForkerNeverDeadlocks(choices: seq<Choice>, t: ThreadId, u: ThreadId)
    requires OneForker(Run(choices), t) && Run(choices).Frames(u) != []
    ensures SomebodyGoesOn(Run(choices))
  {
    var s := Run(choices);
    ReachableInv(choices);
    ReachableWaitInward(choices);
    if !Waits(s, u) {
      ThreadGoesOn(s, u);
    } else {
      assert FrameInv(s, u, |s.Frames(u)| - 1) && WaitsInward(s, u);
      match s.Frames(u)[|s.Frames(u)| - 1]
      case Fork(c) => InnermostForkGoesOn(s, u, c);
      case Sending(c) => HolderAfterWait(s, u, c);
      case Waiting(k) =>
        UnfinishedHasForkAhead(s, k);
        ForkerOrItsForkGoesOn(s, t);
    }
  }

  // ---------------------------------------------------------------------------
  // Forks by two threads
  // ---------------------------------------------------------------------------

  /** Thread 0 has forked context 0 and runs it. The calls made so far are 0..n-1. */
  ghost predicate FirstFork(s: State, f0: seq<Frame>, q0: seq<CallId>, n: nat) {
    && 0 in s.contexts && s.contexts[0].owner == 0 && s.contexts[0].phase == Running
    && s.contexts[0].queue == q0 && s.Frames(0) == f0
    && (forall k: CallId :: k in s.calls <==> k < n)
  }

  ghost predicate OnlyFirst(s: State, f0: seq<Frame>, q0: seq<CallId>, n: nat) {
    && FirstFork(s, f0, q0, n) && 1 !in s.contexts && s.stack == [0] && s.mutex == None
    && 2 !in s.threads && 3 !in s.threads && 11 !in s.threads
  }

  /** Thread 2 is about to run its fork of context 1. */
  ghost predicate SecondForking(s: State, phase: Phase) {
    && FirstFork(s, [Fork(0), InTask(0)], [], 1) && s.stack == [0, 1] && s.mutex == None
    && 1 in s.contexts && s.contexts[1].owner == 2 && s.contexts[1].phase == phase
    && s.contexts[1].stage == NotSpawned && s.contexts[1].queue == []
    && s.Frames(2) == [Fork(1)] && 3 !in s.threads && 11 !in s.threads
  }

  /** Thread 2 runs context 1, whose sender is at the given stage. */
  ghost predicate BothForked(
    s: State, f0: seq<Frame>, f2: seq<Frame>, q0: seq<CallId>, q1: seq<CallId>, stage: Stage, n: nat)
  {
    && FirstFork(s, f0, q0, n) && s.stack == (if stage in {Erased, Promised, Ended} then [0] else [0, 1])
    && s.mutex == (if InSection(stage) then Some(1) else None)
    && 1 in s.contexts && s.contexts[1].owner == 2 && s.contexts[1].phase == Running
    && s.contexts[1].stage == stage && s.contexts[1].queue == q1
    && s.Frames(2) == f2 && (stage != Ended ==> s.Frames(11) == [Sending(1)])
    && (n <= 1 ==> 3 !in s.threads)
  }

  /** Thread t waits for call k, which is queued in context c of thread owner. */
  ghost predicate WaitsOn(s: State, t: ThreadId, k: CallId, c: ContextId, owner: ThreadId) {
    && s.OnTop(t, Waiting(k))
    && k in s.calls && s.calls[k].target == Some(c) && s.calls[k].status == Queued
    && c in s.contexts && s.contexts[c].owner == owner
  }

  /** Both forking threads wait for a call that the other one would have to run. */
  ghost predicate Locked(s: State) {
    WaitsOn(s, 0, 2, 1, 2) && WaitsOn(s, 2, 3, 0, 0)
  }

  lemma FirstCall(s: State)
    requires OuterForked(s)
    ensures OnlyFirst(Step(s, CallHandle(1, 0, true)), [Fork(0)], [0], 1)
  {
    FirstCallDone(s);
  }

  lemma FirstCallDone(s: State)
    requires OuterForked(s)
    ensures MayCallTop(s, 1, 0, true, 0) && OnlyFirst(CallTopDone(s, 1, 0, true, 0), [Fork(0)], [0], 1)
  {
  }

  lemma FirstTask(s: State)
    requires OnlyFirst(s, [Fork(0)], [0], 1)
    ensures OnlyFirst(Step(s, RunTask(0, 0)), [Fork(0), InTask(0)], [], 1)
  {
  }

  lemma SecondFork(s: State)
    requires OnlyFirst(s, [Fork(0), InTask(0)], [], 1)
    ensures SecondForking(Step(s, CallFork(2, 1)), Pushed)
  {
  }

  lemma SecondGuard(s: State)
    requires SecondForking(s, Pushed)
    ensures SecondForking(Step(s, MakeGuard(2, 1)), Guarded)
  {
  }

  lemma SecondSpawn(s: State)
    requires SecondForking(s, Guarded)
    ensures BothForked(Step(s, Spawn(2, 1, 11)), [Fork(0), InTask(0)], [Fork(1)], [], [], InFn, 1)
  {
  }

  lemma SecondCall(s: State)
    requires BothForked(s, [Fork(0), InTask(0)], [Fork(1)], [], [], InFn, 1)
    ensures BothForked(Step(s, CallHandle(3, 1, true)), [Fork(0), InTask(0)], [Fork(1)], [], [1], InFn, 2)
  {
  }

  lemma SecondTask(s: State)
    requires BothForked(s, [Fork(0), InTask(0)], [Fork(1)], [], [1], InFn, 2)
    ensures BothForked(Step(s, RunTask(2, 1)), [Fork(0), InTask(0)], [Fork(1), InTask(1)], [], [], InFn, 2)
  {
  }

  lemma FirstWaits(s: State)
    requires BothForked(s, [Fork(0), InTask(0)], [Fork(1), InTask(1)], [], [], InFn, 2)
    ensures BothForked(Step(s, CallHandle(0, 2, true)),
                       [Fork(0), InTask(0), Waiting(2)], [Fork(1), InTask(1)], [], [2], InFn, 3)
  {
  }

  const F0: seq<Frame> := [Fork(0), InTask(0), Waiting(2)]
  const F2: seq<Frame> := [Fork(1), InTask(1)]

  lemma FnOfSecondReturns(s: State)
    requires BothForked(s, F0, F2, [], [2], InFn, 3)
    ensures BothForked(Step(s, FnReturns(11, 1, 0)), F0, F2, [], [2], FnDone, 3)
  {
  }

  lemma SecondLocks(s: State)
    requires BothForked(s, F0, F2, [], [2], FnDone, 3)
    ensures BothForked(Step(s, SenderStep(11, 1)), F0, F2, [], [2], HasLock, 3)
  {
  }

  lemma SecondResets(s: State)
    requires BothForked(s, F0, F2, [], [2], HasLock, 3)
    ensures BothForked(Step(s, SenderStep(11, 1)), F0, F2, [], [2], GuardReset, 3)
  {
  }

  lemma SecondErases(s: State)
    requires BothForked(s, F0, F2, [], [2], GuardReset, 3)
    ensures BothForked(Step(s, SenderStep(11, 1)), F0, F2, [], [2], Erased, 3)
  {
    assert Erase([0, 1], 1) == [0];
  }

  lemma SecondPromises(s: State)
    requires BothForked(s, F0, F2, [], [2], Erased, 3)
    ensures BothForked(Step(s, SenderStep(11, 1)), F0, F2, [], [2], Promised, 3)
  {
  }

  lemma SecondSenderEnds(s: State)
    requires BothForked(s, F0, F2, [], [2], Promised, 3)
    ensures BothForked(Step(s, SenderStep(11, 1)), F0, F2, [], [2], Ended, 3)
  {
  }

  lemma SecondWaits(s: State)
    requires BothForked(s, F0, F2, [], [2], Ended, 3)
    ensures BothForked(Step(s, CallHandle(2, 3, true)), F0, F2 + [Waiting(3)], [3], [2], Ended, 4)
  {
  }

  lemma NowLocked(s: State)
    requires Inv(s) && BothForked(s, F0, F2 + [Waiting(3)], [3], [2], Ended, 4)
    ensures Locked(s)
  {
    assert ContextInv(s, 0) && ContextInv(s, 1);
    assert 3 in s.contexts[0].queue && 2 in s.contexts[1].queue;
  }

  /** The thread on top of whose stack a call waits keeps it there until the call finishes. */
  lemma WaiterStays(s: State, a: Choice, t: ThreadId, k: CallId)
    requires Enabled(s, a) && s.OnTop(t, Waiting(k)) && k in s.calls && s.calls[k].status != Finished
    ensures Step(s, a).OnTop(t, Waiting(k))
  {
    if a.thread != t && !(a.Spawn? && a.sender == t) {
      OthersKeepFrames(s, a, t);
    }
  }

  lemma StaysQueued(s: State, a: Choice, k: CallId)
    requires Enabled(s, a) && k in s.calls && s.calls[k].status == Queued
    requires a.RunTask? ==> s.contexts[a.ctx].queue[0] != k
    requires forall t :: s.Frames(t) != [] ==> !s.OnTop(t, InTask(k)) && !s.OnTop(t, Direct(k))
    requires !s.OnTop(a.thread, Waiting(k)) || !a.HandleReturns?
    ensures k in Step(s, a).calls && Step(s, a).calls[k].status == Queued
  {
  }

  /** A queued call is begun only by the owner of its context, in that context's run(). */
  lemma NotBegun(s: State, a: Choice, k: CallId, c: ContextId)
    requires Inv(s) && Enabled(s, a)
    requires k in s.calls && s.calls[k].target == Some(c) && s.calls[k].status == Queued
    requires c in s.contexts && !s.OnTop(s.contexts[c].owner, Fork(c))
    ensures k in Step(s, a).calls && Step(s, a).calls[k].status == Queued
  {
    if a.RunTask? {
      assert FrameInv(s, a.thread, |s.Frames(a.thread)| - 1) && ContextInv(s, a.ctx);
      assert s.contexts[a.ctx].queue[0] in s.contexts[a.ctx].queue;
    }
    forall t | s.Frames(t) != [] ensures !s.OnTop(t, InTask(k)) && !s.OnTop(t, Direct(k)) {
      assert FrameInv(s, t, |s.Frames(t)| - 1);
    }
    StaysQueued(s, a, k);
  }

  lemma WaitsOnStays(s: State, a: Choice, t: ThreadId, k: CallId, c: ContextId, owner: ThreadId)
    requires Inv(s) && Enabled(s, a) && WaitsOn(s, t, k, c, owner) && !s.OnTop(owner, Fork(c))
    ensures WaitsOn(Step(s, a), t, k, c, owner)
  {
    StepKeepsInv(s, a);
    CallKept(s, a, k);
    NotBegun(s, a, k, c);
    WaiterStays(s, a, t, k);
  }

  /** Neither call is ever begun. */
  lemma LockedStays(s: State, a: Choice)
    requires Inv(s) && Locked(s) && Enabled(s, a)
    ensures Locked(Step(s, a))
  {
    WaitsOnStays(s, a, 0, 2, 1, 2);
    WaitsOnStays(s, a, 2, 3, 0, 0);
  }

  lemma {:induction false} LockedForEver(choices: seq<Choice>, later: seq<Choice>)
    requires Locked(Run(choices))
    ensures Locked(Run(choices + later))
  {
    if later == [] {
      assert choices + later == choices;
    } else {
      var sooner, a := later[..|later| - 1], later[|later| - 1];
      assert choices + later == (choices + sooner) + [a];
      LockedForEver(choices, sooner);
      RunStep(choices + sooner, a);
      ReachableInv(choices + sooner);
      if Enabled(Run(choices + sooner), a) { LockedStays(Run(choices + sooner), a); }
    }
  }

  /** Up to the moment when thread 0 waits for thread 2. */
  lemma FirstIsWaiting() returns (choices: seq<Choice>)
    ensures BothForked(Run(choices), F0, F2, [], [2], InFn, 3)
  {
    var c0 := TwoForksBegin();
    RunStep(c0, CallHandle(3, 1, true));
    SecondCall(Run(c0));
    var c1 := c0 + [CallHandle(3, 1, true)];
    RunStep(c1, RunTask(2, 1));
    SecondTask(Run(c1));
    var c2 := c1 + [RunTask(2, 1)];
    RunStep(c2, CallHandle(0, 2, true));
    FirstWaits(Run(c2));
    choices := c2 + [CallHandle(0, 2, true)];
  }

  lemma TwoForksBegin() returns (choices: seq<Choice>)
    ensures BothForked(Run(choices), [Fork(0), InTask(0)], [Fork(1)], [], [], InFn, 1)
  {
    var c0 := StartOuterFork();
    RunStep(c0, CallHandle(1, 0, true));
    FirstCall(Run(c0));
    var c1 := c0 + [CallHandle(1, 0, true)];
    RunStep(c1, RunTask(0, 0));
    FirstTask(Run(c1));
    var c2 := c1 + [RunTask(0, 0)];
    RunStep(c2, CallFork(2, 1));
    SecondFork(Run(c2));
    var c3 := c2 + [CallFork(2, 1)];
    RunStep(c3, MakeGuard(2, 1));
    SecondGuard(Run(c3));
    var c4 := c3 + [MakeGuard(2, 1)];
    RunStep(c4, Spawn(2, 1, 11));
    SecondSpawn(Run(c4));
    choices := c4 + [Spawn(2, 1, 11)];
  }

  /** The second fork's function returns and its sender ends, while its run() still runs. */
  lemma SecondIsErased(c0: seq<Choice>) returns (choices: seq<Choice>)
    requires BothForked(Run(c0), F0, F2, [], [2], InFn, 3)
    ensures BothForked(Run(choices), F0, F2, [], [2], Ended, 3)
  {
    RunStep(c0, FnReturns(11, 1, 0));
    FnOfSecondReturns(Run(c0));
    var c1 := c0 + [FnReturns(11, 1, 0)];
    RunStep(c1, SenderStep(11, 1));
    SecondLocks(Run(c1));
    var c2 := c1 + [SenderStep(11, 1)];
    RunStep(c2, SenderStep(11, 1));
    SecondResets(Run(c2));
    var c3 := c2 + [SenderStep(11, 1)];
    RunStep(c3, SenderStep(11, 1));
    SecondErases(Run(c3));
    var c4 := c3 + [SenderStep(11, 1)];
    RunStep(c4, SenderStep(11, 1));
    SecondPromises(Run(c4));
    var c5 := c4 + [SenderStep(11, 1)];
    RunStep(c5, SenderStep(11, 1));
    SecondSenderEnds(Run(c5));
    choices := c5 + [SenderStep(11, 1)];
  }

  /** Threads 0 and 2 wait for ever, whatever happens after these choices. */
  ghost predicate DeadlockedAfter(choices: seq<Choice>) {
    forall later: seq<Choice> ::
      Run(choices + later).OnTop(0, Waiting(2)) && Run(choices + later).OnTop(2, Waiting(3))
  }

  /** Two threads that fork can block each other for ever. Thread 0 runs a call in its fork,
      thread 2 one in its later fork, and thread 0's call is handed to thread 2. When the
      second fork's function returns before thread 2's call makes one itself, that one is
      handed to thread 0: each thread waits for the other to run its call. */
  lemma TwoForkersMayDeadlock()
    ensures exists choices: seq<Choice> :: DeadlockedAfter(choices)
  {
    var c0 := FirstIsWaiting();
    var c1 := SecondIsErased(c0);
    RunStep(c1, CallHandle(2, 3, true));
    SecondWaits(Run(c1));
    var choices := c1 + [CallHandle(2, 3, true)];
    ReachableInv(choices);
    NowLocked(Run(choices));
    forall later: seq<Choice>
      ensures Run(choices + later).OnTop(0, Waiting(2)) && Run(choices + later).OnTop(2, Waiting(3))
    {
      LockedForEver(choices, later);
    }
    assert DeadlockedAfter(choices);
  }
}
