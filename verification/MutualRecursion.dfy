/**
 The mutual recursion helper: `fork` runs a function on a sender thread and meanwhile runs
 dispatched calls on the forking thread, `handle` and `maybe_handle` dispatch to the
 innermost fork. A transition system over any number of threads, with the mutex, every
 fork's io_context, and every thread's call stack.
 */
module MutualRecursion {
  import opened Common

  type ThreadId = nat
  type ContextId = nat
  type CallId = nat
  type Value = int

  /** One activation on a thread's call stack. */
  datatype Frame =
    | Fork(ctx: ContextId)       // in fork, at the phase its context records
    | Sending(ctx: ContextId)    // a sender thread, at the stage its context records
    | Waiting(call: CallId)      // in maybe_handle, waiting for the dispatched call's result
    | InTask(call: CallId)       // a dispatched call's function, run by a context's run()
    | Direct(call: CallId)       // a call's function, called by handle itself

  /** Where the forking thread stands in `fork`. */
  datatype Phase = Pushed | Guarded | Running | Awaiting | Returned

  /** Where the sender thread stands: in fn, then through its critical section. */
  datatype Stage = NotSpawned | InFn | FnDone | HasLock | GuardReset | Erased | Promised | Ended

  datatype Guard = Absent | Held | Reset

  datatype Context = Context(
    owner: ThreadId,
    sender: ThreadId,         // the thread that runs fn, once spawned
    depth: nat,               // where the fork's frame is on its owner's stack
    phase: Phase,
    stage: Stage,
    guard: Guard,
    queue: seq<CallId>,       // handlers posted to the io_context
    fnValue: Option<Value>,   // what fn returned
    promise: Option<Value>,   // the response promise
    returned: Option<Value>)  // what fork returned

  datatype Status = Queued | Started | Finished

  datatype Call = Call(
    caller: ThreadId,
    must: bool,               // handle, which runs the function itself if nobody forks
    target: Option<ContextId>,
    sawEmpty: bool,           // the stack was empty when the lock was taken
    status: Status,
    depth: nat,               // where the frame that runs the function is
    runs: seq<ThreadId>,      // the threads that began to run the function
    returned: bool)

  datatype State = State(
    contexts: map<ContextId, Context>,
    calls: map<CallId, Call>,
    threads: map<ThreadId, seq<Frame>>,
    stack: seq<ContextId>,       // mutual_recursion_contexts_
    mutex: Option<ContextId>)    // the context whose sender is in its critical section
  {
    function Frames(t: ThreadId): seq<Frame> {
      if t in threads then threads[t] else []
    }

    function Push(t: ThreadId, f: Frame): State {
      this.(threads := threads[t := Frames(t) + [f]])
    }

    function Pop(t: ThreadId): State
      requires Frames(t) != []
    {
      this.(threads := threads[t := Frames(t)[..|Frames(t)| - 1]])
    }

    predicate OnTop(t: ThreadId, f: Frame) {
      Frames(t) != [] && Frames(t)[|Frames(t)| - 1] == f
    }

    /** Thread t is in code that may call fork and handle: its own code, fn, or the function
        of a call. */
    predicate InUserCode(t: ThreadId) {
      || Frames(t) == []
      || (match Frames(t)[|Frames(t)| - 1]
          case Sending(c) => c in contexts && contexts[c].stage == InFn
          case InTask(_) => true
          case Direct(_) => true
          case _ => false)
    }

    /** Thread t is somewhere inside the run() of context c. */
    predicate Inside(t: ThreadId, c: ContextId) {
      Fork(c) in Frames(t)
    }
  }

  const INITIAL := State(map[], map[], map[], [], None)

  datatype Choice =
    | CallFork(thread: ThreadId, ctx: ContextId)
    | MakeGuard(thread: ThreadId, ctx: ContextId)
    | Spawn(thread: ThreadId, ctx: ContextId, sender: ThreadId)
    | RunTask(thread: ThreadId, ctx: ContextId)
    | EndTask(thread: ThreadId, call: CallId)
    | RunReturns(thread: ThreadId, ctx: ContextId)
    | ForkReturns(thread: ThreadId, ctx: ContextId)
    | FnReturns(thread: ThreadId, ctx: ContextId, value: Value)
    | SenderStep(thread: ThreadId, ctx: ContextId)
    | CallHandle(thread: ThreadId, call: CallId, must: bool)
    | HandleReturns(thread: ThreadId, call: CallId)
    | EndDirect(thread: ThreadId, call: CallId)

  function Top(stack: seq<ContextId>): (c: ContextId)
    requires stack != []
    ensures c in stack
  {
    stack[|stack| - 1]
  }

  // ---------------------------------------------------------------------------
  // The steps, each with its guard and its effect. A fork, a sender and a call get an
  // identity that was not used before; locking needs a free mutex; and the caller of handle
  // is not itself inside the run() of the context on top
  // ---------------------------------------------------------------------------

  /** The sender of context c, on thread u, is at this point of its code. */
  predicate AtStage(s: State, u: ThreadId, c: ContextId, stage: Stage) {
    s.OnTop(u, Sending(c)) && c in s.contexts && s.contexts[c].stage == stage
  }

  /** vector::erase of the first occurrence that std::find gives. */
  function Erase(stack: seq<ContextId>, c: ContextId): (r: seq<ContextId>)
    ensures c !in stack ==> r == stack
  {
    if stack == [] then []
    else if stack[0] == c then stack[1..]
    else [stack[0]] + Erase(stack[1..], c)
  }

  function WithContext(s: State, c: ContextId, x: Context): State {
    s.(contexts := s.contexts[c := x])
  }

  function WithCall(s: State, k: CallId, x: Call): State {
    s.(calls := s.calls[k := x])
  }

  /** fork: pushes a new context under the mutex. */
  predicate MayCallFork(s: State, t: ThreadId, c: ContextId) {
    s.InUserCode(t) && c !in s.contexts && s.mutex.None?
  }

  function CallForkDone(s: State, t: ThreadId, c: ContextId): State
    requires MayCallFork(s, t, c)
  {
    WithContext(s, c, Context(t, 0, |s.Frames(t)|, Pushed, NotSpawned, Absent, [], None, None, None))
      .(stack := s.stack + [c]).Push(t, Fork(c))
  }

  predicate MayMakeGuard(s: State, t: ThreadId, c: ContextId) {
    s.OnTop(t, Fork(c)) && c in s.contexts && s.contexts[c].phase == Pushed
  }

  function MakeGuardDone(s: State, t: ThreadId, c: ContextId): State
    requires MayMakeGuard(s, t, c)
  {
    WithContext(s, c, s.contexts[c].(phase := Guarded, guard := Held))
  }

  predicate MaySpawn(s: State, t: ThreadId, c: ContextId, u: ThreadId) {
    s.OnTop(t, Fork(c)) && c in s.contexts && s.contexts[c].phase == Guarded && u !in s.threads
  }

  function SpawnDone(s: State, t: ThreadId, c: ContextId, u: ThreadId): State
    requires MaySpawn(s, t, c, u)
  {
    WithContext(s, c, s.contexts[c].(sender := u, phase := Running, stage := InFn)).Push(u, Sending(c))
  }

  predicate MayRunTask(s: State, t: ThreadId, c: ContextId) {
    && s.OnTop(t, Fork(c)) && c in s.contexts && s.contexts[c].phase == Running && s.contexts[c].queue != []
    && s.contexts[c].queue[0] in s.calls
  }

  function RunTaskDone(s: State, t: ThreadId, c: ContextId): State
    requires MayRunTask(s, t, c)
  {
    var x := s.contexts[c];
    var k := x.queue[0];
    var y := s.calls[k].(status := Started, depth := |s.Frames(t)|, runs := s.calls[k].runs + [t]);
    WithCall(WithContext(s, c, x.(queue := x.queue[1..])), k, y).Push(t, InTask(k))
  }

  predicate MayEndTask(s: State, t: ThreadId, k: CallId) {
    s.OnTop(t, InTask(k)) && k in s.calls
  }

  function EndTaskDone(s: State, t: ThreadId, k: CallId): State
    requires MayEndTask(s, t, k)
  {
    WithCall(s, k, s.calls[k].(status := Finished)).Pop(t)
  }

  predicate MayRunReturns(s: State, t: ThreadId, c: ContextId) {
    && s.OnTop(t, Fork(c)) && c in s.contexts && s.contexts[c].phase == Running && s.contexts[c].queue == []
    && s.contexts[c].guard == Reset
  }

  function RunReturnsDone(s: State, t: ThreadId, c: ContextId): State
    requires MayRunReturns(s, t, c)
  {
    WithContext(s, c, s.contexts[c].(phase := Awaiting))
  }

  predicate MayForkReturns(s: State, t: ThreadId, c: ContextId) {
    && s.OnTop(t, Fork(c)) && c in s.contexts && s.contexts[c].phase == Awaiting
    && s.contexts[c].promise.Some? && s.contexts[c].stage == Ended
  }

  function ForkReturnsDone(s: State, t: ThreadId, c: ContextId): State
    requires MayForkReturns(s, t, c)
  {
    WithContext(s, c, s.contexts[c].(phase := Returned, returned := s.contexts[c].promise)).Pop(t)
  }

  predicate MayFnReturns(s: State, t: ThreadId, c: ContextId, v: Value) {
    s.OnTop(t, Sending(c)) && c in s.contexts && s.contexts[c].stage == InFn
  }

  function FnReturnsDone(s: State, t: ThreadId, c: ContextId, v: Value): State
    requires MayFnReturns(s, t, c, v)
  {
    WithContext(s, c, s.contexts[c].(stage := FnDone, fnValue := Some(v)))
  }

  predicate MayLock(s: State, t: ThreadId, c: ContextId) {
    AtStage(s, t, c, FnDone) && s.mutex.None?
  }

  function LockDone(s: State, t: ThreadId, c: ContextId): State
    requires MayLock(s, t, c)
  {
    WithContext(s, c, s.contexts[c].(stage := HasLock)).(mutex := Some(c))
  }

  predicate MayResetGuard(s: State, t: ThreadId, c: ContextId) {
    AtStage(s, t, c, HasLock)
  }

  function ResetGuardDone(s: State, t: ThreadId, c: ContextId): State
    requires MayResetGuard(s, t, c)
  {
    WithContext(s, c, s.contexts[c].(stage := GuardReset, guard := Reset))
  }

  predicate MayEraseContext(s: State, t: ThreadId, c: ContextId) {
    AtStage(s, t, c, GuardReset)
  }

  function EraseContextDone(s: State, t: ThreadId, c: ContextId): State
    requires MayEraseContext(s, t, c)
  {
    WithContext(s, c, s.contexts[c].(stage := Erased)).(stack := Erase(s.stack, c))
  }

  predicate MaySetPromise(s: State, t: ThreadId, c: ContextId) {
    AtStage(s, t, c, Erased)
  }

  function SetPromiseDone(s: State, t: ThreadId, c: ContextId): State
    requires MaySetPromise(s, t, c)
  {
    WithContext(s, c, s.contexts[c].(stage := Promised, promise := s.contexts[c].fnValue))
  }

  predicate MayEndSender(s: State, t: ThreadId, c: ContextId) {
    AtStage(s, t, c, Promised)
  }

  function EndSenderDone(s: State, t: ThreadId, c: ContextId): State
    requires MayEndSender(s, t, c)
  {
    WithContext(s, c, s.contexts[c].(stage := Ended)).(mutex := None).Pop(t)
  }

  /** handle or maybe_handle with an empty stack. */
  predicate MayCallNobody(s: State, t: ThreadId, k: CallId, must: bool) {
    s.InUserCode(t) && k !in s.calls && s.mutex.None? && s.stack == []
  }

  function CallNobodyDone(s: State, t: ThreadId, k: CallId, must: bool): State
    requires MayCallNobody(s, t, k, must)
  {
    if must then WithCall(s, k, Call(t, true, None, true, Started, |s.Frames(t)|, [t], false)).Push(t, Direct(k))
    else WithCall(s, k, Call(t, false, None, true, Finished, 0, [], true))
  }

  /** handle or maybe_handle dispatching to the context c on top of the stack. */
  predicate MayCallTop(s: State, t: ThreadId, k: CallId, must: bool, c: ContextId) {
    && s.InUserCode(t) && k !in s.calls && s.mutex.None?
    && s.stack != [] && c == Top(s.stack) && c in s.contexts && !s.Inside(t, c)
  }

  function CallTopDone(s: State, t: ThreadId, k: CallId, must: bool, c: ContextId): State
    requires MayCallTop(s, t, k, must, c)
  {
    WithCall(WithContext(s, c, s.contexts[c].(queue := s.contexts[c].queue + [k])), k,
             Call(t, must, Some(c), false, Queued, 0, [], false)).Push(t, Waiting(k))
  }

  predicate MayHandleReturns(s: State, t: ThreadId, k: CallId) {
    s.OnTop(t, Waiting(k)) && k in s.calls && s.calls[k].status == Finished
  }

  function HandleReturnsDone(s: State, t: ThreadId, k: CallId): State
    requires MayHandleReturns(s, t, k)
  {
    WithCall(s, k, s.calls[k].(returned := true)).Pop(t)
  }

  predicate MayEndDirect(s: State, t: ThreadId, k: CallId) {
    s.OnTop(t, Direct(k)) && k in s.calls
  }

  function EndDirectDone(s: State, t: ThreadId, k: CallId): State
    requires MayEndDirect(s, t, k)
  {
    WithCall(s, k, s.calls[k].(status := Finished, returned := true)).Pop(t)
  }

  predicate Enabled(s: State, a: Choice) {
    match a
    case CallFork(t, c) => MayCallFork(s, t, c)
    case MakeGuard(t, c) => MayMakeGuard(s, t, c)
    case Spawn(t, c, u) => MaySpawn(s, t, c, u)
    case RunTask(t, c) => MayRunTask(s, t, c)
    case EndTask(t, k) => MayEndTask(s, t, k)
    case RunReturns(t, c) => MayRunReturns(s, t, c)
    case ForkReturns(t, c) => MayForkReturns(s, t, c)
    case FnReturns(u, c, v) => MayFnReturns(s, u, c, v)
    case SenderStep(u, c) =>
      || MayLock(s, u, c) || MayResetGuard(s, u, c) || MayEraseContext(s, u, c)
      || MaySetPromise(s, u, c) || MayEndSender(s, u, c)
    case CallHandle(t, k, must) =>
      MayCallNobody(s, t, k, must) || (s.stack != [] && MayCallTop(s, t, k, must, Top(s.stack)))
    case HandleReturns(t, k) => MayHandleReturns(s, t, k)
    case EndDirect(t, k) => MayEndDirect(s, t, k)
  }

  function Apply(s: State, a: Choice): State
    requires Enabled(s, a)
  {
    match a
    case CallFork(t, c) => CallForkDone(s, t, c)
    case MakeGuard(t, c) => MakeGuardDone(s, t, c)
    case Spawn(t, c, u) => SpawnDone(s, t, c, u)
    case RunTask(t, c) => RunTaskDone(s, t, c)
    case EndTask(t, k) => EndTaskDone(s, t, k)
    case RunReturns(t, c) => RunReturnsDone(s, t, c)
    case ForkReturns(t, c) => ForkReturnsDone(s, t, c)
    case FnReturns(u, c, v) => FnReturnsDone(s, u, c, v)
    case SenderStep(u, c) => SenderDone(s, u, c)
    case CallHandle(t, k, must) =>
      if s.stack == [] then CallNobodyDone(s, t, k, must) else CallTopDone(s, t, k, must, Top(s.stack))
    case HandleReturns(t, k) => HandleReturnsDone(s, t, k)
    case EndDirect(t, k) => EndDirectDone(s, t, k)
  }

  /** The sender's critical section, statement by statement. */
  function SenderDone(s: State, u: ThreadId, c: ContextId): State
    requires Enabled(s, SenderStep(u, c))
  {
    match s.contexts[c].stage
    case FnDone => LockDone(s, u, c)
    case HasLock => ResetGuardDone(s, u, c)
    case GuardReset => EraseContextDone(s, u, c)
    case Erased => SetPromiseDone(s, u, c)
    case Promised => EndSenderDone(s, u, c)
  }

  function Step(s: State, a: Choice): State {
    if Enabled(s, a) then Apply(s, a) else s
  }

  function Run(choices: seq<Choice>): State {
    if choices == [] then INITIAL
    else Step(Run(choices[..|choices| - 1]), choices[|choices| - 1])
  }

  // ---------------------------------------------------------------------------
  // The invariant
  // ---------------------------------------------------------------------------

  predicate NoRepeats<X(==)>(xs: seq<X>) {
    forall i, j :: 0 <= i < j < |xs| ==> xs[i] != xs[j]
  }

  predicate InSection(stage: Stage) {
    stage in {HasLock, GuardReset, Erased, Promised}
  }

  /** Its stage ties together a context's guard, mutex, stack entry and promise. */
  ghost predicate ContextInv(s: State, c: ContextId)
    requires c in s.contexts
  {
    var x := s.contexts[c];
    && (s.mutex == Some(c) <==> InSection(x.stage))
    && (x.guard == Reset <==> x.stage in {GuardReset, Erased, Promised, Ended})
    && (x.guard == Absent <==> x.phase == Pushed)
    && (x.stage == NotSpawned <==> x.phase in {Pushed, Guarded})
    && (c in s.stack <==> x.stage !in {Erased, Promised, Ended})
    && (x.fnValue.None? <==> x.stage in {NotSpawned, InFn})
    && (x.promise == if x.stage in {Promised, Ended} then x.fnValue else None)
    && (x.phase in {Awaiting, Returned} ==> x.guard == Reset && x.queue == [])
    && (if x.phase == Returned then x.stage == Ended && x.returned == x.fnValue else x.returned == None)
    && (x.phase != Returned ==> x.depth < |s.Frames(x.owner)| && s.Frames(x.owner)[x.depth] == Fork(c))
    && NoRepeats(x.queue)
    && (forall k :: k in x.queue ==> k in s.calls && s.calls[k].target == Some(c) && s.calls[k].status == Queued)
  }

  ghost predicate CallInv(s: State, k: CallId)
    requires k in s.calls
  {
    var x := s.calls[k];
    match x.target
    case Some(c) =>
      && c in s.contexts
      && !x.sawEmpty
      && (x.status == Queued ==> x.runs == [] && k in s.contexts[c].queue)
      && (x.status != Queued ==> x.runs == [s.contexts[c].owner])
      && (x.status == Started ==>
            && s.contexts[c].phase != Returned && x.depth == s.contexts[c].depth + 1
            && x.depth < |s.Frames(s.contexts[c].owner)| && s.Frames(s.contexts[c].owner)[x.depth] == InTask(k))
      && (s.contexts[c].phase in {Awaiting, Returned} ==> x.status == Finished)
      && (x.returned ==> x.status == Finished)
    case None =>
      && x.sawEmpty
      && x.status != Queued
      && x.runs == (if x.must then [x.caller] else [])
      && (x.returned ==> x.status == Finished)
  }

  /** What may be on a thread's stack, and what may be on top of it. */
  ghost predicate FrameInv(s: State, t: ThreadId, i: nat)
    requires i < |s.Frames(t)|
  {
    var top := i == |s.Frames(t)| - 1;
    match s.Frames(t)[i]
    case Fork(c) =>
      && c in s.contexts && s.contexts[c].owner == t && s.contexts[c].depth == i
      && s.contexts[c].phase != Returned
      && (!top ==> s.contexts[c].phase == Running && s.Frames(t)[i + 1].InTask?)
    case Sending(c) =>
      && i == 0 && c in s.contexts && s.contexts[c].sender == t && s.contexts[c].stage !in {NotSpawned, Ended}
      && (!top ==> s.contexts[c].stage == InFn)
    case Waiting(k) => top && k in s.calls && s.calls[k].caller == t && !s.calls[k].returned
    case InTask(k) =>
      && k in s.calls && s.calls[k].status == Started && s.calls[k].target.Some?
      && i > 0 && s.Frames(t)[i - 1] == Fork(s.calls[k].target.value)
    case Direct(k) =>
      && k in s.calls && s.calls[k].target.None? && s.calls[k].must && s.calls[k].status == Started
      && s.calls[k].caller == t && s.calls[k].depth == i
  }

  ghost predicate Inv(s: State) {
    && (forall c :: c in s.contexts ==> ContextInv(s, c))
    && (forall k :: k in s.calls ==> CallInv(s, k))
    && (forall t: ThreadId, i: nat :: i < |s.Frames(t)| ==> FrameInv(s, t, i))
    && (forall c :: c in s.stack ==> c in s.contexts)
    && NoRepeats(s.stack)
    && (s.mutex.Some? ==> s.mutex.value in s.contexts)
  }

  // ---------------------------------------------------------------------------
  // Every step keeps it
  // ---------------------------------------------------------------------------

  /** Erasing takes out the first occurrence and leaves the others in their order. */
  lemma {:induction false} ErasePosition(stack: seq<ContextId>, c: ContextId) returns (p: nat)
    requires c in stack
    ensures p < |stack| && stack[p] == c && Erase(stack, c) == stack[..p] + stack[p + 1..]
  {
    if stack[0] == c {
      p := 0;
    } else {
      var q := ErasePosition(stack[1..], c);
      p := q + 1;
      assert stack[..p] == [stack[0]] + stack[1..][..q];
      assert stack[p + 1..] == stack[1..][q + 1..];
    }
  }

  lemma EraseKeepsOthers(stack: seq<ContextId>, c: ContextId)
    requires NoRepeats(stack)
    ensures NoRepeats(Erase(stack, c))
    ensures forall d :: d in Erase(stack, c) <==> d in stack && d != c
  {
    if c in stack {
      var p := ErasePosition(stack, c);
      forall d ensures d in Erase(stack, c) <==> d in stack && d != c {
        if d in stack && d != c {
          var i :| 0 <= i < |stack| && stack[i] == d;
          assert Erase(stack, c)[if i < p then i else i - 1] == d;
        }
      }
    }
  }

  /** The frame on top of a thread's stack. */
  ghost predicate TopInv(s: State, t: ThreadId) {
    s.Frames(t) != [] ==> FrameInv(s, t, |s.Frames(t)| - 1)
  }

  /** No step changes which thread made a fork, and how deep on its stack. */
  ghost predicate SameForks(s: State, s': State) {
    forall d :: d in s.contexts ==>
      d in s'.contexts && s'.contexts[d].owner == s.contexts[d].owner && s'.contexts[d].depth == s.contexts[d].depth
  }

  lemma CallForkKeepsContext(s: State, t: ThreadId, c: ContextId, d: ContextId)
    requires MayCallFork(s, t, c) && d in CallForkDone(s, t, c).contexts
    requires d in s.contexts ==> ContextInv(s, d)
    requires TopInv(s, t)
    requires c !in s.stack
    ensures ContextInv(CallForkDone(s, t, c), d)
  {
  }

  lemma CallForkKeepsCall(s: State, t: ThreadId, c: ContextId, j: CallId)
    requires MayCallFork(s, t, c) && j in CallForkDone(s, t, c).calls
    requires j in s.calls && CallInv(s, j)
    requires TopInv(s, t)
    ensures CallInv(CallForkDone(s, t, c), j)
  {
  }

  lemma CallForkKeepsFrame(s: State, t: ThreadId, c: ContextId, v: ThreadId, i: nat)
    requires MayCallFork(s, t, c) && i < |CallForkDone(s, t, c).Frames(v)|
    requires i < |s.Frames(v)| ==> FrameInv(s, v, i)
    requires TopInv(s, t)
    ensures FrameInv(CallForkDone(s, t, c), v, i)
  {
  }

  lemma CallForkKeepsInv(s: State, t: ThreadId, c: ContextId)
    requires Inv(s) && MayCallFork(s, t, c)
    ensures Inv(CallForkDone(s, t, c))
  {
    var s' := CallForkDone(s, t, c);
    assert TopInv(s, t);
    assert c !in s.stack;
    forall d | d in s'.contexts ensures ContextInv(s', d) { CallForkKeepsContext(s, t, c, d); }
    forall j | j in s'.calls ensures CallInv(s', j) { CallForkKeepsCall(s, t, c, j); }
    forall v: ThreadId, i: nat | i < |s'.Frames(v)| ensures FrameInv(s', v, i) {
      CallForkKeepsFrame(s, t, c, v, i);
    }
  }

  lemma CallForkKeepsForks(s: State, t: ThreadId, c: ContextId)
    requires MayCallFork(s, t, c)
    ensures SameForks(s, CallForkDone(s, t, c))
  {
  }

  lemma MakeGuardKeepsContext(s: State, t: ThreadId, c: ContextId, d: ContextId)
    requires MayMakeGuard(s, t, c) && d in MakeGuardDone(s, t, c).contexts
    requires d in s.contexts && ContextInv(s, d)
    requires TopInv(s, t)
    requires ContextInv(s, c)
    ensures ContextInv(MakeGuardDone(s, t, c), d)
  {
  }

  lemma MakeGuardKeepsCall(s: State, t: ThreadId, c: ContextId, j: CallId)
    requires MayMakeGuard(s, t, c) && j in MakeGuardDone(s, t, c).calls
    requires j in s.calls && CallInv(s, j)
    requires TopInv(s, t)
    requires ContextInv(s, c)
    ensures CallInv(MakeGuardDone(s, t, c), j)
  {
  }

  lemma MakeGuardKeepsFrame(s: State, t: ThreadId, c: ContextId, v: ThreadId, i: nat)
    requires MayMakeGuard(s, t, c) && i < |MakeGuardDone(s, t, c).Frames(v)|
    requires i < |s.Frames(v)| ==> FrameInv(s, v, i)
    requires TopInv(s, t)
    requires ContextInv(s, c)
    ensures FrameInv(MakeGuardDone(s, t, c), v, i)
  {
  }

  lemma MakeGuardKeepsInv(s: State, t: ThreadId, c: ContextId)
    requires Inv(s) && MayMakeGuard(s, t, c)
    ensures Inv(MakeGuardDone(s, t, c)) && SameForks(s, MakeGuardDone(s, t, c))
  {
    var s' := MakeGuardDone(s, t, c);
    assert TopInv(s, t);
    forall d | d in s'.contexts ensures ContextInv(s', d) { MakeGuardKeepsContext(s, t, c, d); }
    forall j | j in s'.calls ensures CallInv(s', j) { MakeGuardKeepsCall(s, t, c, j); }
    forall v: ThreadId, i: nat | i < |s'.Frames(v)| ensures FrameInv(s', v, i) {
      MakeGuardKeepsFrame(s, t, c, v, i);
    }
  }

  lemma SpawnKeepsContext(s: State, t: ThreadId, c: ContextId, u: ThreadId, d: ContextId)
    requires MaySpawn(s, t, c, u) && d in SpawnDone(s, t, c, u).contexts
    requires d in s.contexts && ContextInv(s, d)
    requires TopInv(s, t)
    requires ContextInv(s, c)
    ensures ContextInv(SpawnDone(s, t, c, u), d)
  {
  }

  lemma SpawnKeepsCall(s: State, t: ThreadId, c: ContextId, u: ThreadId, j: CallId)
    requires MaySpawn(s, t, c, u) && j in SpawnDone(s, t, c, u).calls
    requires j in s.calls && CallInv(s, j)
    requires TopInv(s, t)
    requires ContextInv(s, c)
    ensures CallInv(SpawnDone(s, t, c, u), j)
  {
  }

  lemma SpawnKeepsFrame(s: State, t: ThreadId, c: ContextId, u: ThreadId, v: ThreadId, i: nat)
    requires MaySpawn(s, t, c, u) && i < |SpawnDone(s, t, c, u).Frames(v)|
    requires i < |s.Frames(v)| ==> FrameInv(s, v, i)
    requires TopInv(s, t)
    requires ContextInv(s, c)
    ensures FrameInv(SpawnDone(s, t, c, u), v, i)
  {
  }

  lemma SpawnKeepsInv(s: State, t: ThreadId, c: ContextId, u: ThreadId)
    requires Inv(s) && MaySpawn(s, t, c, u)
    ensures Inv(SpawnDone(s, t, c, u)) && SameForks(s, SpawnDone(s, t, c, u))
  {
    var s' := SpawnDone(s, t, c, u);
    assert TopInv(s, t);
    forall d | d in s'.contexts ensures ContextInv(s', d) { SpawnKeepsContext(s, t, c, u, d); }
    forall j | j in s'.calls ensures CallInv(s', j) { SpawnKeepsCall(s, t, c, u, j); }
    forall v: ThreadId, i: nat | i < |s'.Frames(v)| ensures FrameInv(s', v, i) {
      SpawnKeepsFrame(s, t, c, u, v, i);
    }
  }

  lemma RunTaskKeepsItsContext(s: State, t: ThreadId, c: ContextId)
    requires MayRunTask(s, t, c) && ContextInv(s, c) && TopInv(s, t)
    ensures ContextInv(RunTaskDone(s, t, c), c)
  {
  }

  lemma RunTaskKeepsContext(s: State, t: ThreadId, c: ContextId, d: ContextId)
    requires MayRunTask(s, t, c) && d in RunTaskDone(s, t, c).contexts && d != c
    requires d in s.contexts && ContextInv(s, d)
    requires TopInv(s, t)
    requires ContextInv(s, c)
    ensures ContextInv(RunTaskDone(s, t, c), d)
  {
  }

  lemma RunTaskKeepsCall(s: State, t: ThreadId, c: ContextId, j: CallId)
    requires MayRunTask(s, t, c) && j in RunTaskDone(s, t, c).calls
    requires j in s.calls && CallInv(s, j)
    requires TopInv(s, t)
    requires ContextInv(s, c)
    ensures CallInv(RunTaskDone(s, t, c), j)
  {
  }

  lemma RunTaskKeepsFrame(s: State, t: ThreadId, c: ContextId, v: ThreadId, i: nat)
    requires MayRunTask(s, t, c) && i < |RunTaskDone(s, t, c).Frames(v)|
    requires i < |s.Frames(v)| ==> FrameInv(s, v, i)
    requires TopInv(s, t)
    requires ContextInv(s, c)
    ensures FrameInv(RunTaskDone(s, t, c), v, i)
  {
  }

  lemma RunTaskKeepsInv(s: State, t: ThreadId, c: ContextId)
    requires Inv(s) && MayRunTask(s, t, c)
    ensures Inv(RunTaskDone(s, t, c)) && SameForks(s, RunTaskDone(s, t, c))
  {
    var s' := RunTaskDone(s, t, c);
    assert TopInv(s, t);
    forall d | d in s'.contexts ensures ContextInv(s', d) {
      if d == c { RunTaskKeepsItsContext(s, t, c); } else { RunTaskKeepsContext(s, t, c, d); }
    }
    forall j | j in s'.calls ensures CallInv(s', j) { RunTaskKeepsCall(s, t, c, j); }
    forall v: ThreadId, i: nat | i < |s'.Frames(v)| ensures FrameInv(s', v, i) {
      RunTaskKeepsFrame(s, t, c, v, i);
    }
  }

  lemma EndTaskKeepsContext(s: State, t: ThreadId, k: CallId, d: ContextId)
    requires MayEndTask(s, t, k) && d in EndTaskDone(s, t, k).contexts
    requires d in s.contexts && ContextInv(s, d)
    requires TopInv(s, t)
    requires CallInv(s, k)
    ensures ContextInv(EndTaskDone(s, t, k), d)
  {
  }

  lemma EndTaskKeepsCall(s: State, t: ThreadId, k: CallId, j: CallId)
    requires MayEndTask(s, t, k) && j in EndTaskDone(s, t, k).calls
    requires j in s.calls && CallInv(s, j)
    requires TopInv(s, t)
    requires CallInv(s, k)
    ensures CallInv(EndTaskDone(s, t, k), j)
  {
  }

  lemma EndTaskKeepsFrame(s: State, t: ThreadId, k: CallId, v: ThreadId, i: nat)
    requires MayEndTask(s, t, k) && i < |EndTaskDone(s, t, k).Frames(v)|
    requires i < |s.Frames(v)| ==> FrameInv(s, v, i)
    requires TopInv(s, t)
    requires 0 < i <= |s.Frames(v)| ==> FrameInv(s, v, i - 1)
    requires |s.Frames(t)| >= 2 ==> FrameInv(s, t, |s.Frames(t)| - 2)
    ensures FrameInv(EndTaskDone(s, t, k), v, i)
  {
    assert EndTaskDone(s, t, k).Frames(v) == if v == t then s.Frames(v)[..|s.Frames(v)| - 1] else s.Frames(v);
  }

  lemma EndTaskKeepsInv(s: State, t: ThreadId, k: CallId)
    requires Inv(s) && MayEndTask(s, t, k)
    ensures Inv(EndTaskDone(s, t, k)) && SameForks(s, EndTaskDone(s, t, k))
  {
    var s' := EndTaskDone(s, t, k);
    assert TopInv(s, t);
    forall d | d in s'.contexts ensures ContextInv(s', d) { EndTaskKeepsContext(s, t, k, d); }
    forall j | j in s'.calls ensures CallInv(s', j) { EndTaskKeepsCall(s, t, k, j); }
    forall v: ThreadId, i: nat | i < |s'.Frames(v)| ensures FrameInv(s', v, i) {
      EndTaskKeepsFrame(s, t, k, v, i);
    }
  }

  lemma RunReturnsKeepsContext(s: State, t: ThreadId, c: ContextId, d: ContextId)
    requires MayRunReturns(s, t, c) && d in RunReturnsDone(s, t, c).contexts
    requires d in s.contexts && ContextInv(s, d)
    requires TopInv(s, t)
    requires ContextInv(s, c)
    ensures ContextInv(RunReturnsDone(s, t, c), d)
  {
  }

  lemma RunReturnsKeepsCall(s: State, t: ThreadId, c: ContextId, j: CallId)
    requires MayRunReturns(s, t, c) && j in RunReturnsDone(s, t, c).calls
    requires j in s.calls && CallInv(s, j)
    requires TopInv(s, t)
    requires ContextInv(s, c)
    ensures CallInv(RunReturnsDone(s, t, c), j)
  {
  }

  lemma RunReturnsKeepsFrame(s: State, t: ThreadId, c: ContextId, v: ThreadId, i: nat)
    requires MayRunReturns(s, t, c) && i < |RunReturnsDone(s, t, c).Frames(v)|
    requires i < |s.Frames(v)| ==> FrameInv(s, v, i)
    requires TopInv(s, t)
    requires ContextInv(s, c)
    ensures FrameInv(RunReturnsDone(s, t, c), v, i)
  {
  }

  lemma RunReturnsKeepsInv(s: State, t: ThreadId, c: ContextId)
    requires Inv(s) && MayRunReturns(s, t, c)
    ensures Inv(RunReturnsDone(s, t, c)) && SameForks(s, RunReturnsDone(s, t, c))
  {
    var s' := RunReturnsDone(s, t, c);
    assert TopInv(s, t);
    forall d | d in s'.contexts ensures ContextInv(s', d) { RunReturnsKeepsContext(s, t, c, d); }
    forall j | j in s'.calls ensures CallInv(s', j) { RunReturnsKeepsCall(s, t, c, j); }
    forall v: ThreadId, i: nat | i < |s'.Frames(v)| ensures FrameInv(s', v, i) {
      RunReturnsKeepsFrame(s, t, c, v, i);
    }
  }

  lemma ForkReturnsKeepsContext(s: State, t: ThreadId, c: ContextId, d: ContextId)
    requires MayForkReturns(s, t, c) && d in ForkReturnsDone(s, t, c).contexts
    requires d in s.contexts && ContextInv(s, d)
    requires TopInv(s, t)
    requires ContextInv(s, c)
    ensures ContextInv(ForkReturnsDone(s, t, c), d)
  {
  }

  lemma ForkReturnsKeepsCall(s: State, t: ThreadId, c: ContextId, j: CallId)
    requires MayForkReturns(s, t, c) && j in ForkReturnsDone(s, t, c).calls
    requires j in s.calls && CallInv(s, j)
    requires TopInv(s, t)
    requires ContextInv(s, c)
    ensures CallInv(ForkReturnsDone(s, t, c), j)
  {
  }

  lemma ForkReturnsKeepsFrame(s: State, t: ThreadId, c: ContextId, v: ThreadId, i: nat)
    requires MayForkReturns(s, t, c) && i < |ForkReturnsDone(s, t, c).Frames(v)|
    requires i < |s.Frames(v)| ==> FrameInv(s, v, i)
    requires TopInv(s, t)
    requires ContextInv(s, c)
    ensures FrameInv(ForkReturnsDone(s, t, c), v, i)
  {
    assert ForkReturnsDone(s, t, c).Frames(v) == if v == t then s.Frames(v)[..|s.Frames(v)| - 1] else s.Frames(v);
  }

  lemma ForkReturnsKeepsInv(s: State, t: ThreadId, c: ContextId)
    requires Inv(s) && MayForkReturns(s, t, c)
    ensures Inv(ForkReturnsDone(s, t, c)) && SameForks(s, ForkReturnsDone(s, t, c))
  {
    var s' := ForkReturnsDone(s, t, c);
    assert TopInv(s, t);
    forall d | d in s'.contexts ensures ContextInv(s', d) { ForkReturnsKeepsContext(s, t, c, d); }
    forall j | j in s'.calls ensures CallInv(s', j) { ForkReturnsKeepsCall(s, t, c, j); }
    forall v: ThreadId, i: nat | i < |s'.Frames(v)| ensures FrameInv(s', v, i) {
      ForkReturnsKeepsFrame(s, t, c, v, i);
    }
  }

  lemma FnReturnsKeepsContext(s: State, t: ThreadId, c: ContextId, v: Value, d: ContextId)
    requires MayFnReturns(s, t, c, v) && d in FnReturnsDone(s, t, c, v).contexts
    requires d in s.contexts && ContextInv(s, d)
    requires TopInv(s, t)
    requires ContextInv(s, c)
    ensures ContextInv(FnReturnsDone(s, t, c, v), d)
  {
  }

  lemma FnReturnsKeepsCall(s: State, t: ThreadId, c: ContextId, v: Value, j: CallId)
    requires MayFnReturns(s, t, c, v) && j in FnReturnsDone(s, t, c, v).calls
    requires j in s.calls && CallInv(s, j)
    requires TopInv(s, t)
    requires ContextInv(s, c)
    ensures CallInv(FnReturnsDone(s, t, c, v), j)
  {
  }

  lemma FnReturnsKeepsFrame(s: State, t: ThreadId, c: ContextId, v: Value, w: ThreadId, i: nat)
    requires MayFnReturns(s, t, c, v) && i < |FnReturnsDone(s, t, c, v).Frames(w)|
    requires i < |s.Frames(w)| ==> FrameInv(s, w, i)
    requires TopInv(s, t)
    requires ContextInv(s, c)
    ensures FrameInv(FnReturnsDone(s, t, c, v), w, i)
  {
  }

  lemma FnReturnsKeepsInv(s: State, t: ThreadId, c: ContextId, v: Value)
    requires Inv(s) && MayFnReturns(s, t, c, v)
    ensures Inv(FnReturnsDone(s, t, c, v)) && SameForks(s, FnReturnsDone(s, t, c, v))
  {
    var s' := FnReturnsDone(s, t, c, v);
    assert TopInv(s, t);
    forall d | d in s'.contexts ensures ContextInv(s', d) { FnReturnsKeepsContext(s, t, c, v, d); }
    forall j | j in s'.calls ensures CallInv(s', j) { FnReturnsKeepsCall(s, t, c, v, j); }
    forall w: ThreadId, i: nat | i < |s'.Frames(w)| ensures FrameInv(s', w, i) {
      FnReturnsKeepsFrame(s, t, c, v, w, i);
    }
  }

  lemma LockKeepsContext(s: State, t: ThreadId, c: ContextId, d: ContextId)
    requires MayLock(s, t, c) && d in LockDone(s, t, c).contexts
    requires d in s.contexts && ContextInv(s, d)
    requires TopInv(s, t)
    requires ContextInv(s, c)
    ensures ContextInv(LockDone(s, t, c), d)
  {
  }

  lemma LockKeepsCall(s: State, t: ThreadId, c: ContextId, j: CallId)
    requires MayLock(s, t, c) && j in LockDone(s, t, c).calls
    requires j in s.calls && CallInv(s, j)
    requires TopInv(s, t)
    requires ContextInv(s, c)
    ensures CallInv(LockDone(s, t, c), j)
  {
  }

  lemma LockKeepsFrame(s: State, t: ThreadId, c: ContextId, v: ThreadId, i: nat)
    requires MayLock(s, t, c) && i < |LockDone(s, t, c).Frames(v)|
    requires i < |s.Frames(v)| ==> FrameInv(s, v, i)
    requires TopInv(s, t)
    requires ContextInv(s, c)
    ensures FrameInv(LockDone(s, t, c), v, i)
  {
  }

  lemma LockKeepsInv(s: State, t: ThreadId, c: ContextId)
    requires Inv(s) && MayLock(s, t, c)
    ensures Inv(LockDone(s, t, c)) && SameForks(s, LockDone(s, t, c))
  {
    var s' := LockDone(s, t, c);
    assert TopInv(s, t);
    forall d | d in s'.contexts ensures ContextInv(s', d) { LockKeepsContext(s, t, c, d); }
    forall j | j in s'.calls ensures CallInv(s', j) { LockKeepsCall(s, t, c, j); }
    forall v: ThreadId, i: nat | i < |s'.Frames(v)| ensures FrameInv(s', v, i) {
      LockKeepsFrame(s, t, c, v, i);
    }
  }

  lemma ResetGuardKeepsContext(s: State, t: ThreadId, c: ContextId, d: ContextId)
    requires MayResetGuard(s, t, c) && d in ResetGuardDone(s, t, c).contexts
    requires d in s.contexts && ContextInv(s, d)
    requires TopInv(s, t)
    requires ContextInv(s, c)
    ensures ContextInv(ResetGuardDone(s, t, c), d)
  {
  }

  lemma ResetGuardKeepsCall(s: State, t: ThreadId, c: ContextId, j: CallId)
    requires MayResetGuard(s, t, c) && j in ResetGuardDone(s, t, c).calls
    requires j in s.calls && CallInv(s, j)
    requires TopInv(s, t)
    requires ContextInv(s, c)
    ensures CallInv(ResetGuardDone(s, t, c), j)
  {
  }

  lemma ResetGuardKeepsFrame(s: State, t: ThreadId, c: ContextId, v: ThreadId, i: nat)
    requires MayResetGuard(s, t, c) && i < |ResetGuardDone(s, t, c).Frames(v)|
    requires i < |s.Frames(v)| ==> FrameInv(s, v, i)
    requires TopInv(s, t)
    requires ContextInv(s, c)
    ensures FrameInv(ResetGuardDone(s, t, c), v, i)
  {
  }

  lemma ResetGuardKeepsInv(s: State, t: ThreadId, c: ContextId)
    requires Inv(s) && MayResetGuard(s, t, c)
    ensures Inv(ResetGuardDone(s, t, c)) && SameForks(s, ResetGuardDone(s, t, c))
  {
    var s' := ResetGuardDone(s, t, c);
    assert TopInv(s, t);
    forall d | d in s'.contexts ensures ContextInv(s', d) { ResetGuardKeepsContext(s, t, c, d); }
    forall j | j in s'.calls ensures CallInv(s', j) { ResetGuardKeepsCall(s, t, c, j); }
    forall v: ThreadId, i: nat | i < |s'.Frames(v)| ensures FrameInv(s', v, i) {
      ResetGuardKeepsFrame(s, t, c, v, i);
    }
  }

  lemma EraseContextKeepsContext(s: State, t: ThreadId, c: ContextId, d: ContextId)
    requires MayEraseContext(s, t, c) && d in EraseContextDone(s, t, c).contexts
    requires d in s.contexts && ContextInv(s, d)
    requires TopInv(s, t)
    requires ContextInv(s, c)
    requires NoRepeats(s.stack)
    ensures ContextInv(EraseContextDone(s, t, c), d)
  {
    EraseKeepsOthers(s.stack, c);
  }

  lemma EraseContextKeepsCall(s: State, t: ThreadId, c: ContextId, j: CallId)
    requires MayEraseContext(s, t, c) && j in EraseContextDone(s, t, c).calls
    requires j in s.calls && CallInv(s, j)
    requires TopInv(s, t)
    requires ContextInv(s, c)
    ensures CallInv(EraseContextDone(s, t, c), j)
  {
  }

  lemma EraseContextKeepsFrame(s: State, t: ThreadId, c: ContextId, v: ThreadId, i: nat)
    requires MayEraseContext(s, t, c) && i < |EraseContextDone(s, t, c).Frames(v)|
    requires i < |s.Frames(v)| ==> FrameInv(s, v, i)
    requires TopInv(s, t)
    requires ContextInv(s, c)
    ensures FrameInv(EraseContextDone(s, t, c), v, i)
  {
  }

  lemma EraseContextKeepsInv(s: State, t: ThreadId, c: ContextId)
    requires Inv(s) && MayEraseContext(s, t, c)
    ensures Inv(EraseContextDone(s, t, c)) && SameForks(s, EraseContextDone(s, t, c))
  {
    var s' := EraseContextDone(s, t, c);
    assert TopInv(s, t);
    forall d | d in s'.contexts ensures ContextInv(s', d) { EraseContextKeepsContext(s, t, c, d); }
    forall j | j in s'.calls ensures CallInv(s', j) { EraseContextKeepsCall(s, t, c, j); }
    forall v: ThreadId, i: nat | i < |s'.Frames(v)| ensures FrameInv(s', v, i) {
      EraseContextKeepsFrame(s, t, c, v, i);
    }
    EraseKeepsOthers(s.stack, c);
  }

  lemma SetPromiseKeepsContext(s: State, t: ThreadId, c: ContextId, d: ContextId)
    requires MaySetPromise(s, t, c) && d in SetPromiseDone(s, t, c).contexts
    requires d in s.contexts && ContextInv(s, d)
    requires TopInv(s, t)
    requires ContextInv(s, c)
    ensures ContextInv(SetPromiseDone(s, t, c), d)
  {
  }

  lemma SetPromiseKeepsCall(s: State, t: ThreadId, c: ContextId, j: CallId)
    requires MaySetPromise(s, t, c) && j in SetPromiseDone(s, t, c).calls
    requires j in s.calls && CallInv(s, j)
    requires TopInv(s, t)
    requires ContextInv(s, c)
    ensures CallInv(SetPromiseDone(s, t, c), j)
  {
  }

  lemma SetPromiseKeepsFrame(s: State, t: ThreadId, c: ContextId, v: ThreadId, i: nat)
    requires MaySetPromise(s, t, c) && i < |SetPromiseDone(s, t, c).Frames(v)|
    requires i < |s.Frames(v)| ==> FrameInv(s, v, i)
    requires TopInv(s, t)
    requires ContextInv(s, c)
    ensures FrameInv(SetPromiseDone(s, t, c), v, i)
  {
  }

  lemma SetPromiseKeepsInv(s: State, t: ThreadId, c: ContextId)
    requires Inv(s) && MaySetPromise(s, t, c)
    ensures Inv(SetPromiseDone(s, t, c)) && SameForks(s, SetPromiseDone(s, t, c))
  {
    var s' := SetPromiseDone(s, t, c);
    assert TopInv(s, t);
    forall d | d in s'.contexts ensures ContextInv(s', d) { SetPromiseKeepsContext(s, t, c, d); }
    forall j | j in s'.calls ensures CallInv(s', j) { SetPromiseKeepsCall(s, t, c, j); }
    forall v: ThreadId, i: nat | i < |s'.Frames(v)| ensures FrameInv(s', v, i) {
      SetPromiseKeepsFrame(s, t, c, v, i);
    }
  }

  lemma EndSenderKeepsContext(s: State, t: ThreadId, c: ContextId, d: ContextId)
    requires MayEndSender(s, t, c) && d in EndSenderDone(s, t, c).contexts
    requires d in s.contexts && ContextInv(s, d)
    requires TopInv(s, t)
    requires ContextInv(s, c)
    ensures ContextInv(EndSenderDone(s, t, c), d)
  {
  }

  lemma EndSenderKeepsCall(s: State, t: ThreadId, c: ContextId, j: CallId)
    requires MayEndSender(s, t, c) && j in EndSenderDone(s, t, c).calls
    requires j in s.calls && CallInv(s, j)
    requires TopInv(s, t)
    requires ContextInv(s, c)
    ensures CallInv(EndSenderDone(s, t, c), j)
  {
  }

  lemma EndSenderKeepsFrame(s: State, t: ThreadId, c: ContextId, v: ThreadId, i: nat)
    requires MayEndSender(s, t, c) && i < |EndSenderDone(s, t, c).Frames(v)|
    requires i < |s.Frames(v)| ==> FrameInv(s, v, i)
    requires TopInv(s, t)
    requires ContextInv(s, c)
    ensures FrameInv(EndSenderDone(s, t, c), v, i)
  {
  }

  lemma EndSenderKeepsInv(s: State, t: ThreadId, c: ContextId)
    requires Inv(s) && MayEndSender(s, t, c)
    ensures Inv(EndSenderDone(s, t, c)) && SameForks(s, EndSenderDone(s, t, c))
  {
    var s' := EndSenderDone(s, t, c);
    assert TopInv(s, t);
    forall d | d in s'.contexts ensures ContextInv(s', d) { EndSenderKeepsContext(s, t, c, d); }
    forall j | j in s'.calls ensures CallInv(s', j) { EndSenderKeepsCall(s, t, c, j); }
    forall v: ThreadId, i: nat | i < |s'.Frames(v)| ensures FrameInv(s', v, i) {
      EndSenderKeepsFrame(s, t, c, v, i);
    }
  }

  lemma CallNobodyKeepsContext(s: State, t: ThreadId, k: CallId, must: bool, d: ContextId)
    requires MayCallNobody(s, t, k, must) && d in CallNobodyDone(s, t, k, must).contexts
    requires d in s.contexts && ContextInv(s, d)
    requires TopInv(s, t)
    ensures ContextInv(CallNobodyDone(s, t, k, must), d)
  {
  }

  lemma CallNobodyKeepsCall(s: State, t: ThreadId, k: CallId, must: bool, j: CallId)
    requires MayCallNobody(s, t, k, must) && j in CallNobodyDone(s, t, k, must).calls
    requires j in s.calls ==> CallInv(s, j)
    requires TopInv(s, t)
    ensures CallInv(CallNobodyDone(s, t, k, must), j)
  {
  }

  lemma CallNobodyKeepsFrame(s: State, t: ThreadId, k: CallId, must: bool, v: ThreadId, i: nat)
    requires MayCallNobody(s, t, k, must) && i < |CallNobodyDone(s, t, k, must).Frames(v)|
    requires i < |s.Frames(v)| ==> FrameInv(s, v, i)
    requires TopInv(s, t)
    ensures FrameInv(CallNobodyDone(s, t, k, must), v, i)
  {
  }

  lemma CallNobodyKeepsInv(s: State, t: ThreadId, k: CallId, must: bool)
    requires Inv(s) && MayCallNobody(s, t, k, must)
    ensures Inv(CallNobodyDone(s, t, k, must)) && SameForks(s, CallNobodyDone(s, t, k, must))
  {
    var s' := CallNobodyDone(s, t, k, must);
    assert TopInv(s, t);
    forall d | d in s'.contexts ensures ContextInv(s', d) { CallNobodyKeepsContext(s, t, k, must, d); }
    forall j | j in s'.calls ensures CallInv(s', j) { CallNobodyKeepsCall(s, t, k, must, j); }
    forall v: ThreadId, i: nat | i < |s'.Frames(v)| ensures FrameInv(s', v, i) {
      CallNobodyKeepsFrame(s, t, k, must, v, i);
    }
  }

  lemma CallTopKeepsItsContext(s: State, t: ThreadId, k: CallId, must: bool, c: ContextId)
    requires MayCallTop(s, t, k, must, c) && ContextInv(s, c) && TopInv(s, t)
    ensures ContextInv(CallTopDone(s, t, k, must, c), c)
  {
  }

  lemma CallTopKeepsContext(s: State, t: ThreadId, k: CallId, must: bool, c: ContextId, d: ContextId)
    requires MayCallTop(s, t, k, must, c) && d in CallTopDone(s, t, k, must, c).contexts && d != c
    requires d in s.contexts && ContextInv(s, d)
    requires TopInv(s, t)
    requires ContextInv(s, c)
    ensures ContextInv(CallTopDone(s, t, k, must, c), d)
  {
  }

  lemma CallTopKeepsCall(s: State, t: ThreadId, k: CallId, must: bool, c: ContextId, j: CallId)
    requires MayCallTop(s, t, k, must, c) && j in CallTopDone(s, t, k, must, c).calls
    requires j in s.calls ==> CallInv(s, j)
    requires TopInv(s, t)
    requires ContextInv(s, c)
    ensures CallInv(CallTopDone(s, t, k, must, c), j)
  {
  }

  lemma CallTopKeepsFrame(s: State, t: ThreadId, k: CallId, must: bool, c: ContextId, v: ThreadId, i: nat)
    requires MayCallTop(s, t, k, must, c) && i < |CallTopDone(s, t, k, must, c).Frames(v)|
    requires i < |s.Frames(v)| ==> FrameInv(s, v, i)
    requires TopInv(s, t)
    requires ContextInv(s, c)
    ensures FrameInv(CallTopDone(s, t, k, must, c), v, i)
  {
  }

  lemma CallTopKeepsInv(s: State, t: ThreadId, k: CallId, must: bool, c: ContextId)
    requires Inv(s) && MayCallTop(s, t, k, must, c)
    ensures Inv(CallTopDone(s, t, k, must, c))
  {
    var s' := CallTopDone(s, t, k, must, c);
    assert TopInv(s, t);
    forall d | d in s'.contexts ensures ContextInv(s', d) {
      if d == c { CallTopKeepsItsContext(s, t, k, must, c); } else { CallTopKeepsContext(s, t, k, must, c, d); }
    }
    forall j | j in s'.calls ensures CallInv(s', j) { CallTopKeepsCall(s, t, k, must, c, j); }
    forall v: ThreadId, i: nat | i < |s'.Frames(v)| ensures FrameInv(s', v, i) {
      CallTopKeepsFrame(s, t, k, must, c, v, i);
    }
  }

  lemma CallTopKeepsForks(s: State, t: ThreadId, k: CallId, must: bool, c: ContextId)
    requires MayCallTop(s, t, k, must, c)
    ensures SameForks(s, CallTopDone(s, t, k, must, c))
  {
  }

  lemma HandleReturnsKeepsContext(s: State, t: ThreadId, k: CallId, d: ContextId)
    requires MayHandleReturns(s, t, k) && d in HandleReturnsDone(s, t, k).contexts
    requires d in s.contexts && ContextInv(s, d)
    requires TopInv(s, t)
    ensures ContextInv(HandleReturnsDone(s, t, k), d)
  {
  }

  lemma HandleReturnsKeepsCall(s: State, t: ThreadId, k: CallId, j: CallId)
    requires MayHandleReturns(s, t, k) && j in HandleReturnsDone(s, t, k).calls
    requires j in s.calls && CallInv(s, j)
    requires TopInv(s, t)
    ensures CallInv(HandleReturnsDone(s, t, k), j)
  {
  }

  lemma HandleReturnsKeepsFrame(s: State, t: ThreadId, k: CallId, v: ThreadId, i: nat)
    requires MayHandleReturns(s, t, k) && i < |HandleReturnsDone(s, t, k).Frames(v)|
    requires i < |s.Frames(v)| ==> FrameInv(s, v, i)
    requires TopInv(s, t)
    ensures FrameInv(HandleReturnsDone(s, t, k), v, i)
  {
    assert HandleReturnsDone(s, t, k).Frames(v) == if v == t then s.Frames(v)[..|s.Frames(v)| - 1] else s.Frames(v);
  }

  lemma HandleReturnsKeepsInv(s: State, t: ThreadId, k: CallId)
    requires Inv(s) && MayHandleReturns(s, t, k)
    ensures Inv(HandleReturnsDone(s, t, k)) && SameForks(s, HandleReturnsDone(s, t, k))
  {
    var s' := HandleReturnsDone(s, t, k);
    assert TopInv(s, t);
    forall d | d in s'.contexts ensures ContextInv(s', d) { HandleReturnsKeepsContext(s, t, k, d); }
    forall j | j in s'.calls ensures CallInv(s', j) { HandleReturnsKeepsCall(s, t, k, j); }
    forall v: ThreadId, i: nat | i < |s'.Frames(v)| ensures FrameInv(s', v, i) {
      HandleReturnsKeepsFrame(s, t, k, v, i);
    }
  }

  lemma EndDirectKeepsContext(s: State, t: ThreadId, k: CallId, d: ContextId)
    requires MayEndDirect(s, t, k) && d in EndDirectDone(s, t, k).contexts
    requires d in s.contexts && ContextInv(s, d)
    requires TopInv(s, t)
    ensures ContextInv(EndDirectDone(s, t, k), d)
  {
  }

  lemma EndDirectKeepsCall(s: State, t: ThreadId, k: CallId, j: CallId)
    requires MayEndDirect(s, t, k) && j in EndDirectDone(s, t, k).calls
    requires j in s.calls && CallInv(s, j)
    requires TopInv(s, t)
    ensures CallInv(EndDirectDone(s, t, k), j)
  {
  }

  lemma EndDirectKeepsFrame(s: State, t: ThreadId, k: CallId, v: ThreadId, i: nat)
    requires MayEndDirect(s, t, k) && i < |EndDirectDone(s, t, k).Frames(v)|
    requires i < |s.Frames(v)| ==> FrameInv(s, v, i)
    requires TopInv(s, t)
    ensures FrameInv(EndDirectDone(s, t, k), v, i)
  {
    assert EndDirectDone(s, t, k).Frames(v) == if v == t then s.Frames(v)[..|s.Frames(v)| - 1] else s.Frames(v);
  }

  lemma EndDirectKeepsInv(s: State, t: ThreadId, k: CallId)
    requires Inv(s) && MayEndDirect(s, t, k)
    ensures Inv(EndDirectDone(s, t, k)) && SameForks(s, EndDirectDone(s, t, k))
  {
    var s' := EndDirectDone(s, t, k);
    assert TopInv(s, t);
    forall d | d in s'.contexts ensures ContextInv(s', d) { EndDirectKeepsContext(s, t, k, d); }
    forall j | j in s'.calls ensures CallInv(s', j) { EndDirectKeepsCall(s, t, k, j); }
    forall v: ThreadId, i: nat | i < |s'.Frames(v)| ensures FrameInv(s', v, i) {
      EndDirectKeepsFrame(s, t, k, v, i);
    }
  }

  lemma SenderKeepsInv(s: State, u: ThreadId, c: ContextId)
    requires Inv(s) && Enabled(s, SenderStep(u, c))
    ensures Inv(SenderDone(s, u, c)) && SameForks(s, SenderDone(s, u, c))
  {
    match s.contexts[c].stage
    case FnDone => LockKeepsInv(s, u, c);
    case HasLock => ResetGuardKeepsInv(s, u, c);
    case GuardReset => EraseContextKeepsInv(s, u, c);
    case Erased => SetPromiseKeepsInv(s, u, c);
    case Promised => EndSenderKeepsInv(s, u, c);
  }

  lemma ForkStepKeepsInv(s: State, a: Choice)
    requires Inv(s) && Enabled(s, a)
    requires a.CallFork? || a.MakeGuard? || a.Spawn? || a.RunReturns? || a.ForkReturns? || a.FnReturns?
    ensures Inv(Apply(s, a)) && SameForks(s, Apply(s, a))
  {
    match a
    case CallFork(t, c) =>
      CallForkKeepsInv(s, t, c);
      CallForkKeepsForks(s, t, c);
    case MakeGuard(t, c) => MakeGuardKeepsInv(s, t, c);
    case Spawn(t, c, u) => SpawnKeepsInv(s, t, c, u);
    case RunReturns(t, c) => RunReturnsKeepsInv(s, t, c);
    case ForkReturns(t, c) => ForkReturnsKeepsInv(s, t, c);
    case FnReturns(u, c, v) => FnReturnsKeepsInv(s, u, c, v);
  }

  lemma CallStepKeepsInv(s: State, a: Choice)
    requires Inv(s) && Enabled(s, a)
    requires a.RunTask? || a.EndTask? || a.CallHandle? || a.HandleReturns? || a.EndDirect?
    ensures Inv(Apply(s, a)) && SameForks(s, Apply(s, a))
  {
    match a
    case RunTask(t, c) => RunTaskKeepsInv(s, t, c);
    case EndTask(t, k) => EndTaskKeepsInv(s, t, k);
    case CallHandle(t, k, must) =>
      if s.stack == [] {
        CallNobodyKeepsInv(s, t, k, must);
      } else {
        CallTopKeepsInv(s, t, k, must, Top(s.stack));
        CallTopKeepsForks(s, t, k, must, Top(s.stack));
      }
    case HandleReturns(t, k) => HandleReturnsKeepsInv(s, t, k);
    case EndDirect(t, k) => EndDirectKeepsInv(s, t, k);
  }

  /** One step of any thread keeps the invariant. */
  lemma StepKeepsInv(s: State, a: Choice)
    requires Inv(s)
    ensures Inv(Step(s, a)) && SameForks(s, Step(s, a))
  {
    if Enabled(s, a) {
      if a.SenderStep? {
        SenderKeepsInv(s, a.thread, a.ctx);
      } else if a.RunTask? || a.EndTask? || a.CallHandle? || a.HandleReturns? || a.EndDirect? {
        CallStepKeepsInv(s, a);
      } else {
        ForkStepKeepsInv(s, a);
      }
    }
  }

  lemma {:induction false} ReachableInv(choices: seq<Choice>)
    ensures Inv(Run(choices))
  {
    if choices != [] {
      ReachableInv(choices[..|choices| - 1]);
      StepKeepsInv(Run(choices[..|choices| - 1]), choices[|choices| - 1]);
    }
  }

  // ---------------------------------------------------------------------------
  // What holds in every reachable state
  // ---------------------------------------------------------------------------

  /** A fork that has returned gave back exactly the value of its own fn, and every call
      dispatched to it ran exactly once, to its end, on the thread that called fork. */
  lemma ForkRunsEverything(choices: seq<Choice>, c: ContextId)
    requires c in Run(choices).contexts && Run(choices).contexts[c].phase == Returned
    ensures var s := Run(choices);
      && s.contexts[c].returned.Some? && s.contexts[c].returned == s.contexts[c].fnValue
      && (forall k :: k in s.calls && s.calls[k].target == Some(c) ==>
            s.calls[k].status == Finished && s.calls[k].runs == [s.contexts[c].owner])
  {
    ReachableInv(choices);
    var s := Run(choices);
    assert ContextInv(s, c);
    forall k | k in s.calls && s.calls[k].target == Some(c)
      ensures s.calls[k].status == Finished && s.calls[k].runs == [s.contexts[c].owner]
    {
      assert CallInv(s, k);
    }
  }

  /** The fork that a call was dispatched to is still ahead of it: a queued call is in that
      context's queue, and a started one runs inside that fork's run(), directly above the
      fork on its thread's stack. */
  ghost predicate ForkAhead(s: State, k: CallId)
    requires k in s.calls && s.calls[k].target.Some?
  {
    var c := s.calls[k].target.value;
    && c in s.contexts && s.contexts[c].phase in {Pushed, Guarded, Running}
    && var frames, at := s.Frames(s.contexts[c].owner), s.contexts[c].depth;
       && at < |frames| && frames[at] == Fork(c)
       && (s.calls[k].status == Queued ==> k in s.contexts[c].queue)
       && (s.calls[k].status == Started ==>
             s.contexts[c].phase == Running && at + 1 < |frames| && frames[at + 1] == InTask(k))
  }

  lemma UnfinishedHasForkAhead(s: State, k: CallId)
    requires Inv(s) && k in s.calls && s.calls[k].target.Some? && s.calls[k].status != Finished
    ensures ForkAhead(s, k)
  {
    assert CallInv(s, k);
    var c := s.calls[k].target.value;
    assert ContextInv(s, c);
    assert FrameInv(s, s.contexts[c].owner, s.contexts[c].depth);
  }

  /** No call is left behind: one that has not finished has its fork ahead of it. */
  lemma NoCallIsAbandoned(choices: seq<Choice>, k: CallId)
    requires k in Run(choices).calls && Run(choices).calls[k].target.Some?
    requires Run(choices).calls[k].status != Finished
    ensures ForkAhead(Run(choices), k)
  {
    ReachableInv(choices);
    UnfinishedHasForkAhead(Run(choices), k);
  }

  /** Whenever the mutex is free, the stack holds exactly the contexts whose guard has not
      been reset. That these are the contexts whose guard is held is true of a context if and
      only if its fork is past the moment between pushing it and making the guard. */
  lemma StackIsTheLiveForks(choices: seq<Choice>, c: ContextId)
    requires Run(choices).mutex.None? && c in Run(choices).contexts
    ensures var s := Run(choices);
      && (c in s.stack <==> s.contexts[c].guard != Reset)
      && ((c in s.stack <==> s.contexts[c].guard == Held) <==> s.contexts[c].phase != Pushed)
      && NoRepeats(s.stack)
  {
    ReachableInv(choices);
    assert ContextInv(Run(choices), c);
  }

  /** At that moment the mutex is free and the context is on the stack without a guard. */
  lemma StackedBeforeGuarded()
    ensures exists choices: seq<Choice> ::
      var s := Run(choices);
      s.mutex.None? && 0 in s.contexts && 0 in s.stack && s.contexts[0].guard == Absent
  {
    RunStep([], CallFork(0, 0));
    var s := Run([] + [CallFork(0, 0)]);
    assert s.stack == [0];
    assert s.mutex.None? && 0 in s.contexts && 0 in s.stack && s.contexts[0].guard == Absent;
  }

  /** A call of handle that has returned ran its function exactly once: on its own thread if
      and only if the stack was empty when it took the lock, else on the thread of the fork
      it was dispatched to. maybe_handle never runs the function on its own thread. */
  lemma HandleRunsOnce(choices: seq<Choice>, k: CallId)
    requires k in Run(choices).calls && Run(choices).calls[k].returned
    ensures var s := Run(choices);
      var x := s.calls[k];
      && (x.target.None? <==> x.sawEmpty)
      && (x.sawEmpty ==> x.runs == if x.must then [x.caller] else [])
      && (!x.sawEmpty ==>
            x.target.value in s.contexts && x.runs == [s.contexts[x.target.value].owner] && x.status == Finished)
  {
    ReachableInv(choices);
    assert CallInv(Run(choices), k);
  }

  /** Of two contexts that one thread has on the stack, the upper is the inner fork. */
  ghost predicate Nested(contexts: map<ContextId, Context>, stack: seq<ContextId>) {
    && (forall c :: c in stack ==> c in contexts)
    && (forall i, j :: 0 <= i < j < |stack| && contexts[stack[i]].owner == contexts[stack[j]].owner ==>
          contexts[stack[i]].depth < contexts[stack[j]].depth)
  }

  lemma EraseKeepsNesting(contexts: map<ContextId, Context>, stack: seq<ContextId>, c: ContextId)
    requires Nested(contexts, stack)
    ensures Nested(contexts, Erase(stack, c))
  {
    if c in stack {
      var p := ErasePosition(stack, c);
      ErasedIn(stack, Erase(stack, c), p);
      NestedWithout(contexts, stack, Erase(stack, c), p);
    }
  }

  lemma NestedWithout(contexts: map<ContextId, Context>, stack: seq<ContextId>, r: seq<ContextId>, p: nat)
    requires Nested(contexts, stack) && |r| == |stack| - 1
    requires forall i :: 0 <= i < |r| ==> r[i] == stack[if i < p then i else i + 1]
    ensures Nested(contexts, r)
  {
  }

  lemma ErasedIn(stack: seq<ContextId>, r: seq<ContextId>, p: nat)
    requires p < |stack| && r == stack[..p] + stack[p + 1..]
    ensures |r| == |stack| - 1 && forall i :: 0 <= i < |r| ==> r[i] == stack[if i < p then i else i + 1]
  {
  }

  lemma PushKeepsNesting(contexts: map<ContextId, Context>, stack: seq<ContextId>, c: ContextId)
    requires Nested(contexts, stack) && c in contexts
    requires forall d :: d in stack && contexts[d].owner == contexts[c].owner ==> contexts[d].depth < contexts[c].depth
    ensures Nested(contexts, stack + [c])
  {
  }

  lemma SameForksKeepNesting(s: State, s': State, stack: seq<ContextId>)
    requires Nested(s.contexts, stack) && SameForks(s, s')
    ensures Nested(s'.contexts, stack)
  {
  }

  lemma ForkKeepsNesting(s: State, t: ThreadId, c: ContextId)
    requires Inv(s) && MayCallFork(s, t, c) && Nested(s.contexts, s.stack) && SameForks(s, CallForkDone(s, t, c))
    ensures Nested(CallForkDone(s, t, c).contexts, CallForkDone(s, t, c).stack)
  {
    var s' := CallForkDone(s, t, c);
    SameForksKeepNesting(s, s', s.stack);
    forall d | d in s.stack && s.contexts[d].owner == t ensures s.contexts[d].depth < |s.Frames(t)| {
      assert ContextInv(s, d);
    }
    PushKeepsNesting(s'.contexts, s.stack, c);
  }

  /** Only a fork and an erasure change the stack. */
  lemma StackSteps(s: State, a: Choice)
    requires Enabled(s, a) && !a.CallFork?
    ensures Apply(s, a).stack == s.stack || (a.SenderStep? && Apply(s, a).stack == Erase(s.stack, a.ctx))
  {
  }

  lemma StepKeepsNesting(s: State, a: Choice)
    requires Inv(s) && Nested(s.contexts, s.stack)
    ensures Nested(Step(s, a).contexts, Step(s, a).stack)
  {
    StepKeepsInv(s, a);
    SameForksKeepNesting(s, Step(s, a), s.stack);
    if Enabled(s, a) {
      if a.CallFork? {
        ForkKeepsNesting(s, a.thread, a.ctx);
      } else {
        StackSteps(s, a);
        if a.SenderStep? { EraseKeepsNesting(Apply(s, a).contexts, s.stack, a.ctx); }
      }
    }
  }

  lemma {:induction false} ReachableNested(choices: seq<Choice>)
    ensures Nested(Run(choices).contexts, Run(choices).stack)
  {
    if choices != [] {
      var before := choices[..|choices| - 1];
      ReachableNested(before);
      ReachableInv(before);
      StepKeepsNesting(Run(before), choices[|choices| - 1]);
    }
  }

  /** Whatever handle dispatches to, the context on top, is the innermost fork of its thread
      that is still on the stack. */
  lemma TopIsInnermost(choices: seq<Choice>, c: ContextId)
    requires Run(choices).stack != [] && c in Run(choices).stack
    ensures var s := Run(choices);
      var top := s.stack[|s.stack| - 1];
      && top in s.contexts && c in s.contexts
      && (s.contexts[c].owner == s.contexts[top].owner && c != top ==> s.contexts[c].depth < s.contexts[top].depth)
  {
    ReachableNested(choices);
    var s := Run(choices);
    assert s.stack[|s.stack| - 1] in s.stack;
    var i :| 0 <= i < |s.stack| && s.stack[i] == c;
  }

  /** The mutex excludes: at most one sender is in its critical section. */
  lemma OneSenderInSection(choices: seq<Choice>, c: ContextId, d: ContextId)
    requires c in Run(choices).contexts && d in Run(choices).contexts
    requires InSection(Run(choices).contexts[c].stage) && InSection(Run(choices).contexts[d].stage)
    ensures c == d
  {
    ReachableInv(choices);
    assert ContextInv(Run(choices), c) && ContextInv(Run(choices), d);
  }

  lemma RunStep(choices: seq<Choice>, a: Choice)
    ensures Run(choices + [a]) == Step(Run(choices), a)
  {
    assert (choices + [a])[..|choices|] == choices;
  }

  /** An outer fork can finish first: from one state to the next, thread 0 forks, runs a call
      of thread 1 that forks again, and the outer sender then erases its context from below
      the inner one while the outer run() is still running that call. */
  lemma OuterForkMayFinishFirst()
    ensures exists choices: seq<Choice> ::
      var s := Run(choices);
      0 in s.contexts && 1 in s.contexts && s.stack == [1]
      && s.contexts[0].phase == Running && s.contexts[0].stage == Erased
      && s.contexts[1].owner == s.contexts[0].owner && s.contexts[1].depth > s.contexts[0].depth
  {
    var c0 := StartOuterFork();
    var c1 := ForkInside(c0);
    RunStep(c1, FnReturns(10, 0, 5));
    var c2 := c1 + [FnReturns(10, 0, 5)];
    RunStep(c2, SenderStep(10, 0));
    var c3 := c2 + [SenderStep(10, 0)];
    OuterLocks(Run(c1), Run(c2), Run(c3));
    RunStep(c3, SenderStep(10, 0));
    var c4 := c3 + [SenderStep(10, 0)];
    RunStep(c4, SenderStep(10, 0));
    var c5 := c4 + [SenderStep(10, 0)];
    OuterErases(Run(c3), Run(c4), Run(c5));
  }

  /** Thread 0 has forked context 1 from inside the run() of context 0. */
  ghost predicate InnerForked(s: State, stage: Stage) {
    && 0 in s.contexts && 1 in s.contexts && s.stack == [0, 1]
    && s.contexts[0].phase == Running && s.contexts[0].stage == stage && s.contexts[0].owner == s.contexts[1].owner
    && s.contexts[0].depth == 0 && s.contexts[1].depth == 2
    && s.Frames(10) == [Sending(0)]
  }

  lemma OuterLocks(s1: State, s2: State, s3: State)
    requires InnerForked(s1, InFn) && s1.mutex == None
    requires s2 == Step(s1, FnReturns(10, 0, 5)) && s3 == Step(s2, SenderStep(10, 0))
    ensures InnerForked(s3, HasLock)
  {
  }

  lemma OuterErases(s3: State, s4: State, s5: State)
    requires InnerForked(s3, HasLock)
    requires s4 == Step(s3, SenderStep(10, 0)) && s5 == Step(s4, SenderStep(10, 0))
    ensures 0 in s5.contexts && 1 in s5.contexts && s5.stack == [1]
    ensures s5.contexts[0].phase == Running && s5.contexts[0].stage == Erased
    ensures s5.contexts[1].owner == s5.contexts[0].owner && s5.contexts[1].depth > s5.contexts[0].depth
  {
  }

  /** Thread 0 is in the run() of context 0, whose sender is thread 10. */
  ghost predicate OuterForked(s: State) {
    && 0 in s.contexts && 1 !in s.contexts
    && s.contexts[0] == Context(0, 10, 0, Running, InFn, Held, [], None, None, None)
    && s.calls == map[] && s.stack == [0] && s.mutex == None
    && s.threads == map[0 := [Fork(0)], 10 := [Sending(0)]]
  }

  lemma StartOuterFork() returns (choices: seq<Choice>)
    ensures OuterForked(Run(choices))
  {
    RunStep([], CallFork(0, 0));
    var c1 := [] + [CallFork(0, 0)];
    assert Run(c1).contexts == map[0 := Context(0, 0, 0, Pushed, NotSpawned, Absent, [], None, None, None)];
    assert Run(c1).Frames(0) == [Fork(0)];
    assert Run(c1).threads == map[0 := [Fork(0)]];
    RunStep(c1, MakeGuard(0, 0));
    var c2 := c1 + [MakeGuard(0, 0)];
    assert Run(c2).contexts == map[0 := Context(0, 0, 0, Guarded, NotSpawned, Held, [], None, None, None)];
    assert Run(c2).threads == map[0 := [Fork(0)]] && Run(c2).Frames(10) == [];
    RunStep(c2, Spawn(0, 0, 10));
    choices := c2 + [Spawn(0, 0, 10)];
    assert [] + [Sending(0)] == [Sending(0)];
  }

  lemma ForkInside(c0: seq<Choice>) returns (choices: seq<Choice>)
    requires OuterForked(Run(c0))
    ensures InnerForked(Run(choices), InFn) && Run(choices).mutex == None
  {
    RunStep(c0, CallHandle(1, 0, true));
    var c1 := c0 + [CallHandle(1, 0, true)];
    DispatchToOuter(Run(c0));
    RunStep(c1, RunTask(0, 0));
    var c2 := c1 + [RunTask(0, 0)];
    RunInOuter(Run(c1));
    RunStep(c2, CallFork(0, 1));
    choices := c2 + [CallFork(0, 1)];
  }

  /** Context 0 is forked by thread 0, and its fn still runs on thread 10. */
  ghost predicate OuterRuns(s: State) {
    && 0 in s.contexts && 1 !in s.contexts && s.stack == [0] && s.mutex == None
    && s.contexts[0].phase == Running && s.contexts[0].stage == InFn
    && s.contexts[0].owner == 0 && s.contexts[0].depth == 0
    && s.Frames(10) == [Sending(0)]
  }

  lemma DispatchToOuter(s: State)
    requires OuterForked(s)
    ensures var s' := Step(s, CallHandle(1, 0, true));
      OuterRuns(s') && s'.contexts[0].queue == [0] && 0 in s'.calls && s'.Frames(0) == [Fork(0)]
  {
  }

  lemma RunInOuter(s: State)
    requires OuterRuns(s) && s.contexts[0].queue == [0] && 0 in s.calls && s.Frames(0) == [Fork(0)]
    ensures var s' := Step(s, RunTask(0, 0));
      OuterRuns(s') && s'.Frames(0) == [Fork(0), InTask(0)]
  {
  }
}
