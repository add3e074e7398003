/**
 Whole runs of the mutual recursion helper: which fork a call is dispatched to, in which
 order a fork runs the calls dispatched to it, and whose value it returns.
 */
module MutualRecursionRuns {
  import opened Common
  import opened MutualRecursion

  /** A call of handle that finds forks on the stack is posted to the last one pushed. Of all
      the forks on the stack of the thread that it will run on, that is the innermost. */
  lemma HandleGoesToTheInnermostFork(choices: seq<Choice>, t: ThreadId, k: CallId, must: bool)
    requires Enabled(Run(choices), CallHandle(t, k, must)) && Run(choices).stack != []
    ensures var s, s' := Run(choices), Run(choices + [CallHandle(t, k, must)]);
      var top := s.stack[|s.stack| - 1];
      && k in s'.calls && s'.calls[k].target == Some(top) && s'.calls[k].caller == t && s'.calls[k].runs == []
      && top in s.contexts && top in s'.contexts
      && s'.contexts[top].queue == s.contexts[top].queue + [k]
      && (forall c :: c in s.stack && c != top ==>
            c in s.contexts
            && (s.contexts[c].owner == s.contexts[top].owner ==> s.contexts[c].depth < s.contexts[top].depth))
  {
    RunStep(choices, CallHandle(t, k, must));
    forall c | c in Run(choices).stack
      ensures var s := Run(choices);
        var top := s.stack[|s.stack| - 1];
        && top in s.contexts && c in s.contexts
        && (s.contexts[c].owner == s.contexts[top].owner && c != top ==> s.contexts[c].depth < s.contexts[top].depth)
    {
      TopIsInnermost(choices, c);
    }
  }

  /** With no fork on the stack handle calls the function itself, at once, and maybe_handle
      returns without having called it. */
  lemma HandleWithoutForks(choices: seq<Choice>, t: ThreadId, k: CallId, must: bool)
    requires Enabled(Run(choices), CallHandle(t, k, must)) && Run(choices).stack == []
    ensures var s, s' := Run(choices), Run(choices + [CallHandle(t, k, must)]);
      && k in s'.calls && s'.calls[k].target == None && s'.contexts == s.contexts
      && s'.Frames(t) == s.Frames(t) + (if must then [Direct(k)] else [])
      && s'.calls[k].runs == (if must then [t] else []) && s'.calls[k].returned == !must
  {
    RunStep(choices, CallHandle(t, k, must));
    CalledDirectly(Run(choices), t, k, must);
  }

  lemma CalledDirectly(s: State, t: ThreadId, k: CallId, must: bool)
    requires MayCallNobody(s, t, k, must)
    ensures var s' := Step(s, CallHandle(t, k, must));
      && k in s'.calls && s'.calls[k].target == None && s'.contexts == s.contexts
      && s'.Frames(t) == s.Frames(t) + (if must then [Direct(k)] else [])
      && s'.calls[k].runs == (if must then [t] else []) && s'.calls[k].returned == !must
  {
    assert s.Frames(t) + [] == s.Frames(t);
  }

  // ---------------------------------------------------------------------------
  // Calls run in the order of their dispatch
  // ---------------------------------------------------------------------------

  /** The calls made while context c was the last one on the stack, in that order. */
  function Dispatched(choices: seq<Choice>, c: ContextId): seq<CallId> {
    if choices == [] then []
    else
      var before, a := choices[..|choices| - 1], choices[|choices| - 1];
      var s := Run(before);
      if a.CallHandle? && Enabled(s, a) && s.stack != [] && s.stack[|s.stack| - 1] == c
      then Dispatched(before, c) + [a.call]
      else Dispatched(before, c)
  }

  /** The calls that the run() of context c has begun, in that order. */
  function Begun(choices: seq<Choice>, c: ContextId): seq<CallId> {
    if choices == [] then []
    else
      var before, a := choices[..|choices| - 1], choices[|choices| - 1];
      if a.RunTask? && a.ctx == c && Enabled(Run(before), a)
      then Begun(before, c) + TaskOnTop(Run(choices), a.thread)
      else Begun(before, c)
  }

  /** The call whose function thread t is running. */
  function TaskOnTop(s: State, t: ThreadId): seq<CallId> {
    if s.Frames(t) != [] && s.Frames(t)[|s.Frames(t)| - 1].InTask?
    then [s.Frames(t)[|s.Frames(t)| - 1].call]
    else []
  }

  function QueueOf(s: State, c: ContextId): seq<CallId> {
    if c in s.contexts then s.contexts[c].queue else []
  }

  /** The run() of a fork begins the calls dispatched to it one by one, each once, in the order
      of their dispatch: what it has not begun is waiting in its queue, in that order. */
  lemma {:induction false} CallsRunInOrder(choices: seq<Choice>, c: ContextId)
    ensures Dispatched(choices, c) == Begun(choices, c) + QueueOf(Run(choices), c)
  {
    if choices != [] {
      var before, a := choices[..|choices| - 1], choices[|choices| - 1];
      CallsRunInOrder(before, c);
      ReachableNested(before);
      var s := Run(before);
      if Enabled(s, a) {
        if a.RunTask? {
          TaskBegins(s, a.thread, a.ctx, c);
        } else if a.CallHandle? {
          CallIsQueued(s, a.thread, a.call, a.must, c);
        } else {
          QueueKept(s, a, c);
        }
      }
    }
  }

  lemma TaskBegins(s: State, t: ThreadId, d: ContextId, c: ContextId)
    requires Enabled(s, RunTask(t, d))
    ensures var s' := Step(s, RunTask(t, d));
      QueueOf(s, c) == (if d == c then TaskOnTop(s', t) else []) + QueueOf(s', c)
  {
  }

  lemma CallIsQueued(s: State, t: ThreadId, k: CallId, must: bool, c: ContextId)
    requires Enabled(s, CallHandle(t, k, must)) && Nested(s.contexts, s.stack)
    ensures var s' := Step(s, CallHandle(t, k, must));
      QueueOf(s', c) == QueueOf(s, c) + if s.stack != [] && s.stack[|s.stack| - 1] == c then [k] else []
  {
    assert s.stack != [] ==> s.stack[|s.stack| - 1] in s.stack;
  }

  lemma QueueKept(s: State, a: Choice, c: ContextId)
    requires Enabled(s, a) && !a.RunTask? && !a.CallHandle?
    ensures QueueOf(Step(s, a), c) == QueueOf(s, c)
  {
  }

  // ---------------------------------------------------------------------------
  // fork returns what its function returned
  // ---------------------------------------------------------------------------

  /** Choice i is the return of the function of fork c, with value v. */
  predicate FnReturnedAt(choices: seq<Choice>, i: nat, u: ThreadId, c: ContextId, v: Value) {
    i < |choices| && choices[i] == FnReturns(u, c, v) && Enabled(Run(choices[..i]), choices[i])
  }

  lemma {:induction false} ValueCameFromFn(choices: seq<Choice>, c: ContextId) returns (i: nat, u: ThreadId)
    requires c in Run(choices).contexts && Run(choices).contexts[c].fnValue.Some?
    ensures FnReturnedAt(choices, i, u, c, Run(choices).contexts[c].fnValue.value)
  {
    if choices == [] {
      assert false;
    } else {
      var before, a := choices[..|choices| - 1], choices[|choices| - 1];
      var s := Run(before);
      if Enabled(s, a) && a.FnReturns? && a.ctx == c {
        i, u := |before|, a.thread;
      } else {
        ValueKept(s, a, c);
        i, u := ValueCameFromFn(before, c);
        assert choices[..i] == before[..i];
      }
    }
  }

  lemma ValueKept(s: State, a: Choice, c: ContextId)
    requires !(Enabled(s, a) && a.FnReturns? && a.ctx == c)
    requires c in Step(s, a).contexts && Step(s, a).contexts[c].fnValue.Some?
    ensures c in s.contexts && s.contexts[c].fnValue == Step(s, a).contexts[c].fnValue
  {
    if Enabled(s, a) {
      if a.SenderStep? { SenderKeepsValue(s, a.thread, a.ctx, c); } else { OthersKeepValue(s, a, c); }
    }
  }

  lemma SenderKeepsValue(s: State, u: ThreadId, d: ContextId, c: ContextId)
    requires Enabled(s, SenderStep(u, d)) && c in SenderDone(s, u, d).contexts
    ensures c in s.contexts && s.contexts[c].fnValue == SenderDone(s, u, d).contexts[c].fnValue
  {
  }

  lemma OthersKeepValue(s: State, a: Choice, c: ContextId)
    requires Enabled(s, a) && !a.SenderStep? && !(a.FnReturns? && a.ctx == c)
    requires c in Apply(s, a).contexts && Apply(s, a).contexts[c].fnValue.Some?
    ensures c in s.contexts && s.contexts[c].fnValue == Apply(s, a).contexts[c].fnValue
  {
  }

  /** A fork that has returned gave back the very value with which its function returned. */
  lemma ForkReturnsTheValueOfFn(choices: seq<Choice>, c: ContextId)
    requires c in Run(choices).contexts && Run(choices).contexts[c].phase == Returned
    ensures exists i: nat, u, v :: FnReturnedAt(choices, i, u, c, v) && Run(choices).contexts[c].returned == Some(v)
  {
    ForkRunsEverything(choices, c);
    var i, u := ValueCameFromFn(choices, c);
  }
}
