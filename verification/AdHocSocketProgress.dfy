/**
 Progress of the request/response layer: while the other side listens, no call is ever in a
 place from which it cannot return. From every reachable state a few steps, each of them
 possible, take any given call to its end.
 */
module AdHocSocketProgress {
  import opened Common
  import opened AdHocSocket

  /** Where the exchange of call c on the primary socket, or on its own, has come to. */
  function PrimaryRank(s: State): nat {
    if s.toClient != [] then 3 else if s.handling.Some? then 4 else 5
  }

  function SocketRank(x: Socket): nat {
    if x.toClient != [] then 1
    else if x.serving.Handling? then 2
    else if x.serving.Accepted? then 3
    else 4
  }

  /** How many steps call c is away from its end, for a call that waits for nobody's lock. */
  function OwnRank(s: State, c: CallId): (n: nat)
    requires c in s.calls
    ensures n <= 7
  {
    match s.calls[c].stage
    case Ready => 7
    case Connecting => 6
    case PrimaryWrite => 6
    case PrimaryRead => PrimaryRank(s)
    case PrimaryGot => 2
    case PrimaryUnlock => 1
    case SecondaryWrite => 5
    case SecondaryRead => if s.calls[c].socket in s.sockets then SocketRank(s.sockets[s.calls[c].socket]) else 0
    case MustLock => 7
    case _ => 0
  }

  /** And for any call: one that waits for the lock waits for its holder. */
  function Rank(s: State, c: CallId): (n: nat)
    requires c in s.calls
    ensures n <= 15
  {
    match s.calls[c].stage
    case Refused => 15
    case MustLock => if s.mutex.Some? && s.mutex.value in s.calls then 7 + OwnRank(s, s.mutex.value) else 7
    case _ => OwnRank(s, c)
  }

  /** A step that brings the call closer to its end: its own, or the other side's for it. */
  function OwnStep(s: State, c: CallId, k: SocketId): Choice
    requires c in s.calls
  {
    match s.calls[c].stage
    case Ready => TryLock(c, false)
    case Connecting => Connect(c, k)
    case Refused => TestFlag(c)
    case MustLock => Lock(c)
    case PrimaryWrite => Write(c)
    case PrimaryRead => if s.toClient != [] then Read(c) else if s.handling.Some? then AnswerPrimary(0) else ReadPrimary
    case PrimaryGot => SetFlag(c)
    case PrimaryUnlock => Unlock(c)
    case SecondaryWrite => Write(c)
    case _ => SocketStep(s, c, s.calls[c].socket)
  }

  function SocketStep(s: State, c: CallId, k: SocketId): Choice {
    if k !in s.sockets || s.sockets[k].toClient != [] then Read(c)
    else if s.sockets[k].serving.Handling? then AnswerSecondary(k, 0)
    else if s.sockets[k].serving.Accepted? then ReadSecondary(k)
    else Accept(k)
  }

  predicate OnPrimary(stage: Stage) {
    stage in {PrimaryWrite, PrimaryRead, PrimaryGot, PrimaryUnlock}
  }

  predicate OnOwn(stage: Stage) {
    stage in {SecondaryWrite, SecondaryRead}
  }

  /** The step is possible and leaves call c closer to its end, in a stage before Thrown. */
  ghost predicate Advances(s: State, a: Choice, c: CallId)
    requires c in s.calls
  {
    && Enabled(s, a)
    && var s' := Step(s, a);
       && s'.listening == s.listening
       && c in s'.calls && s'.calls[c].stage !in {Refused, Thrown} && Rank(s', c) < Rank(s, c)
  }

  /** The step of the lock's holder: it keeps the lock until it has done, and no other call
      notices anything else. */
  ghost predicate HolderSteps(s: State, a: Choice, c: CallId)
    requires c in s.calls
  {
    var s' := Step(s, a);
    && c in s'.calls && OwnRank(s', c) < OwnRank(s, c)
    && (s'.mutex == Some(c) || (s'.mutex == None && s.calls[c].stage == PrimaryUnlock))
    && forall j :: j != c && j in s.calls ==> j in s'.calls && s'.calls[j] == s.calls[j]
  }

  lemma PrimaryAdvances(s: State, c: CallId)
    requires c in s.calls && CallInv(s, c) && s.listening == Now && OnPrimary(s.calls[c].stage)
    ensures Advances(s, OwnStep(s, c, 0), c) && HolderSteps(s, OwnStep(s, c, 0), c)
  {
    match s.calls[c].stage
    case PrimaryWrite => PrimaryWriteAdvances(s, c);
    case PrimaryRead =>
      if s.toClient != [] {
        PrimaryReadAdvances(s, c);
      } else {
        PrimaryServerAdvances(s, c);
      }
    case PrimaryGot => FlagAdvances(s, c);
    case PrimaryUnlock => UnlockAdvances(s, c);
  }

  lemma PrimaryWriteAdvances(s: State, c: CallId)
    requires At(s, c, PrimaryWrite) && CallInv(s, c) && s.listening == Now
    ensures Advances(s, Write(c), c) && HolderSteps(s, Write(c), c)
  {
  }

  lemma PrimaryReadAdvances(s: State, c: CallId)
    requires At(s, c, PrimaryRead) && CallInv(s, c) && s.listening == Now && s.toClient != []
    ensures Advances(s, Read(c), c) && HolderSteps(s, Read(c), c)
  {
  }

  lemma PrimaryServerAdvances(s: State, c: CallId)
    requires At(s, c, PrimaryRead) && CallInv(s, c) && s.listening == Now && s.toClient == []
    ensures Advances(s, OwnStep(s, c, 0), c) && HolderSteps(s, OwnStep(s, c, 0), c)
  {
  }

  lemma FlagAdvances(s: State, c: CallId)
    requires At(s, c, PrimaryGot) && CallInv(s, c) && s.listening == Now
    ensures Advances(s, SetFlag(c), c) && HolderSteps(s, SetFlag(c), c)
  {
  }

  lemma UnlockAdvances(s: State, c: CallId)
    requires At(s, c, PrimaryUnlock) && CallInv(s, c) && s.listening == Now
    ensures Advances(s, Unlock(c), c) && HolderSteps(s, Unlock(c), c)
  {
  }

  lemma OwnAdvances(s: State, c: CallId)
    requires c in s.calls && CallInv(s, c) && s.listening == Now && OnOwn(s.calls[c].stage)
    ensures Advances(s, OwnStep(s, c, 0), c)
  {
    if s.calls[c].stage == SecondaryWrite {
      OwnWriteAdvances(s, c);
    } else if s.sockets[s.calls[c].socket].toClient != [] {
      OwnReadAdvances(s, c);
    } else {
      ServerAdvances(s, c);
    }
  }

  lemma OwnWriteAdvances(s: State, c: CallId)
    requires c in s.calls && CallInv(s, c) && s.listening == Now && s.calls[c].stage == SecondaryWrite
    ensures Advances(s, OwnStep(s, c, 0), c)
  {
  }

  lemma OwnReadAdvances(s: State, c: CallId)
    requires c in s.calls && CallInv(s, c) && s.listening == Now && s.calls[c].stage == SecondaryRead
    requires s.sockets[s.calls[c].socket].toClient != []
    ensures Advances(s, OwnStep(s, c, 0), c)
  {
  }

  lemma ServerAdvances(s: State, c: CallId)
    requires c in s.calls && CallInv(s, c) && s.listening == Now && s.calls[c].stage == SecondaryRead
    requires s.sockets[s.calls[c].socket].toClient == []
    ensures Advances(s, OwnStep(s, c, 0), c)
  {
  }

  lemma StartAdvances(s: State, c: CallId, k: SocketId)
    requires c in s.calls && CallInv(s, c) && s.listening == Now && k !in s.sockets
    requires s.calls[c].stage in {Ready, Connecting}
    ensures Advances(s, OwnStep(s, c, k), c)
  {
  }

  lemma LockAdvances(s: State, c: CallId)
    requires c in s.calls && s.calls[c].stage == MustLock && s.mutex.None?
    ensures Advances(s, Lock(c), c)
  {
  }

  lemma HolderAdvances(s: State, c: CallId, h: CallId)
    requires c in s.calls && s.calls[c].stage == MustLock && s.mutex == Some(h) && s.listening == Now
    requires h in s.calls && CallInv(s, h)
    ensures Advances(s, OwnStep(s, h, 0), c)
  {
    PrimaryAdvances(s, h);
  }

  /** Some step advances any call that has neither ended nor been refused. */
  lemma SomeStepAdvances(s: State, c: CallId) returns (a: Choice)
    requires Inv(s) && s.listening == Now && c in s.calls
    requires s.calls[c].stage !in {Refused, Done, Thrown}
    ensures Advances(s, a, c)
  {
    assert CallInv(s, c);
    var stage := s.calls[c].stage;
    if OnPrimary(stage) {
      a := OwnStep(s, c, 0);
      PrimaryAdvances(s, c);
    } else if OnOwn(stage) {
      a := OwnStep(s, c, 0);
      OwnAdvances(s, c);
    } else if stage == MustLock && s.mutex.None? {
      a := Lock(c);
      LockAdvances(s, c);
    } else if stage == MustLock {
      a := OwnStep(s, s.mutex.value, 0);
      HolderAdvances(s, c, s.mutex.value);
    } else {
      var k := BoundOf(s.sockets.Keys);
      a := OwnStep(s, c, k);
      StartAdvances(s, c, k);
    }
  }

  lemma {:induction false} AdvancesToDone(choices: seq<Choice>, c: CallId) returns (later: seq<Choice>)
    requires c in Run(choices).calls && Run(choices).listening == Now
    requires Run(choices).calls[c].stage !in {Refused, Thrown}
    ensures |later| <= Rank(Run(choices), c) && At(Run(choices + later), c, Done)
    decreases Rank(Run(choices), c)
  {
    if Run(choices).calls[c].stage == Done {
      later := [];
      assert choices + later == choices;
    } else {
      ReachableInv(choices);
      var a := SomeStepAdvances(Run(choices), c);
      RunStep(choices, a);
      var rest := AdvancesToDone(choices + [a], c);
      later := [a] + rest;
      Regroup(choices, [a], rest);
    }
  }

  /** These later choices end call c: it throws if its connect was refused and the flag is
      set, and returns otherwise. */
  ghost predicate Ends(choices: seq<Choice>, later: seq<Choice>, c: CallId)
    requires c in Run(choices).calls
  {
    At(Run(choices + later), c,
       if Run(choices).calls[c].stage == Refused && Run(choices).sentFirst then Thrown else Done)
  }

  /** While the other side listens every call can still return, within fifteen steps: it is
      not in a deadlock with other calls, with the lock or with the other side. Only a call
      whose own connect was refused may throw instead, and does so if the flag is set. */
  lemma EveryCallCanReturn(choices: seq<Choice>, c: CallId)
    requires c in Run(choices).calls && Run(choices).listening == Now
    requires Run(choices).calls[c].stage != Thrown
    ensures exists later: seq<Choice> :: |later| <= 15 && Ends(choices, later, c)
  {
    if Run(choices).calls[c].stage == Refused {
      RefusedEnds(choices, c);
    } else {
      var later := AdvancesToDone(choices, c);
      assert Ends(choices, later, c);
    }
  }

  lemma RefusedEnds(choices: seq<Choice>, c: CallId)
    requires At(Run(choices), c, Refused) && Run(choices).listening == Now
    ensures exists later: seq<Choice> :: |later| <= 15 && Ends(choices, later, c)
  {
    if Run(choices).sentFirst {
      RunStep(choices, TestFlag(c));
      TestThrows(Run(choices), c);
      assert Ends(choices, [TestFlag(c)], c);
    } else {
      var later := FallbackReturns(choices, c);
      assert Ends(choices, later, c);
    }
  }

  lemma FallbackReturns(choices: seq<Choice>, c: CallId) returns (later: seq<Choice>)
    requires At(Run(choices), c, Refused) && !Run(choices).sentFirst && Run(choices).listening == Now
    ensures |later| <= 15 && At(Run(choices + later), c, Done)
  {
    RunStep(choices, TestFlag(c));
    ReachableInv(choices);
    TestedRank(Run(choices), c);
    var rest := AdvancesToDone(choices + [TestFlag(c)], c);
    Regroup(choices, [TestFlag(c)], rest);
    later := [TestFlag(c)] + rest;
  }

  lemma TestThrows(s: State, c: CallId)
    requires At(s, c, Refused) && s.sentFirst
    ensures At(Step(s, TestFlag(c)), c, Thrown)
  {
  }

  lemma TestedRank(s: State, c: CallId)
    requires CallsInv(s) && At(s, c, Refused) && !s.sentFirst && s.listening == Now
    ensures var s' := Step(s, TestFlag(c));
      c in s'.calls && s'.calls[c].stage == MustLock && s'.listening == Now && Rank(s', c) <= 14
  {
  }
}
