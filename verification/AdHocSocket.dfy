/**
 The request/response layer that sends over one primary socket under a try-lock and opens a
 socket of its own for a call that finds the primary in use. A transition system with any
 number of concurrent calls, at the granularity of whole messages; `Framing` shows that a
 stream of framed messages is read back message by message.
 */
module AdHocSocket {
  import opened Common

  type CallId = nat
  type SocketId = nat
  type Body = int

  /** A message, with the call it belongs to. The tag is bookkeeping: no step looks at it. */
  datatype Message = Message(call: CallId, body: Body)

  /** What the other side did: the request its handler was given, and what it sent back. */
  datatype Exchange = Exchange(request: Message, response: Body)

  /** Where a call of send stands. */
  datatype Stage =
    | Ready            // about to try the lock
    | Connecting       // the lock was taken: about to connect a socket of its own
    | Refused          // connect threw: about to test sent_first_event_
    | MustLock         // fallback: waiting for the lock of the primary
    | PrimaryWrite | PrimaryRead
    | PrimaryGot       // response read: about to set sent_first_event_
    | PrimaryUnlock    // about to release the lock
    | SecondaryWrite | SecondaryRead
    | Done
    | Thrown

  /** The other side: not yet in receive_multi, in it, or past it. */
  datatype Listening = NotYet | Now | NoMore

  datatype Call = Call(
    request: Body,
    stage: Stage,
    socket: SocketId,            // of its own, once connected
    response: Option<Message>,
    refusedWhen: Listening,      // at the connect that threw
    flagAtConnect: bool)         // sent_first_event_ at that connect

  /** How the other side serves one secondary connection. */
  datatype Serving =
    | Pending                           // not accepted yet
    | Accepted(id: nat)
    | Handling(id: nat, request: Message)
    | Answered(id: nat)
    | Joined(id: nat)                   // its thread was removed from the map

  /** `carried` is the record of everything written to the socket, in either direction. */
  datatype Socket = Socket(
    client: CallId,
    toServer: seq<Message>,
    toClient: seq<Message>,
    serving: Serving,
    carried: seq<Message>)

  datatype State = State(
    calls: map<CallId, Call>,
    mutex: Option<CallId>,               // write_mutex_
    sentFirst: bool,                     // sent_first_event_
    listening: Listening,
    toServer: seq<Message>,              // the primary socket, both directions
    toClient: seq<Message>,
    handling: Option<Message>,           // the request in the primary callback
    sockets: map<SocketId, Socket>,
    nextRequestId: nat,
    active: map<nat, SocketId>,          // active_secondary_requests
    served: seq<Exchange>)               // every exchange of the other side

  const INITIAL := State(map[], None, false, NotYet, [], [], None, map[], 0, map[], [])

  datatype Choice =
    | Send(call: CallId, request: Body)
    | TryLock(call: CallId, won: bool)   // try_lock may also fail spuriously
    | Connect(call: CallId, socket: SocketId)
    | TestFlag(call: CallId)
    | Lock(call: CallId)
    | Write(call: CallId)
    | Read(call: CallId)
    | SetFlag(call: CallId)
    | Unlock(call: CallId)
    | StartListening
    | StopListening
    | ReadPrimary
    | AnswerPrimary(body: Body)
    | Accept(socket: SocketId)
    | ReadSecondary(socket: SocketId)
    | AnswerSecondary(socket: SocketId, body: Body)
    | Join(socket: SocketId)

  predicate At(s: State, c: CallId, stage: Stage) {
    c in s.calls && s.calls[c].stage == stage
  }

  predicate Enabled(s: State, a: Choice) {
    match a
    case Send(c, _) => c !in s.calls
    case TryLock(c, won) => At(s, c, Ready) && (won ==> s.mutex.None?)
    case Connect(c, k) => At(s, c, Connecting) && k !in s.sockets
    case TestFlag(c) => At(s, c, Refused)
    case Lock(c) => At(s, c, MustLock) && s.mutex.None?
    case Write(c) => At(s, c, PrimaryWrite) || MayWriteOwn(s, c)
    case Read(c) => MayReadPrimary(s, c) || MayReadOwn(s, c)
    case SetFlag(c) => At(s, c, PrimaryGot)
    case Unlock(c) => At(s, c, PrimaryUnlock)
    case StartListening => s.listening == NotYet
    case StopListening => s.listening == Now
    case ReadPrimary => s.listening == Now && s.handling.None? && s.toServer != []
    case AnswerPrimary(_) => s.handling.Some?
    case Accept(k) => s.listening == Now && k in s.sockets && s.sockets[k].serving.Pending?
    case ReadSecondary(k) => k in s.sockets && s.sockets[k].serving.Accepted? && s.sockets[k].toServer != []
    case AnswerSecondary(k, _) => k in s.sockets && s.sockets[k].serving.Handling?
    case Join(k) => k in s.sockets && s.sockets[k].serving.Answered?
  }

  predicate MayWriteOwn(s: State, c: CallId) {
    At(s, c, SecondaryWrite) && s.calls[c].socket in s.sockets
  }

  predicate MayReadPrimary(s: State, c: CallId) {
    At(s, c, PrimaryRead) && s.toClient != []
  }

  predicate MayReadOwn(s: State, c: CallId) {
    At(s, c, SecondaryRead) && s.calls[c].socket in s.sockets && s.sockets[s.calls[c].socket].toClient != []
  }

  function SetCall(s: State, c: CallId, x: Call): State {
    s.(calls := s.calls[c := x])
  }

  function SetStage(s: State, c: CallId, stage: Stage): State
    requires c in s.calls
  {
    SetCall(s, c, s.calls[c].(stage := stage))
  }

  function SetSocket(s: State, k: SocketId, x: Socket): State {
    s.(sockets := s.sockets[k := x])
  }

  /** The effect of each choice; Connect, Write and Read have two each. */
  function SendDone(s: State, c: CallId, q: Body): State {
    SetCall(s, c, Call(q, Ready, 0, None, NotYet, false))
  }

  function TryLockDone(s: State, c: CallId, won: bool): State
    requires c in s.calls
  {
    if won then SetStage(s, c, PrimaryWrite).(mutex := Some(c)) else SetStage(s, c, Connecting)
  }

  function ConnectDone(s: State, c: CallId, k: SocketId): State
    requires c in s.calls
  {
    SetSocket(SetCall(s, c, s.calls[c].(stage := SecondaryWrite, socket := k)), k, Socket(c, [], [], Pending, []))
  }

  function ConnectRefused(s: State, c: CallId): State
    requires c in s.calls
  {
    SetCall(s, c, s.calls[c].(stage := Refused, refusedWhen := s.listening, flagAtConnect := s.sentFirst))
  }

  function TestFlagDone(s: State, c: CallId): State
    requires c in s.calls
  {
    SetStage(s, c, if s.sentFirst then Thrown else MustLock)
  }

  function LockDone(s: State, c: CallId): State
    requires c in s.calls
  {
    SetStage(s, c, PrimaryWrite).(mutex := Some(c))
  }

  function Request(s: State, c: CallId): Message
    requires c in s.calls
  {
    Message(c, s.calls[c].request)
  }

  function WritePrimaryDone(s: State, c: CallId): State
    requires c in s.calls
  {
    SetStage(s, c, PrimaryRead).(toServer := s.toServer + [Request(s, c)])
  }

  function WriteOwnDone(s: State, c: CallId): State
    requires MayWriteOwn(s, c)
  {
    var x := s.sockets[s.calls[c].socket];
    var q := Request(s, c);
    SetSocket(SetStage(s, c, SecondaryRead), s.calls[c].socket,
              x.(toServer := x.toServer + [q], carried := x.carried + [q]))
  }

  function ReadPrimaryDone(s: State, c: CallId): State
    requires MayReadPrimary(s, c)
  {
    SetCall(s, c, s.calls[c].(stage := PrimaryGot, response := Some(s.toClient[0]))).(toClient := s.toClient[1..])
  }

  function ReadOwnDone(s: State, c: CallId): State
    requires MayReadOwn(s, c)
  {
    var x := s.sockets[s.calls[c].socket];
    SetSocket(SetCall(s, c, s.calls[c].(stage := Done, response := Some(x.toClient[0]))),
              s.calls[c].socket, x.(toClient := x.toClient[1..]))
  }

  function SetFlagDone(s: State, c: CallId): State
    requires c in s.calls
  {
    SetStage(s, c, PrimaryUnlock).(sentFirst := true)
  }

  function UnlockDone(s: State, c: CallId): State
    requires c in s.calls
  {
    SetStage(s, c, Done).(mutex := None)
  }

  function ServePrimaryDone(s: State): State
    requires s.toServer != []
  {
    s.(handling := Some(s.toServer[0]), toServer := s.toServer[1..])
  }

  function AnswerPrimaryDone(s: State, r: Body): State
    requires s.handling.Some?
  {
    var q := s.handling.value;
    s.(handling := None, toClient := s.toClient + [Message(q.call, r)], served := s.served + [Exchange(q, r)])
  }

  function AcceptDone(s: State, k: SocketId): State
    requires k in s.sockets
  {
    SetSocket(s, k, s.sockets[k].(serving := Accepted(s.nextRequestId)))
      .(nextRequestId := s.nextRequestId + 1, active := s.active[s.nextRequestId := k])
  }

  function ServeOwnDone(s: State, k: SocketId): State
    requires k in s.sockets && s.sockets[k].serving.Accepted? && s.sockets[k].toServer != []
  {
    var x := s.sockets[k];
    SetSocket(s, k, x.(toServer := x.toServer[1..], serving := Handling(x.serving.id, x.toServer[0])))
  }

  function AnswerOwnDone(s: State, k: SocketId, r: Body): State
    requires k in s.sockets && s.sockets[k].serving.Handling?
  {
    var x := s.sockets[k];
    var q := x.serving.request;
    var m := Message(q.call, r);
    SetSocket(s, k, x.(toClient := x.toClient + [m], carried := x.carried + [m], serving := Answered(x.serving.id)))
      .(served := s.served + [Exchange(q, r)])
  }

  function JoinDone(s: State, k: SocketId): State
    requires k in s.sockets && s.sockets[k].serving.Answered?
  {
    var id := s.sockets[k].serving.id;
    SetSocket(s, k, s.sockets[k].(serving := Joined(id))).(active := s.active - {id})
  }

  function Apply(s: State, a: Choice): State
    requires Enabled(s, a)
  {
    match a
    case Send(c, q) => SendDone(s, c, q)
    case TryLock(c, won) => TryLockDone(s, c, won)
    case Connect(c, k) => if s.listening == Now then ConnectDone(s, c, k) else ConnectRefused(s, c)
    case TestFlag(c) => TestFlagDone(s, c)
    case Lock(c) => LockDone(s, c)
    case Write(c) => if s.calls[c].stage == PrimaryWrite then WritePrimaryDone(s, c) else WriteOwnDone(s, c)
    case Read(c) => if s.calls[c].stage == PrimaryRead then ReadPrimaryDone(s, c) else ReadOwnDone(s, c)
    case SetFlag(c) => SetFlagDone(s, c)
    case Unlock(c) => UnlockDone(s, c)
    case StartListening => s.(listening := Now)
    case StopListening => s.(listening := NoMore)
    case ReadPrimary => ServePrimaryDone(s)
    case AnswerPrimary(r) => AnswerPrimaryDone(s, r)
    case Accept(k) => AcceptDone(s, k)
    case ReadSecondary(k) => ServeOwnDone(s, k)
    case AnswerSecondary(k, r) => AnswerOwnDone(s, k, r)
    case Join(k) => JoinDone(s, k)
  }

  function Step(s: State, a: Choice): State {
    if Enabled(s, a) then Apply(s, a) else s
  }

  function Run(choices: seq<Choice>): State {
    if choices == [] then INITIAL
    else Step(Run(choices[..|choices| - 1]), choices[|choices| - 1])
  }

  // ---------------------------------------------------------------------------
  // The invariant
  // ---------------------------------------------------------------------------

  predicate HoldsLock(stage: Stage) {
    stage in {PrimaryWrite, PrimaryRead, PrimaryGot, PrimaryUnlock}
  }

  predicate HasResponse(stage: Stage) {
    stage in {PrimaryGot, PrimaryUnlock, Done}
  }

  predicate ServedCall(s: State, c: CallId) {
    exists i :: 0 <= i < |s.served| && s.served[i].request.call == c
  }

  /** The other side handled exactly this call's request, and m is what it sent back. */
  predicate IsAnswer(s: State, c: CallId, m: Message)
    requires c in s.calls
  {
    m.call == c && Exchange(Request(s, c), m.body) in s.served
  }

  predicate PrimaryIdle(s: State) {
    s.toServer == [] && s.handling == None && s.toClient == []
  }

  /** The primary socket carries the exchange of call c, which is in one of three places. */
  ghost predicate PrimaryExchange(s: State, c: CallId)
    requires c in s.calls
  {
    || (s.toServer == [Request(s, c)] && s.handling == None && s.toClient == [] && !ServedCall(s, c))
    || (s.toServer == [] && s.handling == Some(Request(s, c)) && s.toClient == [] && !ServedCall(s, c)
        && s.listening != NotYet)
    || (s.toServer == [] && s.handling == None && |s.toClient| == 1 && IsAnswer(s, c, s.toClient[0])
        && s.listening != NotYet)
  }

  /** The call opened a socket of its own. */
  predicate OwnsSocket(s: State, c: CallId)
    requires c in s.calls
  {
    s.calls[c].socket in s.sockets && s.sockets[s.calls[c].socket].client == c
  }

  predicate SocketFresh(x: Socket) {
    x.toServer == [] && x.toClient == [] && x.carried == [] && (x.serving.Pending? || x.serving.Accepted?)
  }

  /** The socket carries the exchange of call c, which is in one of three places. */
  ghost predicate SocketExchange(s: State, c: CallId, x: Socket)
    requires c in s.calls
  {
    var q := Request(s, c);
    || (x.toServer == [q] && x.toClient == [] && x.carried == [q] && !ServedCall(s, c)
        && (x.serving.Pending? || x.serving.Accepted?))
    || (x.toServer == [] && x.toClient == [] && x.carried == [q] && !ServedCall(s, c)
        && x.serving.Handling? && x.serving.request == q)
    || (x.toServer == [] && |x.toClient| == 1 && x.carried == [q, x.toClient[0]] && IsAnswer(s, c, x.toClient[0])
        && (x.serving.Answered? || x.serving.Joined?))
  }

  predicate SocketDrained(s: State, c: CallId, x: Socket)
    requires c in s.calls && s.calls[c].response.Some?
  {
    && x.toServer == [] && x.toClient == [] && x.carried == [Request(s, c), s.calls[c].response.value]
    && (x.serving.Answered? || x.serving.Joined?)
  }

  /** What a refused connect says about the other side and about the flag. */
  ghost predicate RefusalInv(s: State, x: Call) {
    && x.refusedWhen != Now
    && (x.refusedWhen == NoMore ==> s.listening == NoMore)
    && (x.flagAtConnect ==> x.refusedWhen == NoMore && s.sentFirst)
    && (x.stage == MustLock ==> !x.flagAtConnect)
    && (x.stage == Thrown ==> s.sentFirst)
  }

  ghost predicate CallInv(s: State, c: CallId)
    requires c in s.calls
  {
    var x := s.calls[c];
    && (s.mutex == Some(c) <==> HoldsLock(x.stage))
    && (if HasResponse(x.stage) then x.response.Some? && IsAnswer(s, c, x.response.value) else x.response.None?)
    && (ServedCall(s, c) ==> x.stage in {PrimaryRead, SecondaryRead} || HasResponse(x.stage))
    && (x.stage in {PrimaryWrite, PrimaryGot, PrimaryUnlock} ==> PrimaryIdle(s))
    && (x.stage in {PrimaryGot, PrimaryUnlock} ==> s.listening != NotYet)
    && (x.stage == PrimaryRead ==> PrimaryExchange(s, c))
    && (x.stage == PrimaryUnlock ==> s.sentFirst)
    && (x.stage == SecondaryWrite ==> OwnsSocket(s, c) && SocketFresh(s.sockets[x.socket]))
    && (x.stage == SecondaryRead ==> OwnsSocket(s, c) && SocketExchange(s, c, s.sockets[x.socket]))
    && (x.stage == Done ==> if OwnsSocket(s, c) then SocketDrained(s, c, s.sockets[x.socket]) else s.sentFirst)
    && (x.stage in {Refused, MustLock, Thrown} ==> RefusalInv(s, x))
  }

  /** No call is served twice. */
  ghost predicate ServedOnce(s: State) {
    && (forall i, j :: 0 <= i < j < |s.served| ==> s.served[i].request.call != s.served[j].request.call)
    && (forall i :: 0 <= i < |s.served| ==> s.served[i].request.call in s.calls)
  }

  ghost predicate CallsInv(s: State) {
    && (forall c :: c in s.calls ==> CallInv(s, c))
    && (s.mutex.Some? ==> s.mutex.value in s.calls)
    && (s.mutex.None? ==> PrimaryIdle(s))
    && (s.sentFirst ==> s.listening != NotYet)
    && ServedOnce(s)
  }

  /** A secondary socket belongs to the call that opened it, and the map of active requests
      holds it while it is being served. */
  ghost predicate SocketInv(s: State, k: SocketId)
    requires k in s.sockets
  {
    var x := s.sockets[k];
    && x.client in s.calls && s.calls[x.client].socket == k
    && s.calls[x.client].stage in {SecondaryWrite, SecondaryRead, Done}
    && (!x.serving.Pending? ==> x.serving.id < s.nextRequestId)
    && (!x.serving.Pending? && !x.serving.Joined? ==> x.serving.id in s.active && s.active[x.serving.id] == k)
  }

  ghost predicate ActiveInv(s: State, id: nat)
    requires id in s.active
  {
    && id < s.nextRequestId
    && s.active[id] in s.sockets
    && var v := s.sockets[s.active[id]].serving; !v.Pending? && !v.Joined? && v.id == id
  }

  ghost predicate ServingInv(s: State) {
    && (forall k :: k in s.sockets ==> SocketInv(s, k))
    && (forall id :: id in s.active ==> ActiveInv(s, id))
  }

  ghost predicate Inv(s: State) {
    CallsInv(s) && ServingInv(s)
  }

  // ---------------------------------------------------------------------------
  // Every step keeps it
  // ---------------------------------------------------------------------------

  /** What s and s' have in common as far as call c can tell. */
  ghost predicate SameFor(s: State, s': State, c: CallId)
    requires c in s.calls
  {
    && c in s'.calls && s'.calls[c] == s.calls[c]
    && (s'.mutex == Some(c) <==> s.mutex == Some(c))
    && (s.mutex == Some(c) ==> s'.toServer == s.toServer && s'.toClient == s.toClient && s'.handling == s.handling)
    && (OwnsSocket(s', c) <==> OwnsSocket(s, c))
    && (OwnsSocket(s, c) ==> s'.sockets[s.calls[c].socket] == s.sockets[s.calls[c].socket])
    && s.served <= s'.served && (ServedCall(s', c) <==> ServedCall(s, c))
    && (s.sentFirst ==> s'.sentFirst)
    && (s.listening != NotYet ==> s'.listening != NotYet)
    && (s.listening == NoMore ==> s'.listening == NoMore)
  }

  lemma CallUntouched(s: State, s': State, c: CallId)
    requires c in s.calls && CallInv(s, c) && SameFor(s, s', c)
    ensures CallInv(s', c)
  {
    assert forall e :: e in s.served ==> e in s'.served;
  }

  /** Only call c and what belongs to it may differ: the lock and the primary socket if it
      takes or holds the lock, and the sockets it opened. */
  ghost predicate OnlyCall(s: State, s': State, c: CallId) {
    && c in s'.calls && (forall j :: j != c ==> (j in s'.calls <==> j in s.calls))
    && (forall j :: j != c && j in s.calls ==> s'.calls[j] == s.calls[j])
    && (s'.mutex == s.mutex || (s.mutex in {None, Some(c)} && s'.mutex in {None, Some(c)}))
    && (s.mutex == Some(c) || (s'.toServer == s.toServer && s'.toClient == s.toClient && s'.handling == s.handling))
    && (forall k :: k in s.sockets && s.sockets[k].client != c ==> k in s'.sockets && s'.sockets[k] == s.sockets[k])
    && (forall k :: k in s'.sockets && s'.sockets[k].client != c ==> k in s.sockets)
    && (forall k :: k in s.sockets && s.sockets[k].client == c ==> k in s'.sockets && s'.sockets[k].client == c)
    && (s.sentFirst ==> s'.sentFirst)
    && s'.listening == s.listening
  }

  /** Nothing was served, or call c's request for the first time. */
  ghost predicate OnlyServed(s: State, s': State, c: CallId) {
    || s'.served == s.served
    || (!ServedCall(s, c) && c in s.calls
        && |s'.served| == |s.served| + 1 && s'.served == s.served + [s'.served[|s.served|]]
        && s'.served[|s.served|].request.call == c)
  }

  lemma OthersServed(s: State, s': State, c: CallId, j: CallId)
    requires OnlyServed(s, s', c) && j != c
    ensures s.served <= s'.served && (ServedCall(s', j) <==> ServedCall(s, j))
  {
    if ServedCall(s, j) {
      var i :| 0 <= i < |s.served| && s.served[i].request.call == j;
      assert s'.served[i].request.call == j;
    }
  }

  lemma ServedOnceKept(s: State, s': State, c: CallId)
    requires ServedOnce(s) && OnlyServed(s, s', c) && forall j :: j in s.calls ==> j in s'.calls
    ensures ServedOnce(s')
  {
  }

  lemma OtherCallKept(s: State, s': State, c: CallId, j: CallId)
    requires OnlyCall(s, s', c) && OnlyServed(s, s', c) && j != c && j in s.calls && CallInv(s, j)
    ensures j in s'.calls && CallInv(s', j)
  {
    OthersServed(s, s', c, j);
    CallUntouched(s, s', j);
  }

  /** A step of call c, or of the other side on its behalf, keeps the calls in order if it
      keeps c in order and frees the lock only with the primary idle. */
  lemma CallsKept(s: State, s': State, c: CallId)
    requires CallsInv(s) && OnlyCall(s, s', c) && OnlyServed(s, s', c)
    requires CallInv(s', c)
    requires s'.mutex.None? ==> PrimaryIdle(s')
    requires s'.sentFirst ==> s'.listening != NotYet
    ensures CallsInv(s')
  {
    forall j | j in s'.calls ensures CallInv(s', j) {
      if j != c { OtherCallKept(s, s', c, j); }
    }
    ServedOnceKept(s, s', c);
  }

  /** A step of call c leaves how its sockets are served alone. */
  ghost predicate SameServing(s: State, s': State, c: CallId) {
    && s'.active == s.active && s'.nextRequestId == s.nextRequestId
    && (forall k :: k in s.sockets ==> k in s'.sockets && s'.sockets[k].serving == s.sockets[k].serving)
    && (forall k :: k in s'.sockets && k !in s.sockets ==> s'.sockets[k].client == c && s'.sockets[k].serving.Pending?)
    && (forall k :: k in s'.sockets && s'.sockets[k].client == c ==>
          c in s'.calls && s'.calls[c].socket == k && s'.calls[c].stage in {SecondaryWrite, SecondaryRead, Done})
  }

  lemma ServingKept(s: State, s': State, c: CallId)
    requires ServingInv(s) && OnlyCall(s, s', c) && SameServing(s, s', c)
    ensures ServingInv(s')
  {
    forall k | k in s'.sockets ensures SocketInv(s', k) {
      if k in s.sockets { assert SocketInv(s, k); }
    }
    forall id | id in s'.active ensures ActiveInv(s', id) {
      assert ActiveInv(s, id);
    }
  }

  /** Call c opened socket k. */
  predicate Owner(s: State, c: CallId, k: SocketId) {
    && k in s.sockets && s.sockets[k].client == c
    && c in s.calls && s.calls[c].socket == k && OnSocket(s.calls[c].stage)
  }

  predicate OnSocket(stage: Stage) {
    stage in {SecondaryWrite, SecondaryRead, Done}
  }

  /** A call that has not connected has no socket. */
  lemma NoSocketYet(s: State, c: CallId)
    requires ServingInv(s) && (c !in s.calls || !OnSocket(s.calls[c].stage))
    ensures forall k :: k in s.sockets ==> s.sockets[k].client != c
  {
    forall k | k in s.sockets ensures s.sockets[k].client != c {
      assert SocketInv(s, k);
    }
  }

  lemma OnlyItsSocket(s: State, c: CallId, k: SocketId)
    requires ServingInv(s) && Owner(s, c, k)
    ensures forall j :: j in s.sockets && s.sockets[j].client == c ==> j == k
  {
    forall j | j in s.sockets && s.sockets[j].client == c ensures j == k {
      assert SocketInv(s, j);
    }
  }

  /** A step of a call that has no socket, and opens none. */
  lemma UnconnectedStep(s: State, s': State, c: CallId)
    requires Inv(s) && (c !in s.calls || !OnSocket(s.calls[c].stage))
    requires OnlyCall(s, s', c) && s'.served == s.served && s'.sockets == s.sockets
    requires s'.active == s.active && s'.nextRequestId == s.nextRequestId
    requires CallInv(s', c) && (s'.mutex.None? ==> PrimaryIdle(s')) && (s'.sentFirst ==> s'.listening != NotYet)
    ensures Inv(s')
  {
    NoSocketYet(s, c);
    CallsKept(s, s', c);
    ServingKept(s, s', c);
  }

  lemma SendKeepsInv(s: State, c: CallId, q: Body)
    requires Inv(s) && c !in s.calls
    ensures Inv(SendDone(s, c, q))
  {
    var s' := SendDone(s, c, q);
    assert !ServedCall(s, c);
    assert ServedCall(s', c) == ServedCall(s, c);
    UnconnectedStep(s, s', c);
  }

  lemma TryLockKeepsInv(s: State, c: CallId, won: bool)
    requires Inv(s) && At(s, c, Ready) && (won ==> s.mutex.None?)
    ensures Inv(TryLockDone(s, c, won))
  {
    var s' := TryLockDone(s, c, won);
    assert CallInv(s, c);
    assert ServedCall(s', c) == ServedCall(s, c);
    UnconnectedStep(s, s', c);
  }

  lemma RefusedKeepsInv(s: State, c: CallId)
    requires Inv(s) && At(s, c, Connecting) && s.listening != Now
    ensures Inv(ConnectRefused(s, c))
  {
    var s' := ConnectRefused(s, c);
    assert CallInv(s, c);
    assert ServedCall(s', c) == ServedCall(s, c);
    UnconnectedStep(s, s', c);
  }

  lemma TestFlagKeepsInv(s: State, c: CallId)
    requires Inv(s) && At(s, c, Refused)
    ensures Inv(TestFlagDone(s, c))
  {
    var s' := TestFlagDone(s, c);
    assert CallInv(s, c);
    assert ServedCall(s', c) == ServedCall(s, c);
    UnconnectedStep(s, s', c);
  }

  lemma LockKeepsInv(s: State, c: CallId)
    requires Inv(s) && At(s, c, MustLock) && s.mutex.None?
    ensures Inv(LockDone(s, c))
  {
    var s' := LockDone(s, c);
    assert CallInv(s, c);
    assert ServedCall(s', c) == ServedCall(s, c);
    UnconnectedStep(s, s', c);
  }

  lemma WritePrimaryKeepsInv(s: State, c: CallId)
    requires Inv(s) && At(s, c, PrimaryWrite)
    ensures Inv(WritePrimaryDone(s, c))
  {
    var s' := WritePrimaryDone(s, c);
    assert CallInv(s, c);
    assert ServedCall(s', c) == ServedCall(s, c);
    UnconnectedStep(s, s', c);
  }

  lemma ReadPrimaryKeepsInv(s: State, c: CallId)
    requires Inv(s) && MayReadPrimary(s, c)
    ensures Inv(ReadPrimaryDone(s, c))
  {
    var s' := ReadPrimaryDone(s, c);
    assert CallInv(s, c);
    assert ServedCall(s', c) == ServedCall(s, c);
    UnconnectedStep(s, s', c);
  }

  lemma SetFlagKeepsInv(s: State, c: CallId)
    requires Inv(s) && At(s, c, PrimaryGot)
    ensures Inv(SetFlagDone(s, c))
  {
    var s' := SetFlagDone(s, c);
    assert CallInv(s, c);
    assert ServedCall(s', c) == ServedCall(s, c);
    UnconnectedStep(s, s', c);
  }

  lemma UnlockKeepsInv(s: State, c: CallId)
    requires Inv(s) && At(s, c, PrimaryUnlock)
    ensures Inv(UnlockDone(s, c))
  {
    var s' := UnlockDone(s, c);
    assert CallInv(s, c);
    assert ServedCall(s', c) == ServedCall(s, c);
    NoSocketYet(s, c);
    UnconnectedStep(s, s', c);
  }

  lemma ConnectKeepsCall(s: State, c: CallId, k: SocketId)
    requires At(s, c, Connecting) && CallInv(s, c)
    ensures CallInv(ConnectDone(s, c, k), c)
  {
    assert ServedCall(ConnectDone(s, c, k), c) == ServedCall(s, c);
  }

  lemma ConnectOnlyCall(s: State, c: CallId, k: SocketId)
    requires At(s, c, Connecting) && k !in s.sockets && forall j :: j in s.sockets ==> s.sockets[j].client != c
    ensures OnlyCall(s, ConnectDone(s, c, k), c) && SameServing(s, ConnectDone(s, c, k), c)
  {
  }

  lemma ConnectKeepsInv(s: State, c: CallId, k: SocketId)
    requires Inv(s) && At(s, c, Connecting) && k !in s.sockets
    ensures Inv(ConnectDone(s, c, k))
  {
    var s' := ConnectDone(s, c, k);
    NoSocketYet(s, c);
    assert CallInv(s, c);
    ConnectKeepsCall(s, c, k);
    ConnectOnlyCall(s, c, k);
    CallsKept(s, s', c);
    ServingKept(s, s', c);
  }

  function SetBoth(s: State, c: CallId, x: Call, k: SocketId, y: Socket): State {
    SetSocket(SetCall(s, c, x), k, y)
  }

  /** A step of a call on its own socket. */
  lemma OwnSocketStep(s: State, c: CallId, x: Call, k: SocketId, y: Socket)
    requires Inv(s) && Owner(s, c, k)
    requires x.socket == k && OnSocket(x.stage) && y.client == c && y.serving == s.sockets[k].serving
    requires CallInv(SetBoth(s, c, x, k, y), c)
    ensures Inv(SetBoth(s, c, x, k, y))
  {
    OnlyItsSocket(s, c, k);
    SetsOnlyCall(s, c, x, k, y);
    CallsKept(s, SetBoth(s, c, x, k, y), c);
    ServingKept(s, SetBoth(s, c, x, k, y), c);
  }

  lemma SetsOnlyCall(s: State, c: CallId, x: Call, k: SocketId, y: Socket)
    requires Owner(s, c, k) && forall j :: j in s.sockets && s.sockets[j].client == c ==> j == k
    requires x.socket == k && OnSocket(x.stage) && y.client == c && y.serving == s.sockets[k].serving
    ensures OnlyCall(s, SetBoth(s, c, x, k, y), c) && SameServing(s, SetBoth(s, c, x, k, y), c)
  {
  }

  lemma WriteOwnKeepsCall(s: State, c: CallId)
    requires MayWriteOwn(s, c) && CallInv(s, c)
    ensures CallInv(WriteOwnDone(s, c), c)
  {
    assert ServedCall(WriteOwnDone(s, c), c) == ServedCall(s, c);
  }

  lemma WriteOwnKeepsInv(s: State, c: CallId)
    requires Inv(s) && MayWriteOwn(s, c)
    ensures Inv(WriteOwnDone(s, c))
  {
    assert CallInv(s, c);
    WriteOwnKeepsCall(s, c);
    var k := s.calls[c].socket;
    OwnSocketStep(s, c, WriteOwnDone(s, c).calls[c], k, WriteOwnDone(s, c).sockets[k]);
  }

  lemma ReadOwnKeepsCall(s: State, c: CallId)
    requires MayReadOwn(s, c) && CallInv(s, c)
    ensures CallInv(ReadOwnDone(s, c), c)
  {
    assert ServedCall(ReadOwnDone(s, c), c) == ServedCall(s, c);
  }

  lemma ReadOwnKeepsInv(s: State, c: CallId)
    requires Inv(s) && MayReadOwn(s, c)
    ensures Inv(ReadOwnDone(s, c))
  {
    assert CallInv(s, c);
    ReadOwnKeepsCall(s, c);
    var k := s.calls[c].socket;
    OwnSocketStep(s, c, ReadOwnDone(s, c).calls[c], k, ReadOwnDone(s, c).sockets[k]);
  }

  /** Steps of the receiving side that concern no call. */
  lemma ListeningKeepsInv(s: State, s': State)
    requires Inv(s)
    requires (s.listening == NotYet && s' == s.(listening := Now))
             || (s.listening == Now && s' == s.(listening := NoMore))
    ensures Inv(s')
  {
    forall c | c in s'.calls ensures CallInv(s', c) {
      assert CallInv(s, c) && ServedCall(s', c) == ServedCall(s, c);
      CallUntouched(s, s', c);
    }
    forall k | k in s'.sockets ensures SocketInv(s', k) { assert SocketInv(s, k); }
    forall id | id in s'.active ensures ActiveInv(s', id) { assert ActiveInv(s, id); }
  }

  /** While the primary socket is busy the lock is held by the call whose exchange it carries. */
  lemma PrimaryOwner(s: State) returns (c: CallId)
    requires Inv(s) && !PrimaryIdle(s)
    ensures s.mutex == Some(c) && At(s, c, PrimaryRead) && CallInv(s, c)
  {
    c := s.mutex.value;
    assert CallInv(s, c);
  }

  lemma ServingUnchanged(s: State, s': State)
    requires ServingInv(s) && s'.calls == s.calls && s'.sockets == s.sockets
    requires s'.active == s.active && s'.nextRequestId == s.nextRequestId
    ensures ServingInv(s')
  {
    forall k | k in s'.sockets ensures SocketInv(s', k) { assert SocketInv(s, k); }
    forall id | id in s'.active ensures ActiveInv(s', id) { assert ActiveInv(s, id); }
  }

  lemma ServePrimaryKeepsInv(s: State)
    requires Inv(s) && s.listening == Now && s.handling.None? && s.toServer != []
    ensures Inv(ServePrimaryDone(s))
  {
    var s' := ServePrimaryDone(s);
    var c := PrimaryOwner(s);
    assert ServedCall(s', c) == ServedCall(s, c);
    CallsKept(s, s', c);
    ServingUnchanged(s, s');
  }

  lemma AnswerPrimaryKeepsInv(s: State, r: Body)
    requires Inv(s) && s.handling.Some?
    ensures Inv(AnswerPrimaryDone(s, r))
  {
    var s' := AnswerPrimaryDone(s, r);
    var c := PrimaryOwner(s);
    assert s'.served[|s.served|] == Exchange(Request(s, c), r);
    CallsKept(s, s', c);
    ServingUnchanged(s, s');
  }

  /** A step of the other side on socket k of call c. */
  lemma ServedSocketStep(s: State, s': State, c: CallId, k: SocketId)
    requires Inv(s) && k in s.sockets && s.sockets[k].client == c
    requires s'.calls == s.calls && s'.mutex == s.mutex && s'.sentFirst == s.sentFirst && s'.listening == s.listening
    requires s'.toServer == s.toServer && s'.toClient == s.toClient && s'.handling == s.handling
    requires k in s'.sockets && s'.sockets == s.sockets[k := s'.sockets[k]] && s'.sockets[k].client == c
    requires OnlyServed(s, s', c) && c in s'.calls && CallInv(s', c)
    ensures CallsInv(s')
  {
    SocketOnlyCall(s, s', c, k);
    CallsKept(s, s', c);
  }

  lemma SocketOnlyCall(s: State, s': State, c: CallId, k: SocketId)
    requires k in s.sockets && s.sockets[k].client == c && c in s'.calls
    requires s'.calls == s.calls && s'.mutex == s.mutex && s'.sentFirst == s.sentFirst && s'.listening == s.listening
    requires s'.toServer == s.toServer && s'.toClient == s.toClient && s'.handling == s.handling
    requires k in s'.sockets && s'.sockets == s.sockets[k := s'.sockets[k]] && s'.sockets[k].client == c
    ensures OnlyCall(s, s', c)
  {
  }

  lemma OwnerOf(s: State, k: SocketId) returns (c: CallId)
    requires Inv(s) && k in s.sockets
    ensures Owner(s, c, k) && CallInv(s, c)
  {
    c := s.sockets[k].client;
    assert SocketInv(s, k) && CallInv(s, c);
  }

  /** The ids of the served connections after a step that changes socket k only. */
  ghost predicate ServingOf(s: State, s': State, k: SocketId)
    requires k in s.sockets
  {
    && s'.calls == s.calls && k in s'.sockets && s'.sockets == s.sockets[k := s'.sockets[k]]
    && s.nextRequestId <= s'.nextRequestId
    && (forall id :: id in s.active && s.active[id] != k ==> id in s'.active && s'.active[id] == s.active[id])
    && (forall id :: id in s'.active && s'.active[id] != k ==> id in s.active && s'.active[id] == s.active[id])
  }

  lemma ServingOfKept(s: State, s': State, k: SocketId)
    requires ServingInv(s) && k in s.sockets && ServingOf(s, s', k) && SocketInv(s', k)
    requires forall id :: id in s'.active && s'.active[id] == k ==> ActiveInv(s', id)
    ensures ServingInv(s')
  {
    forall j | j in s'.sockets ensures SocketInv(s', j) {
      if j != k { assert SocketInv(s, j); }
    }
    forall id | id in s'.active ensures ActiveInv(s', id) {
      if s'.active[id] != k { assert ActiveInv(s, id); }
    }
  }

  lemma AcceptKeepsCall(s: State, c: CallId, k: SocketId)
    requires Owner(s, c, k) && CallInv(s, c)
    requires s.sockets[k].serving.Pending?
    ensures CallInv(AcceptDone(s, k), c)
  {
    assert ServedCall(AcceptDone(s, k), c) == ServedCall(s, c);
  }

  lemma AcceptKeepsInv(s: State, k: SocketId)
    requires Inv(s) && k in s.sockets && s.sockets[k].serving.Pending?
    ensures Inv(AcceptDone(s, k))
  {
    var s' := AcceptDone(s, k);
    var c := OwnerOf(s, k);
    AcceptKeepsCall(s, c, k);
    ServedSocketStep(s, s', c, k);
    AcceptServes(s, k);
  }

  lemma AcceptServes(s: State, k: SocketId)
    requires ServingInv(s) && k in s.sockets && s.sockets[k].serving.Pending?
    ensures ServingInv(AcceptDone(s, k))
  {
    var s' := AcceptDone(s, k);
    assert SocketInv(s, k);
    forall id | id in s.active ensures id < s.nextRequestId && s.active[id] != k { assert ActiveInv(s, id); }
    ServingOfKept(s, s', k);
  }

  /** Accepted, handled and answered: the connection keeps its id. */
  lemma ServingSameId(s: State, s': State, k: SocketId)
    requires ServingInv(s) && k in s.sockets && ServingOf(s, s', k)
    requires s'.active == s.active && s'.nextRequestId == s.nextRequestId
    requires s'.sockets[k].client == s.sockets[k].client
    requires var v, v' := s.sockets[k].serving, s'.sockets[k].serving;
      !v.Pending? && !v.Joined? && !v'.Pending? && !v'.Joined? && v'.id == v.id
    ensures ServingInv(s')
  {
    assert SocketInv(s, k);
    forall id | id in s'.active && s'.active[id] == k ensures ActiveInv(s', id) { assert ActiveInv(s, id); }
    ServingOfKept(s, s', k);
  }

  lemma ServeOwnKeepsCall(s: State, c: CallId, k: SocketId)
    requires Owner(s, c, k) && CallInv(s, c)
    requires s.sockets[k].serving.Accepted? && s.sockets[k].toServer != []
    ensures CallInv(ServeOwnDone(s, k), c)
  {
    assert ServedCall(ServeOwnDone(s, k), c) == ServedCall(s, c);
  }

  lemma ServeOwnKeepsInv(s: State, k: SocketId)
    requires Inv(s) && k in s.sockets && s.sockets[k].serving.Accepted? && s.sockets[k].toServer != []
    ensures Inv(ServeOwnDone(s, k))
  {
    var s' := ServeOwnDone(s, k);
    var c := OwnerOf(s, k);
    ServeOwnKeepsCall(s, c, k);
    ServedSocketStep(s, s', c, k);
    ServeOwnServes(s, k);
  }

  lemma ServeOwnServes(s: State, k: SocketId)
    requires ServingInv(s) && k in s.sockets && s.sockets[k].serving.Accepted? && s.sockets[k].toServer != []
    ensures ServingInv(ServeOwnDone(s, k))
  {
    ServingSameId(s, ServeOwnDone(s, k), k);
  }

  lemma AnswerOwnKeepsCall(s: State, c: CallId, k: SocketId, r: Body)
    requires Owner(s, c, k) && CallInv(s, c)
    requires s.sockets[k].serving.Handling?
    ensures CallInv(AnswerOwnDone(s, k, r), c)
  {
    assert AnswerOwnDone(s, k, r).served[|s.served|] == Exchange(Request(s, c), r);
  }

  lemma AnswerOwnKeepsInv(s: State, k: SocketId, r: Body)
    requires Inv(s) && k in s.sockets && s.sockets[k].serving.Handling?
    ensures Inv(AnswerOwnDone(s, k, r))
  {
    var s' := AnswerOwnDone(s, k, r);
    var c := OwnerOf(s, k);
    AnswerOwnKeepsCall(s, c, k, r);
    ServedSocketStep(s, s', c, k);
    AnswerOwnServes(s, k, r);
  }

  lemma AnswerOwnServes(s: State, k: SocketId, r: Body)
    requires ServingInv(s) && k in s.sockets && s.sockets[k].serving.Handling?
    ensures ServingInv(AnswerOwnDone(s, k, r))
  {
    ServingSameId(s, AnswerOwnDone(s, k, r), k);
  }

  lemma JoinKeepsCall(s: State, c: CallId, k: SocketId)
    requires Owner(s, c, k) && CallInv(s, c)
    requires s.sockets[k].serving.Answered?
    ensures CallInv(JoinDone(s, k), c)
  {
    assert ServedCall(JoinDone(s, k), c) == ServedCall(s, c);
  }

  lemma JoinKeepsInv(s: State, k: SocketId)
    requires Inv(s) && k in s.sockets && s.sockets[k].serving.Answered?
    ensures Inv(JoinDone(s, k))
  {
    var s' := JoinDone(s, k);
    var c := OwnerOf(s, k);
    JoinKeepsCall(s, c, k);
    ServedSocketStep(s, s', c, k);
    JoinServes(s, k);
  }

  lemma JoinServes(s: State, k: SocketId)
    requires ServingInv(s) && k in s.sockets && s.sockets[k].serving.Answered?
    ensures ServingInv(JoinDone(s, k))
  {
    assert SocketInv(s, k);
    forall id | id in s.active && s.active[id] == k ensures id == s.sockets[k].serving.id { assert ActiveInv(s, id); }
    ServingOfKept(s, JoinDone(s, k), k);
  }

  predicate IsClientStep(a: Choice) {
    a.Send? || a.TryLock? || a.Connect? || a.TestFlag? || a.Lock? || a.SetFlag? || a.Unlock?
  }

  predicate IsServerStep(a: Choice) {
    || a.StartListening? || a.StopListening? || a.ReadPrimary? || a.AnswerPrimary?
    || a.Accept? || a.ReadSecondary? || a.AnswerSecondary? || a.Join?
  }

  lemma ClientStepKeepsInv(s: State, a: Choice)
    requires Inv(s) && Enabled(s, a)
    requires IsClientStep(a)
    ensures Inv(Apply(s, a))
  {
    match a
    case Send(c, q) => SendKeepsInv(s, c, q);
    case TryLock(c, won) => TryLockKeepsInv(s, c, won);
    case Connect(c, k) => if s.listening == Now { ConnectKeepsInv(s, c, k); } else { RefusedKeepsInv(s, c); }
    case TestFlag(c) => TestFlagKeepsInv(s, c);
    case Lock(c) => LockKeepsInv(s, c);
    case SetFlag(c) => SetFlagKeepsInv(s, c);
    case Unlock(c) => UnlockKeepsInv(s, c);
  }

  lemma TransferKeepsInv(s: State, a: Choice)
    requires Inv(s) && Enabled(s, a) && (a.Write? || a.Read?)
    ensures Inv(Apply(s, a))
  {
    match a
    case Write(c) =>
      if s.calls[c].stage == PrimaryWrite { WritePrimaryKeepsInv(s, c); } else { WriteOwnKeepsInv(s, c); }
    case Read(c) =>
      if s.calls[c].stage == PrimaryRead { ReadPrimaryKeepsInv(s, c); } else { ReadOwnKeepsInv(s, c); }
  }

  lemma ServerStepKeepsInv(s: State, a: Choice)
    requires Inv(s) && Enabled(s, a)
    requires IsServerStep(a)
    ensures Inv(Apply(s, a))
  {
    match a
    case StartListening => ListeningKeepsInv(s, Apply(s, a));
    case StopListening => ListeningKeepsInv(s, Apply(s, a));
    case ReadPrimary => ServePrimaryKeepsInv(s);
    case AnswerPrimary(r) => AnswerPrimaryKeepsInv(s, r);
    case Accept(k) => AcceptKeepsInv(s, k);
    case ReadSecondary(k) => ServeOwnKeepsInv(s, k);
    case AnswerSecondary(k, r) => AnswerOwnKeepsInv(s, k, r);
    case Join(k) => JoinKeepsInv(s, k);
  }

  /** One step of any sender or of the other side keeps the invariant. */
  lemma StepKeepsInv(s: State, a: Choice)
    requires Inv(s)
    ensures Inv(Step(s, a))
  {
    if Enabled(s, a) {
      if a.Write? || a.Read? {
        TransferKeepsInv(s, a);
      } else if IsClientStep(a) {
        ClientStepKeepsInv(s, a);
      } else {
        ServerStepKeepsInv(s, a);
      }
    }
  }

  lemma {:induction false} ReachableInv(choices: seq<Choice>)
    ensures Inv(Run(choices))
  {
    if choices != [] {
      ReachableInv(choices[..|choices| - 1]);
      StepKeepsInv(Run(choices[..|choices| - 1]), choices[|choices| - 1]);
    }
  }

  // ---------------------------------------------------------------------------
  // What holds in every reachable state
  // ---------------------------------------------------------------------------

  /** The call holds the answer to its own request, which the other side was given exactly as
      the call made it, and this is the only exchange the other side ever had for the call. */
  ghost predicate HasItsResponse(s: State, c: CallId)
    requires c in s.calls
  {
    && s.calls[c].response.Some?
    && s.calls[c].response.value.call == c
    && var e := Exchange(Request(s, c), s.calls[c].response.value.body);
       && (exists i :: 0 <= i < |s.served| && s.served[i] == e)
       && (forall i :: 0 <= i < |s.served| && s.served[i].request.call == c ==> s.served[i] == e)
  }

  lemma DoneHasItsResponse(s: State, c: CallId)
    requires CallsInv(s) && At(s, c, Done)
    ensures HasItsResponse(s, c)
  {
    assert CallInv(s, c);
    var e := Exchange(Request(s, c), s.calls[c].response.value.body);
    var i :| 0 <= i < |s.served| && s.served[i] == e;
    forall j | 0 <= j < |s.served| && s.served[j].request.call == c ensures s.served[j] == e {
      assert i == j;
    }
  }

  /** The primary socket carries nothing, or one message, which is the request of the call
      that holds the lock or the answer to it. */
  ghost predicate PrimarySingle(s: State) {
    && |s.toServer| + (if s.handling.Some? then 1 else 0) + |s.toClient| <= 1
    && (!PrimaryIdle(s) ==> s.mutex.Some? && At(s, s.mutex.value, PrimaryRead))
    && (s.toServer != [] ==> s.toServer[0] == Request(s, s.mutex.value))
    && (s.handling.Some? ==> s.handling.value == Request(s, s.mutex.value))
    && (s.toClient != [] ==> IsAnswer(s, s.mutex.value, s.toClient[0]))
  }

  lemma OneExchangeOnPrimary(choices: seq<Choice>)
    ensures PrimarySingle(Run(choices))
  {
    ReachableInv(choices);
    PrimaryIsSingle(Run(choices));
  }

  lemma PrimaryIsSingle(s: State)
    requires Inv(s)
    ensures PrimarySingle(s)
  {
    if !PrimaryIdle(s) {
      var c := PrimaryOwner(s);
    }
  }

  /** Everything that was ever written to socket k is the request of the call that opened it
      and, once it is answered, the answer. No other socket is that call's, and the other
      side has exactly one exchange for it, from the answer on. */
  ghost predicate SingleExchange(s: State, k: SocketId)
    requires k in s.sockets
  {
    var x := s.sockets[k];
    && x.client in s.calls
    && var q := Request(s, x.client);
       && (x.carried == [] || x.carried == [q]
           || (|x.carried| == 2 && x.carried[0] == q && IsAnswer(s, x.client, x.carried[1])))
       && (|x.carried| == 2 <==> x.serving.Answered? || x.serving.Joined?)
       && (x.serving.Answered? || x.serving.Joined? ==> ServedExactlyOnce(s, x.client))
       && (forall m :: m in x.toServer ==> m == q)
       && (x.serving.Handling? ==> x.serving.request == q)
       && (forall m :: m in x.toClient ==> IsAnswer(s, x.client, m))
       && |x.toServer| + (if x.serving.Handling? then 1 else 0) + |x.toClient| <= 1
  }

  ghost predicate ServedExactlyOnce(s: State, c: CallId) {
    exists i :: 0 <= i < |s.served| && s.served[i].request.call == c
                && (forall j :: 0 <= j < |s.served| && s.served[j].request.call == c ==> j == i)
  }

  lemma AnswerServedOnce(s: State, c: CallId, m: Message)
    requires c in s.calls && ServedOnce(s) && IsAnswer(s, c, m)
    ensures ServedExactlyOnce(s, c)
  {
    var i :| 0 <= i < |s.served| && s.served[i] == Exchange(Request(s, c), m.body);
    assert s.served[i].request.call == c;
  }

  lemma SocketIsSingle(s: State, k: SocketId)
    requires Inv(s) && k in s.sockets
    ensures SingleExchange(s, k)
  {
    var c := OwnerOf(s, k);
    OwnedIsSingle(s, c, k);
  }

  lemma OwnedIsSingle(s: State, c: CallId, k: SocketId)
    requires Owner(s, c, k) && CallInv(s, c) && ServedOnce(s)
    ensures SingleExchange(s, k)
  {
    var x := s.sockets[k];
    if x.serving.Answered? || x.serving.Joined? {
      AnswerServedOnce(s, c, if s.calls[c].stage == Done then s.calls[c].response.value else x.toClient[0]);
    }
  }

  lemma OneExchangeOnSecondary(choices: seq<Choice>, k: SocketId, j: SocketId)
    requires k in Run(choices).sockets
    ensures SingleExchange(Run(choices), k)
    ensures j in Run(choices).sockets && Run(choices).sockets[j].client == Run(choices).sockets[k].client ==> j == k
  {
    ReachableInv(choices);
    var c := OwnerOf(Run(choices), k);
    SocketIsSingle(Run(choices), k);
    OnlyItsSocket(Run(choices), c, k);
  }

  /** What no step takes back: sockets and what was written to them, a set flag, and that the
      other side has stopped listening. */
  ghost predicate Grows(s: State, s': State) {
    && (forall k :: k in s.sockets ==> k in s'.sockets && s.sockets[k].carried <= s'.sockets[k].carried)
    && (s.sentFirst ==> s'.sentFirst)
    && (s.listening == NoMore ==> s'.listening == NoMore)
  }

  lemma StepGrows(s: State, a: Choice)
    ensures Grows(s, Step(s, a))
  {
    if Enabled(s, a) {
      if IsClientStep(a) { ClientStepGrows(s, a); }
      else if a.Write? || a.Read? { TransferGrows(s, a); }
      else { ServerStepGrows(s, a); }
    }
  }

  lemma ClientStepGrows(s: State, a: Choice)
    requires Enabled(s, a) && IsClientStep(a)
    ensures Grows(s, Apply(s, a))
  {
  }

  lemma TransferGrows(s: State, a: Choice)
    requires Enabled(s, a) && (a.Write? || a.Read?)
    ensures Grows(s, Apply(s, a))
  {
  }

  lemma ServerStepGrows(s: State, a: Choice)
    requires Enabled(s, a) && IsServerStep(a)
    ensures Grows(s, Apply(s, a))
  {
  }

  lemma RunStep(choices: seq<Choice>, a: Choice)
    ensures Run(choices + [a]) == Step(Run(choices), a)
  {
    assert (choices + [a])[..|choices|] == choices;
  }

  lemma GrowsOn(s: State, s': State, s'': State)
    requires Grows(s, s') && Grows(s', s'')
    ensures Grows(s, s'')
  {
  }

  lemma {:induction false} RunGrows(choices: seq<Choice>, later: seq<Choice>)
    ensures Grows(Run(choices), Run(choices + later))
  {
    if later == [] {
      assert choices + later == choices;
    } else {
      var sooner, a := later[..|later| - 1], later[|later| - 1];
      assert choices + later == (choices + sooner) + [a];
      RunGrows(choices, sooner);
      RunStep(choices + sooner, a);
      StepGrows(Run(choices + sooner), a);
      GrowsOn(Run(choices), Run(choices + sooner), Run(choices + later));
    }
  }

  // ---------------------------------------------------------------------------
  // What was asked and what was answered, traced back to the choices of the run
  // ---------------------------------------------------------------------------

  /** Choice i is the one with which call c was made, for request q. */
  predicate SentAt(choices: seq<Choice>, i: nat, c: CallId, q: Body) {
    i < |choices| && choices[i] == Send(c, q) && Enabled(Run(choices[..i]), choices[i])
  }

  /** Choice i is the one with which the other side, whose handler was given the request of e,
      sent back the response of e. */
  predicate AnsweredAt(choices: seq<Choice>, i: nat, e: Exchange) {
    i < |choices| && Enabled(Run(choices[..i]), choices[i]) && var s := Run(choices[..i]);
    match choices[i]
    case AnswerPrimary(r) => s.handling == Some(e.request) && r == e.response
    case AnswerSecondary(k, r) => s.sockets[k].serving.request == e.request && r == e.response
    case _ => false
  }

  lemma {:induction false} WasSent(choices: seq<Choice>, c: CallId) returns (i: nat)
    requires c in Run(choices).calls
    ensures SentAt(choices, i, c, Run(choices).calls[c].request)
  {
    if choices == [] {
      assert false;
    } else {
      var sooner, a := choices[..|choices| - 1], choices[|choices| - 1];
      RequestKept(Run(sooner), a, c);
      if c in Run(sooner).calls {
        i := WasSent(sooner, c);
        assert choices[..i] == sooner[..i];
      } else {
        i := |sooner|;
      }
    }
  }

  /** A call is there from its Send on, with that request. */
  lemma RequestKept(s: State, a: Choice, c: CallId)
    ensures c in s.calls ==> c in Step(s, a).calls && Step(s, a).calls[c].request == s.calls[c].request
    ensures c !in s.calls && c in Step(s, a).calls ==>
      Enabled(s, a) && a == Send(c, Step(s, a).calls[c].request)
  {
    if Enabled(s, a) {
      if IsClientStep(a) { ClientStepKeepsRequest(s, a, c); }
      else if a.Write? || a.Read? { TransferKeepsRequest(s, a, c); }
      else { ServerStepKeepsRequest(s, a, c); }
    }
  }

  lemma ClientStepKeepsRequest(s: State, a: Choice, c: CallId)
    requires Enabled(s, a) && IsClientStep(a)
    ensures c in s.calls ==> c in Apply(s, a).calls && Apply(s, a).calls[c].request == s.calls[c].request
    ensures c !in s.calls && c in Apply(s, a).calls ==> a == Send(c, Apply(s, a).calls[c].request)
  {
  }

  lemma TransferKeepsRequest(s: State, a: Choice, c: CallId)
    requires Enabled(s, a) && (a.Write? || a.Read?)
    ensures c in s.calls ==> c in Apply(s, a).calls && Apply(s, a).calls[c].request == s.calls[c].request
    ensures c !in s.calls ==> c !in Apply(s, a).calls
  {
  }

  lemma ServerStepKeepsRequest(s: State, a: Choice, c: CallId)
    requires Enabled(s, a) && IsServerStep(a)
    ensures Apply(s, a).calls == s.calls
  {
  }

  lemma {:induction false} WasAnswered(choices: seq<Choice>, e: Exchange) returns (i: nat)
    requires e in Run(choices).served
    ensures AnsweredAt(choices, i, e)
  {
    if choices == [] {
      assert false;
    } else {
      var sooner, a := choices[..|choices| - 1], choices[|choices| - 1];
      if e in Run(sooner).served {
        i := WasAnswered(sooner, e);
        assert choices[..i] == sooner[..i];
      } else {
        ServedByAnswer(Run(sooner), a, e);
        i := |sooner|;
      }
    }
  }

  lemma ServedByAnswer(s: State, a: Choice, e: Exchange)
    requires e !in s.served && e in Step(s, a).served
    ensures Enabled(s, a)
    ensures match a
      case AnswerPrimary(r) => s.handling == Some(e.request) && r == e.response
      case AnswerSecondary(k, r) => s.sockets[k].serving.request == e.request && r == e.response
      case _ => false
  {
    if IsClientStep(a) { ClientStepServesNone(s, a); }
    else if a.Write? || a.Read? { TransferServesNone(s, a); }
  }

  lemma ClientStepServesNone(s: State, a: Choice)
    requires Enabled(s, a) && IsClientStep(a)
    ensures Apply(s, a).served == s.served
  {
  }

  lemma TransferServesNone(s: State, a: Choice)
    requires Enabled(s, a) && (a.Write? || a.Read?)
    ensures Apply(s, a).served == s.served
  {
  }

  /** The other side had exactly one exchange for call c, and it is e. */
  predicate OnlyExchange(served: seq<Exchange>, c: CallId, e: Exchange) {
    exists i :: 0 <= i < |served| && served[i] == e
                && forall j :: 0 <= j < |served| && served[j].request.call == c ==> j == i
  }

  /** Call c was made for q, the handler of the other side was given exactly that, once, and
      answered r. */
  predicate AskedAndAnswered(choices: seq<Choice>, i: nat, j: nat, c: CallId, q: Body, r: Body) {
    && SentAt(choices, i, c, q)
    && AnsweredAt(choices, j, Exchange(Message(c, q), r))
    && OnlyExchange(Run(choices).served, c, Exchange(Message(c, q), r))
  }

  /** A call that has returned was made, with some request q. The other side's handler was
      given q, for no other call and only once, and what it sent back is what the call holds. */
  lemma EveryCallGetsItsOwnResponse(choices: seq<Choice>, c: CallId) returns (i: nat, j: nat, q: Body, r: Body)
    requires At(Run(choices), c, Done)
    ensures AskedAndAnswered(choices, i, j, c, q, r)
    ensures Run(choices).calls[c].response == Some(Message(c, r))
  {
    var s := Run(choices);
    ReachableInv(choices);
    DoneHasItsResponse(s, c);
    q, r := s.calls[c].request, s.calls[c].response.value.body;
    i := WasSent(choices, c);
    var e := Exchange(Message(c, q), r);
    j := WasAnswered(choices, e);
    ServedExactlyThis(s, c, e);
  }

  lemma ServedExactlyThis(s: State, c: CallId, e: Exchange)
    requires ServedOnce(s) && e in s.served && e.request.call == c
    ensures OnlyExchange(s.served, c, e)
  {
    var i :| 0 <= i < |s.served| && s.served[i] == e;
    assert forall j :: 0 <= j < |s.served| && s.served[j].request.call == c ==> j == i;
  }

  /** Once a secondary socket's request is answered nothing is ever written to it again. */
  lemma NothingAfterTheExchange(choices: seq<Choice>, later: seq<Choice>, k: SocketId)
    requires k in Run(choices).sockets
    requires Run(choices).sockets[k].serving.Answered? || Run(choices).sockets[k].serving.Joined?
    ensures var s, s' := Run(choices), Run(choices + later);
      && k in s'.sockets && s'.sockets[k].carried == s.sockets[k].carried
      && (s'.sockets[k].serving.Answered? || s'.sockets[k].serving.Joined?)
  {
    ReachableInv(choices);
    ReachableInv(choices + later);
    RunGrows(choices, later);
    SocketIsSingle(Run(choices), k);
    SocketIsSingle(Run(choices + later), k);
    PrefixOfTwo(Run(choices).sockets[k].carried, Run(choices + later).sockets[k].carried);
  }

  lemma PrefixOfTwo(a: seq<Message>, b: seq<Message>)
    requires a <= b && |a| == 2 && |b| <= 2
    ensures a == b
  {
  }

  /** The map of active requests holds exactly the accepted connections whose thread has not
      been joined, each under the request id it was given. */
  lemma ActiveRequestsAreTheServedSockets(choices: seq<Choice>, id: nat, k: SocketId)
    ensures var s := Run(choices);
      (id in s.active && s.active[id] == k) <==>
      ServedUnder(s, k, id)
  {
    ReachableInv(choices);
    ServingIsActive(Run(choices), id, k);
  }

  /** Connection k has been accepted under the id and not been joined. */
  predicate ServedUnder(s: State, k: SocketId, id: nat) {
    k in s.sockets && var v := s.sockets[k].serving; !v.Pending? && !v.Joined? && v.id == id
  }

  lemma ServingIsActive(s: State, id: nat, k: SocketId)
    requires ServingInv(s)
    ensures (id in s.active && s.active[id] == k) <==>
            ServedUnder(s, k, id)
  {
    if id in s.active { assert ActiveInv(s, id); }
    if k in s.sockets { assert SocketInv(s, k); }
  }

  /** Once a call has returned from an exchange on the primary socket, sent_first_event_ is
      set, and it stays set. */
  lemma PrimaryExchangeSetsTheFlag(choices: seq<Choice>, c: CallId, later: seq<Choice>)
    requires At(Run(choices), c, Done) && !OwnsSocket(Run(choices), c)
    ensures Run(choices + later).sentFirst
  {
    ReachableInv(choices);
    FlagOfDone(Run(choices), c);
    RunGrows(choices, later);
  }

  lemma FlagOfDone(s: State, c: CallId)
    requires CallsInv(s) && At(s, c, Done) && !OwnsSocket(s, c)
    ensures s.sentFirst
  {
    assert CallInv(s, c);
  }

  // ---------------------------------------------------------------------------
  // A refused connect
  // ---------------------------------------------------------------------------

  lemma RefusalOf(s: State, c: CallId)
    requires CallsInv(s) && c in s.calls && s.calls[c].stage in {Refused, MustLock, Thrown}
    ensures RefusalInv(s, s.calls[c])
  {
    assert CallInv(s, c);
  }

  /** The blocking fallback onto the primary is taken only by a call whose connect was
      refused before the first event completed, and which found it incomplete once more. */
  lemma WhenSendFallsBack(choices: seq<Choice>, c: CallId)
    requires At(Run(choices), c, Refused) && At(Step(Run(choices), TestFlag(c)), c, MustLock)
    ensures var s := Run(choices);
      !s.sentFirst && !s.calls[c].flagAtConnect && s.calls[c].refusedWhen != Now
  {
    ReachableInv(choices);
    RefusalOf(Run(choices), c);
  }

  /** A set flag at the refused connect does mean that the other side no longer listens. */
  lemma FlagAtConnectMeansNobodyListens(choices: seq<Choice>, c: CallId)
    requires c in Run(choices).calls && Run(choices).calls[c].stage in {Refused, MustLock, Thrown}
    requires Run(choices).calls[c].flagAtConnect
    ensures Run(choices).listening == NoMore
  {
    ReachableInv(choices);
    RefusalOf(Run(choices), c);
  }

  /** Whatever happens after the refused connect, c throws only when nobody listens any more. */
  ghost predicate ThrowsOnlyUnheard(choices: seq<Choice>, c: CallId) {
    forall later: seq<Choice> :: At(Run(choices + later), c, Thrown) ==> Run(choices + later).listening == NoMore
  }

  /** The source takes a refused connect of a call that then throws for a sign that the other
      side no longer listens. That is so exactly if the other side has stopped listening by
      the time of the flag's test, and not if it has yet to begin. */
  lemma WhenSendThrows(choices: seq<Choice>, c: CallId)
    requires At(Run(choices), c, Refused)
    ensures ThrowsOnlyUnheard(choices, c) <==> Run(choices).listening == NoMore
  {
    if Run(choices).listening == NoMore {
      forall later: seq<Choice> ensures Run(choices + later).listening == NoMore {
        RunGrows(choices, later);
      }
    } else {
      var later := ThrowWhileListening(choices, c);
      assert At(Run(choices + later), c, Thrown) && Run(choices + later).listening == Now;
    }
  }

  /** From here on c can throw while the other side is listening. */
  ghost predicate MayThrowHeard(choices: seq<Choice>, c: CallId) {
    exists later: seq<Choice> :: ThrowsHeard(choices + later, c)
  }

  ghost predicate ThrowsHeard(choices: seq<Choice>, c: CallId) {
    At(Run(choices), c, Thrown) && Run(choices).listening == Now
  }

  lemma AfterOneMore(choices: seq<Choice>, a: Choice, c: CallId)
    requires MayThrowHeard(choices + [a], c)
    ensures MayThrowHeard(choices, c)
  {
    var later :| ThrowsHeard((choices + [a]) + later, c);
    Regroup(choices, [a], later);
    assert ThrowsHeard(choices + ([a] + later), c);
  }

  /** Call c was refused, the other side listens, and call h is at the given stage. */
  ghost predicate Waits(s: State, c: CallId, h: CallId, stage: Stage) {
    Inv(s) && At(s, c, Refused) && s.listening == Now && At(s, h, stage)
  }

  lemma FromFlag(choices: seq<Choice>, c: CallId)
    requires At(Run(choices), c, Refused) && Run(choices).listening == Now && Run(choices).sentFirst
    ensures MayThrowHeard(choices, c)
  {
    RunStep(choices, TestFlag(c));
    var all := choices + [TestFlag(c)];
    assert ThrowsHeard(all, c);
    assert all + [] == all;
    AfterOneMore(choices, TestFlag(c), c);
  }

  lemma FlagIsSet(s: State, c: CallId, h: CallId)
    requires At(s, c, Refused) && s.listening == Now && At(s, h, PrimaryGot)
    ensures var s' := Step(s, SetFlag(h));
      At(s', c, Refused) && s'.listening == Now && s'.sentFirst
  {
  }

  lemma FromGot(choices: seq<Choice>, c: CallId, h: CallId)
    requires Waits(Run(choices), c, h, PrimaryGot)
    ensures MayThrowHeard(choices, c)
  {
    RunStep(choices, SetFlag(h));
    FlagIsSet(Run(choices), c, h);
    FromFlag(choices + [SetFlag(h)], c);
    AfterOneMore(choices, SetFlag(h), c);
  }

  lemma ResponseIsRead(s: State, c: CallId, h: CallId)
    requires Waits(s, c, h, PrimaryRead) && s.toClient != []
    ensures var s' := Step(s, Read(h));
      Waits(s', c, h, PrimaryGot)
  {
    assert Step(s, Read(h)) == ReadPrimaryDone(s, h);
    ReadPrimaryKeepsInv(s, h);
  }

  lemma FromAnswered(choices: seq<Choice>, c: CallId, h: CallId)
    requires Waits(Run(choices), c, h, PrimaryRead) && Run(choices).toClient != []
    ensures MayThrowHeard(choices, c)
  {
    RunStep(choices, Read(h));
    ResponseIsRead(Run(choices), c, h);
    FromGot(choices + [Read(h)], c, h);
    AfterOneMore(choices, Read(h), c);
  }

  lemma RequestIsAnswered(s: State, c: CallId, h: CallId)
    requires Waits(s, c, h, PrimaryRead) && s.handling.Some?
    ensures var s' := Step(s, AnswerPrimary(0));
      Waits(s', c, h, PrimaryRead) && s'.toClient != []
  {
    assert Step(s, AnswerPrimary(0)) == AnswerPrimaryDone(s, 0);
    AnswerPrimaryKeepsInv(s, 0);
  }

  lemma FromHandled(choices: seq<Choice>, c: CallId, h: CallId)
    requires Waits(Run(choices), c, h, PrimaryRead) && Run(choices).handling.Some?
    ensures MayThrowHeard(choices, c)
  {
    RunStep(choices, AnswerPrimary(0));
    RequestIsAnswered(Run(choices), c, h);
    FromAnswered(choices + [AnswerPrimary(0)], c, h);
    AfterOneMore(choices, AnswerPrimary(0), c);
  }

  lemma RequestIsRead(s: State, c: CallId, h: CallId)
    requires Waits(s, c, h, PrimaryRead) && s.toServer != [] && s.handling.None?
    ensures var s' := Step(s, ReadPrimary);
      Waits(s', c, h, PrimaryRead) && s'.handling.Some?
  {
    assert Step(s, ReadPrimary) == ServePrimaryDone(s);
    ServePrimaryKeepsInv(s);
  }

  lemma FromWritten(choices: seq<Choice>, c: CallId, h: CallId)
    requires Waits(Run(choices), c, h, PrimaryRead) && Run(choices).toServer != [] && Run(choices).handling.None?
    ensures MayThrowHeard(choices, c)
  {
    RunStep(choices, ReadPrimary);
    RequestIsRead(Run(choices), c, h);
    FromHandled(choices + [ReadPrimary], c, h);
    AfterOneMore(choices, ReadPrimary, c);
  }

  lemma RequestIsWritten(s: State, c: CallId, h: CallId)
    requires Waits(s, c, h, PrimaryWrite)
    ensures var s' := Step(s, Write(h));
      Waits(s', c, h, PrimaryRead) && s'.toServer != [] && s'.handling.None?
  {
    assert Step(s, Write(h)) == WritePrimaryDone(s, h);
    assert CallInv(s, h);
    WritePrimaryKeepsInv(s, h);
  }

  lemma FromLocked(choices: seq<Choice>, c: CallId, h: CallId)
    requires Waits(Run(choices), c, h, PrimaryWrite)
    ensures MayThrowHeard(choices, c)
  {
    RunStep(choices, Write(h));
    RequestIsWritten(Run(choices), c, h);
    FromWritten(choices + [Write(h)], c, h);
    AfterOneMore(choices, Write(h), c);
  }

  lemma LockIsTaken(s: State, c: CallId, h: CallId)
    requires Waits(s, c, h, Ready) && s.mutex.None?
    ensures var s' := Step(s, TryLock(h, true));
      Waits(s', c, h, PrimaryWrite)
  {
    assert Step(s, TryLock(h, true)) == TryLockDone(s, h, true);
    TryLockKeepsInv(s, h, true);
  }

  lemma FromReady(choices: seq<Choice>, c: CallId, h: CallId)
    requires Waits(Run(choices), c, h, Ready) && Run(choices).mutex.None?
    ensures MayThrowHeard(choices, c)
  {
    RunStep(choices, TryLock(h, true));
    LockIsTaken(Run(choices), c, h);
    FromLocked(choices + [TryLock(h, true)], c, h);
    AfterOneMore(choices, TryLock(h, true), c);
  }

  lemma FreshCall(calls: map<CallId, Call>) returns (c: CallId)
    ensures c !in calls
  {
    var ids := calls.Keys;
    c := BoundOf(ids);
  }

  lemma FromFree(choices: seq<Choice>, c: CallId)
    requires Inv(Run(choices)) && At(Run(choices), c, Refused) && Run(choices).listening == Now
    requires Run(choices).mutex.None?
    ensures MayThrowHeard(choices, c)
  {
    var h := FreshCall(Run(choices).calls);
    RunStep(choices, Send(h, 0));
    SendKeepsInv(Run(choices), h, 0);
    FromReady(choices + [Send(h, 0)], c, h);
    AfterOneMore(choices, Send(h, 0), c);
  }

  lemma FromHeld(choices: seq<Choice>, c: CallId, h: CallId)
    requires Inv(Run(choices)) && At(Run(choices), c, Refused) && Run(choices).listening == Now
    requires Run(choices).mutex == Some(h)
    ensures MayThrowHeard(choices, c)
  {
    var s := Run(choices);
    HolderStage(s, h);
    match s.calls[h].stage
    case PrimaryWrite => FromLocked(choices, c, h);
    case PrimaryGot => FromGot(choices, c, h);
    case PrimaryUnlock => FromFlag(choices, c);
    case PrimaryRead =>
      if s.toClient != [] { FromAnswered(choices, c, h); }
      else if s.handling.Some? { FromHandled(choices, c, h); }
      else { FromWritten(choices, c, h); }
  }

  lemma HolderStage(s: State, h: CallId)
    requires CallsInv(s) && s.mutex == Some(h)
    ensures h in s.calls && HoldsLock(s.calls[h].stage)
    ensures s.calls[h].stage == PrimaryUnlock ==> s.sentFirst
    ensures s.calls[h].stage == PrimaryRead ==> !PrimaryIdle(s)
  {
    assert CallInv(s, h);
  }

  lemma FromListening(choices: seq<Choice>, c: CallId)
    requires Inv(Run(choices)) && At(Run(choices), c, Refused) && Run(choices).listening == Now
    ensures MayThrowHeard(choices, c)
  {
    if Run(choices).mutex.None? {
      FromFree(choices, c);
    } else {
      FromHeld(choices, c, Run(choices).mutex.value);
    }
  }

  /** If the other side has not stopped listening, it can come to listen while an exchange on
      the primary socket completes before c tests the flag. */
  lemma ThrowWhileListening(choices: seq<Choice>, c: CallId) returns (later: seq<Choice>)
    requires At(Run(choices), c, Refused) && Run(choices).listening != NoMore
    ensures At(Run(choices + later), c, Thrown) && Run(choices + later).listening == Now
  {
    ReachableInv(choices);
    if Run(choices).listening == Now {
      FromListening(choices, c);
    } else {
      RunStep(choices, StartListening);
      ReachableInv(choices + [StartListening]);
      FromListening(choices + [StartListening], c);
      AfterOneMore(choices, StartListening, c);
    }
    later :| ThrowsHeard(choices + later, c);
  }

  /** Such a refusal happens: a call throws while the other side is listening. */
  lemma MayThrowWhileListening()
    ensures exists choices: seq<Choice> :: ThrowsHeard(choices, 1)
  {
    var choices := RefusedBeforeListening();
    var later := ThrowWhileListening(choices, 1);
    assert ThrowsHeard(choices + later, 1);
  }

  /** Call 0 holds the lock, and call 1 has been refused a socket. */
  lemma RefusedBeforeListening() returns (choices: seq<Choice>)
    ensures At(Run(choices), 1, Refused) && Run(choices).listening == NotYet
  {
    RunStep([], Send(1, 0));
    var c1 := [] + [Send(1, 0)];
    RunStep(c1, TryLock(1, false));
    var c2 := c1 + [TryLock(1, false)];
    RunStep(c2, Connect(1, 0));
    choices := c2 + [Connect(1, 0)];
  }
}
