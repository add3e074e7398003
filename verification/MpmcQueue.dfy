/**
 The bounded multi-producer multi-consumer queue, as a transition system over a
 sequentially consistent memory. Every atomic load, store, fetch-and-add and
 compare-and-exchange is one step, and so is each access to a slot's storage.
 */
module MpmcQueue {
  import opened Common

  type ThreadId = nat

  /** A slot's raw storage: no object, an object holding a value, or an object already moved from. */
  datatype Storage<T> = Empty | Live(value: T) | Moved

  datatype Slot<T> = Slot(turn: nat, storage: Storage<T>)

  function Idx(capacity: nat, ticket: nat): (i: nat)
    requires capacity >= 1
    ensures i < capacity
  {
    ticket % capacity
  }

  function Turn(capacity: nat, ticket: nat): nat
    requires capacity >= 1
  {
    ticket / capacity
  }

  /** Where a thread stands: the next shared-memory access it will make. */
  datatype Pc<T> =
    | Idle
    | EmplaceTicket(v: T)                  // head_.fetch_add(1)
    | EmplaceSpin(v: T, ticket: nat)       // spin on slot.turn
    | TryEmplaceLoad(v: T)                 // first head_.load
    | TryEmplaceCheck(v: T, seen: nat)     // slot.turn.load
    | TryEmplaceCas(v: T, seen: nat)       // head_.compare_exchange_strong
    | TryEmplaceReload(v: T, seen: nat)    // second head_.load
    | Construct(v: T, ticket: nat)         // slot.construct
    | Publish(v: T, ticket: nat)           // slot.turn.store, odd value
    | PopTicket                            // tail_.fetch_add(1)
    | PopSpin(ticket: nat)                 // spin on slot.turn
    | TryPopLoad                           // first tail_.load
    | TryPopCheck(seen: nat)               // slot.turn.load
    | TryPopCas(seen: nat)                 // tail_.compare_exchange_strong
    | TryPopReload(seen: nat)              // second tail_.load
    | Take(ticket: nat)                    // v = slot.move()
    | Destroy(ticket: nat, got: T)         // slot.destroy()
    | Release(ticket: nat, got: T)         // slot.turn.store, even value

  datatype Operation<T> = Emplace(v: T) | TryEmplace(v: T) | Pop | TryPop

  /** What a finished call returned. */
  datatype Event<T> =
    | Pushed(thread: ThreadId, ticket: nat, value: T)
    | PushRefused(thread: ThreadId, value: T)
    | Popped(thread: ThreadId, ticket: nat, value: T)
    | PopRefused(thread: ThreadId)

  datatype Issue<T> = Issue(thread: ThreadId, value: T)

  /** Shared memory, the threads' positions, and three records that no step reads:
      who drew each producer and consumer ticket, and what the finished calls returned. */
  datatype State<T> = State(
    slots: seq<Slot<T>>,
    head: nat,
    tail: nat,
    pcs: map<ThreadId, Pc<T>>,
    pushes: seq<Issue<T>>,
    pops: seq<ThreadId>,
    log: seq<Event<T>>)
  {
    predicate Shaped() {
      |slots| >= 1
    }

    function Capacity(): nat {
      |slots|
    }

    function SlotOf(ticket: nat): Slot<T>
      requires Shaped()
    {
      slots[Idx(|slots|, ticket)]
    }

    function At(t: ThreadId): Pc<T> {
      if t in pcs then pcs[t] else Idle
    }

    function Goto(t: ThreadId, pc: Pc<T>): State<T> {
      this.(pcs := pcs[t := pc])
    }

    function Finish(t: ThreadId, e: Event<T>): State<T> {
      this.(pcs := pcs[t := Idle], log := log + [e])
    }

    function Store(ticket: nat, slot: Slot<T>): State<T>
      requires Shaped()
    {
      this.(slots := slots[Idx(|slots|, ticket) := slot])
    }

    predicate Quiescent() {
      forall t :: t in pcs ==> pcs[t].Idle?
    }
  }

  function Initial<T>(capacity: nat): State<T>
    requires capacity >= 1
  {
    State(seq(capacity, _ => Slot(0, Empty)), 0, 0, map[], [], [], [])
  }

  datatype Choice<T> = Call(thread: ThreadId, op: Operation<T>) | Advance(thread: ThreadId)

  function Begin<T>(op: Operation<T>): Pc<T> {
    match op
    case Emplace(v) => EmplaceTicket(v)
    case TryEmplace(v) => TryEmplaceLoad(v)
    case Pop => PopTicket
    case TryPop => TryPopLoad
  }

  /** A choice of the scheduler that is not possible leaves the state as it is. */
  function Step<T>(s: State<T>, c: Choice<T>): (s': State<T>)
    requires s.Shaped()
    ensures |s'.slots| == |s.slots|
  {
    match c
    case Call(t, op) => if s.At(t).Idle? then s.Goto(t, Begin(op)) else s
    case Advance(t) => StepThread(s, t)
  }

  /** In the part of a push that draws a ticket and waits for its slot. */
  predicate DrawingPush<T>(pc: Pc<T>) {
    || pc.EmplaceTicket? || pc.EmplaceSpin?
    || pc.TryEmplaceLoad? || pc.TryEmplaceCheck? || pc.TryEmplaceCas? || pc.TryEmplaceReload?
  }

  predicate AccessesStorage<T>(pc: Pc<T>) {
    pc.Construct? || pc.Take? || pc.Destroy?
  }

  predicate StoresTurn<T>(pc: Pc<T>) {
    pc.Publish? || pc.Release?
  }

  /** Inside the part of an operation that touches a slot's storage. */
  predicate InSection<T>(pc: Pc<T>) {
    AccessesStorage(pc) || StoresTurn(pc)
  }

  /** Idle, or in the part of a pop that draws a ticket and waits for its slot. */
  predicate DrawingPop<T>(pc: Pc<T>) {
    !DrawingPush(pc) && !InSection(pc)
  }

  function StepThread<T>(s: State<T>, t: ThreadId): (s': State<T>)
    requires s.Shaped()
    ensures |s'.slots| == |s.slots|
  {
    if DrawingPush(s.At(t)) then PushStep(s, t)
    else if AccessesStorage(s.At(t)) then StorageStep(s, t)
    else if StoresTurn(s.At(t)) then TurnStep(s, t)
    else PopStep(s, t)
  }

  function PushStep<T>(s: State<T>, t: ThreadId): (s': State<T>)
    requires s.Shaped() && DrawingPush(s.At(t))
    ensures |s'.slots| == |s.slots|
  {
    var cap := |s.slots|;
    match s.At(t)
    case EmplaceTicket(v) => DrawPush(s, t, v).Goto(t, EmplaceSpin(v, s.head))
    case EmplaceSpin(v, n) =>
      if s.SlotOf(n).turn == Turn(cap, n) * 2 then s.Goto(t, Construct(v, n)) else s
    case TryEmplaceLoad(v) => s.Goto(t, TryEmplaceCheck(v, s.head))
    case TryEmplaceCheck(v, h) =>
      s.Goto(t, if s.SlotOf(h).turn == Turn(cap, h) * 2 then TryEmplaceCas(v, h) else TryEmplaceReload(v, h))
    case TryEmplaceCas(v, h) =>
      if s.head == h then DrawPush(s, t, v).Goto(t, Construct(v, h)) else s.Goto(t, TryEmplaceCheck(v, s.head))
    case TryEmplaceReload(v, h) =>
      if s.head == h then s.Finish(t, PushRefused(t, v)) else s.Goto(t, TryEmplaceCheck(v, s.head))
  }

  function PopStep<T>(s: State<T>, t: ThreadId): (s': State<T>)
    requires s.Shaped() && DrawingPop(s.At(t))
    ensures |s'.slots| == |s.slots|
  {
    var cap := |s.slots|;
    match s.At(t)
    case Idle => s
    case PopTicket => DrawPop(s, t).Goto(t, PopSpin(s.tail))
    case PopSpin(n) =>
      if s.SlotOf(n).turn == Turn(cap, n) * 2 + 1 then s.Goto(t, Take(n)) else s
    case TryPopLoad => s.Goto(t, TryPopCheck(s.tail))
    case TryPopCheck(h) =>
      s.Goto(t, if s.SlotOf(h).turn == Turn(cap, h) * 2 + 1 then TryPopCas(h) else TryPopReload(h))
    case TryPopCas(h) =>
      if s.tail == h then DrawPop(s, t).Goto(t, Take(h)) else s.Goto(t, TryPopCheck(s.tail))
    case TryPopReload(h) =>
      if s.tail == h then s.Finish(t, PopRefused(t)) else s.Goto(t, TryPopCheck(s.tail))
  }

  function StorageStep<T>(s: State<T>, t: ThreadId): (s': State<T>)
    requires s.Shaped() && AccessesStorage(s.At(t))
    ensures |s'.slots| == |s.slots|
  {
    match s.At(t)
    case Construct(v, n) => s.Store(n, s.SlotOf(n).(storage := Live(v))).Goto(t, Publish(v, n))
    case Take(n) =>
      // Only a live object can be moved from. In any other storage the thread is stuck for
      // ever, and `SectionsAreExclusive` shows that this never happens.
      (match s.SlotOf(n).storage
       case Live(x) => s.Store(n, s.SlotOf(n).(storage := Moved)).Goto(t, Destroy(n, x))
       case _ => s)
    case Destroy(n, x) => s.Store(n, s.SlotOf(n).(storage := Empty)).Goto(t, Release(n, x))
  }

  function TurnStep<T>(s: State<T>, t: ThreadId): (s': State<T>)
    requires s.Shaped() && StoresTurn(s.At(t))
    ensures |s'.slots| == |s.slots|
  {
    match s.At(t)
    case Publish(v, n) =>
      s.Store(n, s.SlotOf(n).(turn := Turn(|s.slots|, n) * 2 + 1)).Finish(t, Pushed(t, n, v))
    case Release(n, x) =>
      s.Store(n, s.SlotOf(n).(turn := Turn(|s.slots|, n) * 2 + 2)).Finish(t, Popped(t, n, x))
  }

  function DrawPush<T>(s: State<T>, t: ThreadId, v: T): State<T> {
    s.(head := s.head + 1, pushes := s.pushes + [Issue(t, v)])
  }

  function DrawPop<T>(s: State<T>, t: ThreadId): State<T> {
    s.(tail := s.tail + 1, pops := s.pops + [t])
  }

  /** The state after the scheduler's choices, in any number and for any set of threads. */
  function Run<T>(capacity: nat, choices: seq<Choice<T>>): (s: State<T>)
    requires capacity >= 1
    ensures s.Shaped() && |s.slots| == capacity
  {
    if choices == [] then Initial(capacity)
    else Step(Run(capacity, choices[..|choices| - 1]), choices[|choices| - 1])
  }

  // ---------------------------------------------------------------------------
  // The inductive invariant, ticket by ticket
  // ---------------------------------------------------------------------------

  /** The producer of this ticket has stored the odd turn. */
  ghost predicate Published<T>(s: State<T>, n: nat)
    requires s.Shaped()
  {
    s.SlotOf(n).turn > Turn(|s.slots|, n) * 2
  }

  /** The consumer of this ticket has stored the even turn. */
  ghost predicate Released<T>(s: State<T>, n: nat)
    requires s.Shaped()
  {
    s.SlotOf(n).turn > Turn(|s.slots|, n) * 2 + 1
  }

  predicate HoldsPush<T>(pc: Pc<T>, n: nat) {
    (pc.EmplaceSpin? || pc.Construct? || pc.Publish?) && pc.ticket == n
  }

  predicate HoldsPop<T>(pc: Pc<T>, n: nat) {
    (pc.PopSpin? || pc.Take? || pc.Destroy? || pc.Release?) && pc.ticket == n
  }

  ghost predicate Counted<T>(s: State<T>) {
    s.Shaped() && s.head == |s.pushes| && s.tail == |s.pops|
  }

  /** What a thread in the middle of a call may rely on. */
  ghost predicate ThreadInv<T>(s: State<T>, t: ThreadId)
    requires Counted(s)
  {
    var cap := |s.slots|;
    match s.At(t)
    case EmplaceSpin(v, n) => n < s.head && s.pushes[n] == Issue(t, v) && !Published(s, n)
    case Construct(v, n) =>
      n < s.head && s.pushes[n] == Issue(t, v) && s.SlotOf(n).turn == Turn(cap, n) * 2
    case Publish(v, n) =>
      n < s.head && s.pushes[n] == Issue(t, v) && s.SlotOf(n).turn == Turn(cap, n) * 2
    case TryEmplaceCheck(_, h) => h <= s.head
    case TryEmplaceCas(_, h) => h <= s.head && s.SlotOf(h).turn >= Turn(cap, h) * 2
    case TryEmplaceReload(_, h) => h <= s.head
    case PopSpin(n) => n < s.tail && s.pops[n] == t && !Released(s, n)
    case Take(n) => n < s.tail && s.pops[n] == t && s.SlotOf(n).turn == Turn(cap, n) * 2 + 1
    case Destroy(n, x) =>
      n < s.tail && s.pops[n] == t && s.SlotOf(n).turn == Turn(cap, n) * 2 + 1
      && n < s.head && x == s.pushes[n].value
    case Release(n, x) =>
      n < s.tail && s.pops[n] == t && s.SlotOf(n).turn == Turn(cap, n) * 2 + 1
      && n < s.head && x == s.pushes[n].value
    case TryPopCheck(h) => h <= s.tail
    case TryPopCas(h) => h <= s.tail && s.SlotOf(h).turn >= Turn(cap, h) * 2 + 1
    case TryPopReload(h) => h <= s.tail
    case _ => true
  }

  /** What the storage of ticket n's slot holds while the slot's turn is n's. */
  ghost function Expected<T>(s: State<T>, n: nat): Storage<T>
    requires Counted(s)
  {
    if !Published(s, n) then
      if n < s.head && s.At(s.pushes[n].thread) == Publish(s.pushes[n].value, n) then Live(s.pushes[n].value) else Empty
    else if n < s.head then
      if n < s.tail && s.At(s.pops[n]).Destroy? && s.At(s.pops[n]).ticket == n then Moved
      else if n < s.tail && s.At(s.pops[n]).Release? && s.At(s.pops[n]).ticket == n then Empty
      else Live(s.pushes[n].value)
    else Empty
  }

  /** The slot's turn is n's: n is the ticket next produced or next consumed there. */
  ghost predicate Current<T>(s: State<T>, n: nat)
    requires s.Shaped()
  {
    Turn(|s.slots|, n) * 2 <= s.SlotOf(n).turn <= Turn(|s.slots|, n) * 2 + 1
  }

  /** Every ticket drawn and not finished is held by the thread that drew it, only drawn
      tickets are finished, and the slot's storage is what the ticket's stage says. */
  ghost predicate TicketInv<T>(s: State<T>, n: nat)
    requires Counted(s)
  {
    && (Published(s, n) ==> n < s.head)
    && (Released(s, n) ==> n < s.tail)
    && (n < s.head && !Published(s, n) ==> HoldsPush(s.At(s.pushes[n].thread), n))
    && (n < s.tail && !Released(s, n) ==> HoldsPop(s.At(s.pops[n]), n))
    && (Current(s, n) ==> s.SlotOf(n).storage == Expected(s, n))
  }

  ghost predicate EventInv<T>(s: State<T>, e: Event<T>)
    requires Counted(s)
  {
    match e
    case Pushed(t, n, v) => n < s.head && s.pushes[n] == Issue(t, v) && Published(s, n)
    case Popped(t, n, v) =>
      n < s.head && n < s.tail && s.pops[n] == t && v == s.pushes[n].value && Released(s, n)
    case _ => true
  }

  /** A finished ticket is in the log, with the value of the thread that drew it. */
  ghost predicate LoggedInv<T>(s: State<T>, n: nat)
    requires Counted(s)
  {
    && (Published(s, n) && n < s.head ==> Pushed(s.pushes[n].thread, n, s.pushes[n].value) in s.log)
    && (Released(s, n) && n < s.head && n < s.tail ==> Popped(s.pops[n], n, s.pushes[n].value) in s.log)
  }

  predicate SameKind<T>(e: Event<T>, f: Event<T>) {
    (e.Popped? && f.Popped?) || (e.Pushed? && f.Pushed?)
  }

  /** Neither end finishes one ticket twice. */
  ghost predicate Distinct<T>(log: seq<Event<T>>) {
    forall i, j :: 0 <= i < j < |log| && SameKind(log[i], log[j]) ==> log[i].ticket != log[j].ticket
  }

  /** Every consumer's return comes after the return of the producer of its value. */
  ghost predicate Ordered<T>(s: State<T>) {
    forall i :: 0 <= i < |s.log| && s.log[i].Popped? ==>
      s.log[i].ticket < |s.pushes|
      && Pushed(s.pushes[s.log[i].ticket].thread, s.log[i].ticket, s.log[i].value) in s.log[..i]
  }

  ghost predicate Inv<T>(s: State<T>) {
    && Counted(s)
    && (forall t: ThreadId :: ThreadInv(s, t))
    && (forall n: nat :: TicketInv(s, n))
    && (forall e :: e in s.log ==> EventInv(s, e))
    && (forall n: nat :: LoggedInv(s, n))
    && Distinct(s.log)
    && Ordered(s)
  }

  lemma InitialInv<T>(capacity: nat)
    requires capacity >= 1
    ensures Inv(Initial<T>(capacity))
  {
    var s := Initial<T>(capacity);
    forall t: ThreadId ensures ThreadInv(s, t) {
      assert s.At(t) == Idle;
    }
  }

  /** Two tickets that share slot and turn are the same ticket. */
  lemma SameSlotSameTurn(cap: nat, m: nat, n: nat)
    requires cap >= 1 && Idx(cap, m) == Idx(cap, n) && Turn(cap, m) == Turn(cap, n)
    ensures m == n
  {
  }

  // ---------------------------------------------------------------------------
  // Every step keeps it: outside the sections nothing but counters and one thread change,
  // a storage access leaves every turn alone, and the last step of a section stores a turn
  // ---------------------------------------------------------------------------

  /** s' agrees with s on the slots and on every thread but t, and has drawn no fewer tickets. */
  ghost predicate SameMemory<T>(s: State<T>, s': State<T>, t: ThreadId) {
    && s'.slots == s.slots
    && s.head <= s'.head && s.tail <= s'.tail
    && s.pushes <= s'.pushes && s.pops <= s'.pops
    && s'.head == |s'.pushes| && s'.tail == |s'.pops|
    && (forall u: ThreadId :: u != t ==> s'.At(u) == s.At(u))
  }

  /** s' agrees with s on all turns and tickets, and on every thread but t. */
  ghost predicate SameTurns<T>(s: State<T>, s': State<T>, t: ThreadId) {
    && |s'.slots| == |s.slots|
    && (forall i :: 0 <= i < |s.slots| ==> s'.slots[i].turn == s.slots[i].turn)
    && s'.head == s.head && s'.tail == s.tail && s'.pushes == s.pushes && s'.pops == s.pops
    && (forall u: ThreadId :: u != t ==> s'.At(u) == s.At(u))
  }

  /** No turn and no ticket is taken back. */
  ghost predicate TurnsGrow<T>(s: State<T>, s': State<T>) {
    && Counted(s) && Counted(s') && |s'.slots| == |s.slots|
    && (forall i :: 0 <= i < |s.slots| ==> s.slots[i].turn <= s'.slots[i].turn)
    && s.pushes <= s'.pushes && s.pops <= s'.pops
  }

  /** The log stays as it is, or grows by the event of a refusal. */
  ghost predicate OnlyRefusals<T>(s: State<T>, s': State<T>) {
    || s'.log == s.log
    || (|s'.log| == |s.log| + 1 && s.log <= s'.log && !s'.log[|s.log|].Pushed? && !s'.log[|s.log|].Popped?)
  }

  lemma OthersUnaffected<T>(s: State<T>, s': State<T>, t: ThreadId, u: ThreadId)
    requires Counted(s) && SameMemory(s, s', t) && u != t && ThreadInv(s, u)
    ensures Counted(s') && ThreadInv(s', u)
  {
  }

  lemma SameTurnsKeepOtherInv<T>(s: State<T>, s': State<T>, t: ThreadId, u: ThreadId)
    requires Counted(s) && SameTurns(s, s', t) && u != t && ThreadInv(s, u)
    ensures Counted(s') && ThreadInv(s', u)
  {
  }

  lemma EventKept<T>(s: State<T>, s': State<T>, e: Event<T>)
    requires TurnsGrow(s, s') && EventInv(s, e)
    ensures EventInv(s', e)
  {
  }

  lemma LoggedKept<T>(s: State<T>, s': State<T>, t: ThreadId, n: nat)
    requires Counted(s) && (SameMemory(s, s', t) || SameTurns(s, s', t)) && s.log <= s'.log
    requires TicketInv(s, n) && LoggedInv(s, n)
    ensures Counted(s') && LoggedInv(s', n)
  {
    assert forall e :: e in s.log ==> e in s'.log;
  }

  lemma RefusalsKeepDistinct<T>(s: State<T>, s': State<T>)
    requires OnlyRefusals(s, s') && Distinct(s.log)
    ensures Distinct(s'.log)
  {
  }

  lemma RefusalsKeepOrder<T>(s: State<T>, s': State<T>)
    requires OnlyRefusals(s, s') && s.pushes <= s'.pushes && Ordered(s)
    ensures Ordered(s')
  {
    forall i | 0 <= i < |s'.log| && s'.log[i].Popped?
      ensures s'.log[i].ticket < |s'.pushes|
      ensures Pushed(s'.pushes[s'.log[i].ticket].thread, s'.log[i].ticket, s'.log[i].value) in s'.log[..i]
    {
      assert s'.log[i] == s.log[i] && s'.log[..i] == s.log[..i];
    }
  }

  lemma RefusalsKeepEvents<T>(s: State<T>, s': State<T>, e: Event<T>)
    requires Inv(s) && OnlyRefusals(s, s') && TurnsGrow(s, s') && e in s'.log
    ensures EventInv(s', e)
  {
    if e in s.log {
      EventKept(s, s', e);
    }
  }

  /** A step of thread t that stores no turn keeps the invariant if it keeps t's part and the
      tickets in order. */
  lemma QuietStep<T>(s: State<T>, s': State<T>, t: ThreadId)
    requires Inv(s) && (SameMemory(s, s', t) || SameTurns(s, s', t)) && OnlyRefusals(s, s')
    requires Counted(s') && ThreadInv(s', t) && forall n: nat :: TicketInv(s', n)
    ensures Inv(s')
  {
    forall u: ThreadId ensures ThreadInv(s', u) {
      if u != t {
        if SameMemory(s, s', t) { OthersUnaffected(s, s', t, u); } else { SameTurnsKeepOtherInv(s, s', t, u); }
      }
    }
    forall n: nat ensures LoggedInv(s', n) { LoggedKept(s, s', t, n); }
    forall e | e in s'.log ensures EventInv(s', e) { RefusalsKeepEvents(s, s', e); }
    RefusalsKeepDistinct(s, s');
    RefusalsKeepOrder(s, s');
  }

  // Drawing a ticket and waiting for its slot

  lemma PushStepFrame<T>(s: State<T>, t: ThreadId)
    requires Counted(s) && DrawingPush(s.At(t))
    ensures SameMemory(s, PushStep(s, t), t) && OnlyRefusals(s, PushStep(s, t))
  {
  }

  lemma PopStepFrame<T>(s: State<T>, t: ThreadId)
    requires Counted(s) && DrawingPop(s.At(t))
    ensures SameMemory(s, PopStep(s, t), t) && OnlyRefusals(s, PopStep(s, t))
  {
  }

  lemma PushStepKeepsOwnInv<T>(s: State<T>, t: ThreadId)
    requires Counted(s) && DrawingPush(s.At(t)) && ThreadInv(s, t) && TicketInv(s, s.head)
    ensures Counted(PushStep(s, t)) && ThreadInv(PushStep(s, t), t)
  {
  }

  lemma PopStepKeepsOwnInv<T>(s: State<T>, t: ThreadId)
    requires Counted(s) && DrawingPop(s.At(t)) && ThreadInv(s, t) && TicketInv(s, s.tail)
    ensures Counted(PopStep(s, t)) && ThreadInv(PopStep(s, t), t)
  {
  }

  /** Thread t holds on to its tickets, and to those it draws. */
  ghost predicate HoldsOn<T>(s: State<T>, s': State<T>, t: ThreadId, n: nat)
    requires Counted(s) && Counted(s')
  {
    && !AccessesStorage(s.At(t)) && !StoresTurn(s.At(t)) && !StoresTurn(s'.At(t)) && !s'.At(t).Destroy?
    && (HoldsPush(s.At(t), n) ==> HoldsPush(s'.At(t), n))
    && (HoldsPop(s.At(t), n) ==> HoldsPop(s'.At(t), n))
    && (s.head <= n < s'.head ==> s'.pushes[n].thread == t && HoldsPush(s'.At(t), n))
    && (s.tail <= n < s'.tail ==> s'.pops[n] == t && HoldsPop(s'.At(t), n))
  }

  lemma HeldTicketKept<T>(s: State<T>, s': State<T>, t: ThreadId, n: nat)
    requires Counted(s) && SameMemory(s, s', t) && Counted(s') && HoldsOn(s, s', t, n) && TicketInv(s, n)
    ensures TicketInv(s', n)
  {
  }

  lemma PushStepHoldsOn<T>(s: State<T>, t: ThreadId, n: nat)
    requires Counted(s) && DrawingPush(s.At(t))
    ensures Counted(PushStep(s, t)) && HoldsOn(s, PushStep(s, t), t, n)
  {
  }

  lemma PopStepHoldsOn<T>(s: State<T>, t: ThreadId, n: nat)
    requires Counted(s) && DrawingPop(s.At(t))
    ensures Counted(PopStep(s, t)) && HoldsOn(s, PopStep(s, t), t, n)
  {
  }

  lemma PushStepKeepsInv<T>(s: State<T>, t: ThreadId)
    requires Inv(s) && DrawingPush(s.At(t))
    ensures Inv(PushStep(s, t))
  {
    PushStepFrame(s, t);
    PushStepKeepsOwnInv(s, t);
    forall n: nat ensures TicketInv(PushStep(s, t), n) {
      PushStepHoldsOn(s, t, n);
      HeldTicketKept(s, PushStep(s, t), t, n);
    }
    QuietStep(s, PushStep(s, t), t);
  }

  lemma PopStepKeepsInv<T>(s: State<T>, t: ThreadId)
    requires Inv(s) && DrawingPop(s.At(t))
    ensures Inv(PopStep(s, t))
  {
    PopStepFrame(s, t);
    PopStepKeepsOwnInv(s, t);
    forall n: nat ensures TicketInv(PopStep(s, t), n) {
      PopStepHoldsOn(s, t, n);
      HeldTicketKept(s, PopStep(s, t), t, n);
    }
    QuietStep(s, PopStep(s, t), t);
  }

  // Storage accesses

  lemma StorageStepFrame<T>(s: State<T>, t: ThreadId)
    requires Counted(s) && AccessesStorage(s.At(t))
    ensures SameTurns(s, StorageStep(s, t), t) && StorageStep(s, t).log == s.log
  {
  }

  lemma StorageStepKeepsOwnInv<T>(s: State<T>, t: ThreadId)
    requires Counted(s) && AccessesStorage(s.At(t)) && ThreadInv(s, t) && TicketInv(s, s.At(t).ticket)
    ensures Counted(StorageStep(s, t)) && ThreadInv(StorageStep(s, t), t)
  {
  }

  lemma SameSlot<T>(s: State<T>, m: nat, n: nat)
    requires s.Shaped()
    ensures Idx(|s.slots|, m) == Idx(|s.slots|, n) && Turn(|s.slots|, m) == Turn(|s.slots|, n) ==> m == n
  {
    if Idx(|s.slots|, m) == Idx(|s.slots|, n) && Turn(|s.slots|, m) == Turn(|s.slots|, n) {
      SameSlotSameTurn(|s.slots|, m, n);
    }
  }

  lemma StorageStepKeepsOwnTicket<T>(s: State<T>, t: ThreadId)
    requires Counted(s) && AccessesStorage(s.At(t)) && ThreadInv(s, t) && TicketInv(s, s.At(t).ticket)
    ensures Counted(StorageStep(s, t)) && TicketInv(StorageStep(s, t), s.At(t).ticket)
  {
  }

  lemma StorageStepKeepsOtherTicket<T>(s: State<T>, t: ThreadId, n: nat)
    requires Counted(s) && AccessesStorage(s.At(t)) && ThreadInv(s, t)
    requires TicketInv(s, n) && n != s.At(t).ticket
    ensures Counted(StorageStep(s, t)) && TicketInv(StorageStep(s, t), n)
  {
    SameSlot(s, s.At(t).ticket, n);
  }

  lemma StorageStepKeepsInv<T>(s: State<T>, t: ThreadId)
    requires Inv(s) && AccessesStorage(s.At(t))
    ensures Inv(StorageStep(s, t))
  {
    StorageStepFrame(s, t);
    StorageStepKeepsOwnInv(s, t);
    forall n: nat ensures TicketInv(StorageStep(s, t), n) {
      if n == s.At(t).ticket { StorageStepKeepsOwnTicket(s, t); } else { StorageStepKeepsOtherTicket(s, t, n); }
    }
    QuietStep(s, StorageStep(s, t), t);
  }

  // The store of a turn

  /** What one end's store of a turn does: ticket m's slot gets a higher turn, thread t is
      idle, and the log gets the event of its return. */
  ghost predicate StoredTurn<T>(s: State<T>, s': State<T>, t: ThreadId, m: nat, turn: nat, e: Event<T>) {
    && s.Shaped() && s.SlotOf(m).turn <= turn
    && s' == s.Store(m, s.SlotOf(m).(turn := turn)).Finish(t, e)
  }

  lemma StoreFrame<T>(s: State<T>, s': State<T>, t: ThreadId, m: nat, turn: nat, e: Event<T>)
    requires Counted(s) && StoredTurn(s, s', t, m, turn, e)
    ensures TurnsGrow(s, s') && s'.pushes == s.pushes && s'.pops == s.pops && s'.log == s.log + [e] && s'.At(t) == Idle
    ensures forall u: ThreadId :: u != t ==> s'.At(u) == s.At(u)
    ensures forall n: nat ::
      s'.SlotOf(n) == if Idx(|s.slots|, n) == Idx(|s.slots|, m) then s.SlotOf(n).(turn := turn) else s.SlotOf(n)
  {
  }

  /** No other thread relies on the turn of a slot whose section thread t is in. */
  lemma PublishKeepsOtherInv<T>(s: State<T>, s': State<T>, t: ThreadId, u: ThreadId, m: nat, e: Event<T>)
    requires Counted(s) && StoredTurn(s, s', t, m, Turn(|s.slots|, m) * 2 + 1, e) && u != t
    requires s.At(t).Publish? && s.At(t).ticket == m && ThreadInv(s, t) && ThreadInv(s, u)
    ensures Counted(s') && ThreadInv(s', u)
  {
    SlotMates(s, m, s.At(u));
    assert s'.At(u) == s.At(u);
  }

  lemma ReleaseKeepsOtherInv<T>(s: State<T>, s': State<T>, t: ThreadId, u: ThreadId, m: nat, e: Event<T>)
    requires Counted(s) && StoredTurn(s, s', t, m, Turn(|s.slots|, m) * 2 + 2, e) && u != t
    requires s.At(t).Release? && s.At(t).ticket == m && ThreadInv(s, t) && ThreadInv(s, u)
    ensures Counted(s') && ThreadInv(s', u)
  {
    SlotMates(s, m, s.At(u));
    assert s'.At(u) == s.At(u);
  }

  predicate HasTicket<T>(pc: Pc<T>) {
    InSection(pc) || pc.EmplaceSpin? || pc.PopSpin?
  }

  lemma SlotMates<T>(s: State<T>, m: nat, other: Pc<T>)
    requires s.Shaped()
    ensures HasTicket(other) ==>
      Idx(|s.slots|, m) == Idx(|s.slots|, other.ticket) && Turn(|s.slots|, m) == Turn(|s.slots|, other.ticket) ==>
        m == other.ticket
  {
    if HasTicket(other) {
      SameSlot(s, m, other.ticket);
    }
  }

  lemma PublishKeepsTicketInv<T>(s: State<T>, s': State<T>, t: ThreadId, n: nat, m: nat, e: Event<T>)
    requires Counted(s) && StoredTurn(s, s', t, m, Turn(|s.slots|, m) * 2 + 1, e)
    requires s.At(t).Publish? && s.At(t).ticket == m && ThreadInv(s, t) && TicketInv(s, n) && TicketInv(s, m)
    requires n < s.tail ==> ThreadInv(s, s.pops[n])
    ensures Counted(s') && TicketInv(s', n)
  {
    SameSlot(s, m, n);
    StoreFrame(s, s', t, m, Turn(|s.slots|, m) * 2 + 1, e);
  }

  lemma ReleaseKeepsTicketInv<T>(s: State<T>, s': State<T>, t: ThreadId, n: nat, m: nat, e: Event<T>)
    requires Counted(s) && StoredTurn(s, s', t, m, Turn(|s.slots|, m) * 2 + 2, e)
    requires s.At(t).Release? && s.At(t).ticket == m && ThreadInv(s, t) && TicketInv(s, n) && TicketInv(s, m)
    requires n < s.head ==> ThreadInv(s, s.pushes[n].thread)
    ensures Counted(s') && TicketInv(s', n)
  {
    SameSlot(s, m, n);
    StoreFrame(s, s', t, m, Turn(|s.slots|, m) * 2 + 2, e);
  }

  /** The event of a return, which finishes a ticket for the first time. */
  ghost predicate Finishes<T>(s: State<T>, e: Event<T>)
    requires Counted(s)
  {
    || (e.Pushed? && e.ticket < s.head && s.pushes[e.ticket] == Issue(e.thread, e.value) && !Published(s, e.ticket))
    || (e.Popped? && e.ticket < s.head && e.ticket < s.tail && s.pops[e.ticket] == e.thread
        && s.pushes[e.ticket].value == e.value && Published(s, e.ticket) && !Released(s, e.ticket))
  }

  lemma StoreKeepsLogged<T>(s: State<T>, s': State<T>, t: ThreadId, m: nat, turn: nat, e: Event<T>, n: nat)
    requires Counted(s) && StoredTurn(s, s', t, m, turn, e) && Finishes(s, e) && e.ticket == m
    requires turn == Turn(|s.slots|, m) * 2 + (if e.Pushed? then 1 else 2)
    requires LoggedInv(s, n) && Current(s, m)
    ensures Counted(s') && LoggedInv(s', n)
  {
    SameSlot(s, m, n);
    StoreFrame(s, s', t, m, turn, e);
    assert forall f :: f in s.log ==> f in s'.log;
    assert e in s'.log;
  }

  lemma FinishKeepsDistinct<T>(s: State<T>, e: Event<T>)
    requires Counted(s) && Finishes(s, e) && Distinct(s.log) && forall f :: f in s.log ==> EventInv(s, f)
    ensures Distinct(s.log + [e])
  {
    var log := s.log + [e];
    forall i, j | 0 <= i < j < |log| && SameKind(log[i], log[j]) ensures log[i].ticket != log[j].ticket {
      assert log[i] == s.log[i] && s.log[i] in s.log;
      assert EventInv(s, s.log[i]);
    }
  }

  lemma FinishKeepsOrder<T>(s: State<T>, s': State<T>, e: Event<T>)
    requires Counted(s) && Finishes(s, e) && Ordered(s) && LoggedInv(s, e.ticket)
    requires s'.pushes == s.pushes && s'.log == s.log + [e]
    ensures Ordered(s')
  {
    forall i | 0 <= i < |s'.log| && s'.log[i].Popped?
      ensures s'.log[i].ticket < |s'.pushes|
      ensures Pushed(s'.pushes[s'.log[i].ticket].thread, s'.log[i].ticket, s'.log[i].value) in s'.log[..i]
    {
      if i < |s.log| {
        assert s'.log[i] == s.log[i] && s'.log[..i] == s.log[..i];
      } else {
        assert s'.log[..i] == s.log;
      }
    }
  }

  lemma FinishKeepsEvents<T>(s: State<T>, s': State<T>, e: Event<T>, f: Event<T>)
    requires TurnsGrow(s, s') && Finishes(s, e) && (f == e || EventInv(s, f))
    requires e.Pushed? ==> Published(s', e.ticket)
    requires e.Popped? ==> Released(s', e.ticket)
    ensures EventInv(s', f)
  {
    if f != e {
      EventKept(s, s', f);
    }
  }

  /** A return keeps the log in order. */
  lemma StoreKeepsLog<T>(s: State<T>, s': State<T>, t: ThreadId, m: nat, turn: nat, e: Event<T>)
    requires Inv(s) && StoredTurn(s, s', t, m, turn, e) && Finishes(s, e) && e.ticket == m
    requires turn == Turn(|s.slots|, m) * 2 + (if e.Pushed? then 1 else 2) && Current(s, m)
    ensures Counted(s') && Distinct(s'.log) && Ordered(s')
    ensures forall n: nat :: LoggedInv(s', n)
    ensures forall f :: f in s'.log ==> EventInv(s', f)
  {
    StoreFrame(s, s', t, m, turn, e);
    assert LoggedInv(s, m);
    FinishKeepsDistinct(s, e);
    FinishKeepsOrder(s, s', e);
    forall n: nat ensures LoggedInv(s', n) { StoreKeepsLogged(s, s', t, m, turn, e, n); }
    forall f | f in s'.log ensures EventInv(s', f) {
      assert f != e ==> f in s.log;
      FinishKeepsEvents(s, s', e, f);
    }
  }

  lemma PublishKeepsInv<T>(s: State<T>, t: ThreadId)
    requires Inv(s) && s.At(t).Publish?
    ensures Inv(TurnStep(s, t))
  {
    var s', m, e := TurnStep(s, t), s.At(t).ticket, Pushed(t, s.At(t).ticket, s.At(t).v);
    assert ThreadInv(s, t) && TicketInv(s, m);
    StoreKeepsLog(s, s', t, m, Turn(|s.slots|, m) * 2 + 1, e);
    forall u: ThreadId ensures ThreadInv(s', u) {
      if u != t { PublishKeepsOtherInv(s, s', t, u, m, e); }
    }
    forall n: nat ensures TicketInv(s', n) { PublishKeepsTicketInv(s, s', t, n, m, e); }
  }

  lemma ReleaseKeepsInv<T>(s: State<T>, t: ThreadId)
    requires Inv(s) && s.At(t).Release?
    ensures Inv(TurnStep(s, t))
  {
    var s', m, e := TurnStep(s, t), s.At(t).ticket, Popped(t, s.At(t).ticket, s.At(t).got);
    assert ThreadInv(s, t) && TicketInv(s, m);
    StoreKeepsLog(s, s', t, m, Turn(|s.slots|, m) * 2 + 2, e);
    forall u: ThreadId ensures ThreadInv(s', u) {
      if u != t { ReleaseKeepsOtherInv(s, s', t, u, m, e); }
    }
    forall n: nat ensures TicketInv(s', n) { ReleaseKeepsTicketInv(s, s', t, n, m, e); }
  }

  /** One step of one thread keeps the invariant. */
  lemma StepThreadKeepsInv<T>(s: State<T>, t: ThreadId)
    requires Inv(s)
    ensures Inv(StepThread(s, t))
  {
    if DrawingPush(s.At(t)) { PushStepKeepsInv(s, t); }
    else if AccessesStorage(s.At(t)) { StorageStepKeepsInv(s, t); }
    else if s.At(t).Publish? { PublishKeepsInv(s, t); }
    else if s.At(t).Release? { ReleaseKeepsInv(s, t); }
    else { PopStepKeepsInv(s, t); }
  }

  lemma CallKeepsInv<T>(s: State<T>, t: ThreadId, op: Operation<T>)
    requires Inv(s) && s.At(t).Idle?
    ensures Inv(s.Goto(t, Begin(op)))
  {
    var s' := s.Goto(t, Begin(op));
    forall n: nat ensures TicketInv(s', n) {
      CallKeepsTicketInv(s, t, op, n);
    }
    QuietStep(s, s', t);
  }

  lemma CallKeepsTicketInv<T>(s: State<T>, t: ThreadId, op: Operation<T>, n: nat)
    requires Counted(s) && s.At(t).Idle? && TicketInv(s, n)
    ensures Counted(s.Goto(t, Begin(op))) && TicketInv(s.Goto(t, Begin(op)), n)
  {
  }

  // ---------------------------------------------------------------------------
  // What holds in every reachable state
  // ---------------------------------------------------------------------------

  /** Every state that any schedule reaches satisfies the invariant. */
  lemma {:induction false} ReachableInv<T>(capacity: nat, choices: seq<Choice<T>>)
    requires capacity >= 1
    ensures Inv(Run(capacity, choices))
  {
    if choices == [] {
      InitialInv<T>(capacity);
    } else {
      var before := choices[..|choices| - 1];
      ReachableInv(capacity, before);
      var s, c := Run(capacity, before), choices[|choices| - 1];
      match c
      case Call(t, op) => if s.At(t).Idle? { CallKeepsInv(s, t, op); }
      case Advance(t) => StepThreadKeepsInv(s, t);
    }
  }

  /** The consumer of ticket n returns exactly the value that the producer of ticket n
      constructed, after that producer's return, and no ticket is produced or consumed twice. */
  lemma ConsumersGetTheirTicketsValue<T>(capacity: nat, choices: seq<Choice<T>>)
    requires capacity >= 1
    ensures var s := Run(capacity, choices);
      && s.head == |s.pushes| && s.tail == |s.pops|
      && (forall i :: 0 <= i < |s.log| && s.log[i].Popped? ==>
            var e := s.log[i];
            && e.ticket < s.head && e.ticket < s.tail
            && e.thread == s.pops[e.ticket] && e.value == s.pushes[e.ticket].value
            && (exists j :: 0 <= j < i && s.log[j] == Pushed(s.pushes[e.ticket].thread, e.ticket, e.value)))
      && (forall i, j :: 0 <= i < j < |s.log| && SameKind(s.log[i], s.log[j]) ==> s.log[i].ticket != s.log[j].ticket)
  {
    ReachableInv(capacity, choices);
    var s := Run(capacity, choices);
    forall i | 0 <= i < |s.log| && s.log[i].Popped?
      ensures var e := s.log[i];
        && e.ticket < s.head && e.ticket < s.tail
        && e.thread == s.pops[e.ticket] && e.value == s.pushes[e.ticket].value
        && (exists j :: 0 <= j < i && s.log[j] == Pushed(s.pushes[e.ticket].thread, e.ticket, e.value))
    {
      var e := s.log[i];
      assert e in s.log && EventInv(s, e);
      var p := Pushed(s.pushes[e.ticket].thread, e.ticket, e.value);
      assert p in s.log[..i];
      var j :| 0 <= j < |s.log[..i]| && s.log[..i][j] == p;
      assert s.log[j] == p;
    }
  }

  /** No value is lost: of a drawn producer ticket the value is still with its producer, is
      stored in the ticket's slot, is with the ticket's consumer, or has been returned by it. */
  lemma NothingIsLost<T>(capacity: nat, choices: seq<Choice<T>>, n: nat)
    requires capacity >= 1 && n < Run(capacity, choices).head
    ensures var s := Run(capacity, choices);
      && s.head == |s.pushes| && s.tail == |s.pops|
      && var v := s.pushes[n].value;
         || (!Published(s, n) && HoldsPush(s.At(s.pushes[n].thread), n) && s.At(s.pushes[n].thread).v == v)
         || (Published(s, n) && !Released(s, n) && s.SlotOf(n).storage == Live(v))
         || (Published(s, n) && n < s.tail && s.At(s.pops[n]) in {Destroy(n, v), Release(n, v)})
         || (Released(s, n) && n < s.tail && Popped(s.pops[n], n, v) in s.log)
  {
    ReachableInv(capacity, choices);
    var s := Run(capacity, choices);
    assert TicketInv(s, n) && LoggedInv(s, n) && ThreadInv(s, s.pushes[n].thread);
    if Published(s, n) && !Released(s, n) {
      assert Current(s, n);
      if n < s.tail {
        assert ThreadInv(s, s.pops[n]);
      }
    }
  }

  /** What a thread inside a section finds in its ticket's slot. */
  ghost predicate SectionFinds<T>(s: State<T>, pc: Pc<T>)
    requires Counted(s) && InSection(pc)
  {
    match pc
    case Construct(_, n) => s.SlotOf(n).storage == Empty
    case Publish(v, n) => s.SlotOf(n).storage == Live(v)
    case Take(n) => n < s.head && s.SlotOf(n).storage == Live(s.pushes[n].value)
    case Destroy(n, _) => s.SlotOf(n).storage == Moved
    case Release(n, _) => s.SlotOf(n).storage == Empty
    case _ => false
  }

  /** At most one thread is inside a slot's storage section, an object is only ever
      constructed in an empty slot and only ever moved out of a live one. */
  lemma SectionsAreExclusive<T>(capacity: nat, choices: seq<Choice<T>>, t: ThreadId, u: ThreadId)
    requires capacity >= 1
    requires InSection(Run(capacity, choices).At(t))
    ensures var s := Run(capacity, choices);
      && Counted(s) && SectionFinds(s, s.At(t))
      && (InSection(s.At(u)) && Idx(capacity, s.At(u).ticket) == Idx(capacity, s.At(t).ticket) ==> u == t)
  {
    ReachableInv(capacity, choices);
    SectionIsAlone(Run(capacity, choices), t, u);
  }

  lemma SectionIsAlone<T>(s: State<T>, t: ThreadId, u: ThreadId)
    requires Inv(s) && InSection(s.At(t))
    ensures SectionFinds(s, s.At(t))
    ensures InSection(s.At(u)) && Idx(|s.slots|, s.At(u).ticket) == Idx(|s.slots|, s.At(t).ticket) ==> u == t
  {
    assert ThreadInv(s, t) && ThreadInv(s, u) && TicketInv(s, s.At(t).ticket);
    SectionFindsIt(s, t);
    if InSection(s.At(u)) {
      SameSlotSection(s, t, u);
    }
  }

  lemma SectionFindsIt<T>(s: State<T>, t: ThreadId)
    requires Counted(s) && InSection(s.At(t)) && ThreadInv(s, t) && TicketInv(s, s.At(t).ticket)
    ensures SectionFinds(s, s.At(t))
  {
  }

  lemma SameSlotSection<T>(s: State<T>, t: ThreadId, u: ThreadId)
    requires Counted(s) && InSection(s.At(t)) && InSection(s.At(u)) && ThreadInv(s, t) && ThreadInv(s, u)
    ensures Idx(|s.slots|, s.At(u).ticket) == Idx(|s.slots|, s.At(t).ticket) ==> u == t
  {
    SameSlot(s, s.At(t).ticket, s.At(u).ticket);
  }

  /** Tickets follow real time: a push that returned before another one began has the smaller
      ticket. At instant i the first has returned and the thread of the second is in no call,
      and at a later instant m the second has returned too. */
  lemma PushesFollowRealTime<T>(capacity: nat, choices: seq<Choice<T>>, i: nat, m: nat, e: Event<T>, f: Event<T>)
    requires capacity >= 1 && i <= m <= |choices| && e.Pushed? && f.Pushed?
    requires e in StateAt(capacity, choices, i).log && StateAt(capacity, choices, i).At(f.thread).Idle?
    requires f in StateAt(capacity, choices, m).log && f !in StateAt(capacity, choices, i).log
    ensures e.ticket < f.ticket
  {
    ReachableInv(capacity, choices[..i]);
    ReachableInv(capacity, choices[..m]);
    RecordsGrow(capacity, choices, i, m);
    LaterPush(StateAt(capacity, choices, i), StateAt(capacity, choices, m), e, f);
  }

  lemma LaterPush<T>(s: State<T>, s': State<T>, e: Event<T>, f: Event<T>)
    requires Inv(s) && Inv(s') && s.pushes <= s'.pushes && e.Pushed? && f.Pushed?
    requires e in s.log && s.At(f.thread).Idle? && f in s'.log && f !in s.log
    ensures e.ticket < f.ticket
  {
    assert EventInv(s, e) && EventInv(s', f);
    assert TicketInv(s, f.ticket) && LoggedInv(s, f.ticket);
  }

  /** The same for pops. */
  lemma PopsFollowRealTime<T>(capacity: nat, choices: seq<Choice<T>>, i: nat, m: nat, e: Event<T>, f: Event<T>)
    requires capacity >= 1 && i <= m <= |choices| && e.Popped? && f.Popped?
    requires e in StateAt(capacity, choices, i).log && StateAt(capacity, choices, i).At(f.thread).Idle?
    requires f in StateAt(capacity, choices, m).log && f !in StateAt(capacity, choices, i).log
    ensures e.ticket < f.ticket
  {
    ReachableInv(capacity, choices[..i]);
    ReachableInv(capacity, choices[..m]);
    RecordsGrow(capacity, choices, i, m);
    LaterPop(StateAt(capacity, choices, i), StateAt(capacity, choices, m), e, f);
  }

  lemma LaterPop<T>(s: State<T>, s': State<T>, e: Event<T>, f: Event<T>)
    requires Inv(s) && Inv(s') && s.pushes <= s'.pushes && s.pops <= s'.pops && e.Popped? && f.Popped?
    requires e in s.log && s.At(f.thread).Idle? && f in s'.log && f !in s.log
    ensures e.ticket < f.ticket
  {
    assert EventInv(s, e) && EventInv(s', f);
    assert TicketInv(s, f.ticket) && LoggedInv(s, f.ticket);
  }

  lemma PreviousTicketSameSlot(cap: nat, n: nat)
    requires cap >= 1 && n >= cap
    ensures Idx(cap, n - cap) == Idx(cap, n) && Turn(cap, n - cap) + 1 == Turn(cap, n)
  {
    var m := n - cap;
    var q := Turn(cap, m);
    Distribute(q, 1, cap);
    assert n == (q + 1) * cap + Idx(cap, m);
    QuotientUnique(cap, n, q + 1, Idx(cap, m));
  }

  /** When nothing is in flight: the number of stored values is between zero and the
      capacity, the tickets tail..head-1 are exactly the ones stored, each slot holding the
      value of its own ticket, and a slot's turn is odd exactly when it holds a value. */
  lemma QuiescentShape<T>(capacity: nat, choices: seq<Choice<T>>)
    requires capacity >= 1 && Run(capacity, choices).Quiescent()
    ensures var s := Run(capacity, choices);
      s.head == |s.pushes| && QuiescentMemory(s.slots, s.head, s.tail, PushedValues(s))
  {
    ReachableInv(capacity, choices);
    QuiescentIsSettled(Run(capacity, choices));
  }

  /** The values of the producer tickets. */
  function PushedValues<T>(s: State<T>): (values: seq<T>)
    ensures |values| == |s.pushes| && forall i :: 0 <= i < |values| ==> values[i] == s.pushes[i].value
  {
    seq(|s.pushes|, i requires 0 <= i < |s.pushes| => s.pushes[i].value)
  }

  /** Every drawn ticket is finished. */
  ghost predicate AllFinished<T>(s: State<T>)
    requires s.Shaped()
  {
    forall n: nat :: (Published(s, n) <==> n < s.head) && (Released(s, n) <==> n < s.tail)
  }

  lemma QuiescentFinished<T>(s: State<T>)
    requires Inv(s) && s.Quiescent()
    ensures AllFinished(s)
  {
    forall t: ThreadId ensures s.At(t).Idle? {
    }
    forall n: nat ensures (Published(s, n) <==> n < s.head) && (Released(s, n) <==> n < s.tail) {
      assert TicketInv(s, n);
    }
  }

  lemma FinishedBounds<T>(s: State<T>)
    requires s.Shaped() && AllFinished(s)
    ensures s.tail <= s.head <= s.tail + |s.slots|
  {
    var cap := |s.slots|;
    assert Released(s, s.head) ==> Published(s, s.head);
    assert Released(s, s.head) <==> s.head < s.tail;
    assert !Published(s, s.head);
    if s.head > cap {
      PreviousTicketSameSlot(cap, s.head - 1);
      assert Published(s, s.head - 1);
      assert Released(s, s.head - 1 - cap) <==> s.head - 1 - cap < s.tail;
    }
  }

  lemma FinishedCurrent<T>(s: State<T>, n: nat)
    requires s.Shaped() && AllFinished(s) && s.tail <= n < s.tail + |s.slots|
    ensures Current(s, n) && (Published(s, n) <==> n < s.head)
  {
    var cap := |s.slots|;
    assert (Published(s, n) <==> n < s.head) && !Released(s, n);
    if n >= cap && n >= s.head {
      PreviousTicketSameSlot(cap, n);
      assert Released(s, n - cap);
    } else if n >= s.head {
      QuotientUnique(cap, n, 0, n);
    }
  }

  lemma SettledTicket<T>(s: State<T>, n: nat)
    requires Counted(s) && s.Quiescent() && TicketInv(s, n) && Current(s, n) && (Published(s, n) <==> n < s.head)
    ensures s.SlotOf(n) == SettledSlot(|s.slots|, s.head, PushedValues(s), n)
  {
    forall t: ThreadId ensures s.At(t).Idle? {
    }
  }

  lemma QuiescentIsSettled<T>(s: State<T>)
    requires Inv(s) && s.Quiescent()
    ensures QuiescentMemory(s.slots, s.head, s.tail, PushedValues(s))
  {
    QuiescentFinished(s);
    FinishedBounds(s);
    forall n: nat | s.tail <= n < s.tail + |s.slots|
      ensures s.slots[Idx(|s.slots|, n)] == SettledSlot(|s.slots|, s.head, PushedValues(s), n)
    {
      FinishedCurrent(s, n);
      SettledTicket(s, n);
    }
  }

  /** The memory of a queue with no operation in flight: `values[n]` is the value of
      producer ticket n, and the tickets tail..head-1 are stored. */
  ghost predicate QuiescentMemory<T>(slots: seq<Slot<T>>, head: nat, tail: nat, values: seq<T>) {
    && |slots| >= 1
    && head == |values|
    && tail <= head <= tail + |slots|
    && (forall n: nat :: tail <= n < tail + |slots| ==>
          slots[Idx(|slots|, n)] == SettledSlot(|slots|, head, values, n))
  }

  function SettledSlot<T>(cap: nat, head: nat, values: seq<T>, n: nat): Slot<T>
    requires cap >= 1 && head == |values|
  {
    if n < head then Slot(Turn(cap, n) * 2 + 1, Live(values[n])) else Slot(Turn(cap, n) * 2, Empty)
  }

  /** A slot holds a value exactly when its turn is odd, and then it is the slot of one of
      the tickets tail..head-1: what the slots' destructors destroy is what is stored. */
  lemma OddTurnIffStored<T>(slots: seq<Slot<T>>, head: nat, tail: nat, values: seq<T>, i: nat)
    requires QuiescentMemory(slots, head, tail, values) && i < |slots|
    ensures slots[i].turn % 2 == 1 <==> exists n: nat :: tail <= n < head && Idx(|slots|, n) == i
    ensures slots[i].turn % 2 == 1 ==>
      exists n: nat :: tail <= n < head && Idx(|slots|, n) == i && slots[i].storage == Live(values[n])
    ensures slots[i].turn % 2 == 0 ==> slots[i].storage == Empty
  {
    var n := TicketAtOrAfter(|slots|, tail, i);
    assert slots[Idx(|slots|, n)] == SettledSlot(|slots|, head, values, n);
    forall m: nat | tail <= m < head && Idx(|slots|, m) == i ensures m == n {
      OneTicketPerWindow(|slots|, m, n);
    }
  }

  lemma TicketAtOrAfter(cap: nat, tail: nat, i: nat) returns (n: nat)
    requires i < cap
    ensures tail <= n < tail + cap && Idx(cap, n) == i
  {
    var q := tail / cap;
    assert tail == q * cap + tail % cap;
    if tail % cap <= i {
      n := q * cap + i;
      QuotientUnique(cap, n, q, i);
    } else {
      n := (q + 1) * cap + i;
      Distribute(q, 1, cap);
      QuotientUnique(cap, n, q + 1, i);
    }
  }

  lemma OneTicketPerWindow(cap: nat, m: nat, n: nat)
    requires cap >= 1 && Idx(cap, m) == Idx(cap, n) && m < n + cap && n < m + cap
    ensures m == n
  {
    var a, b := m / cap, n / cap;
    assert m == a * cap + m % cap && n == b * cap + n % cap;
    if a < b {
      Distribute(a, b - a, cap);
      MultipleAtLeast(b - a, cap);
    } else if b < a {
      Distribute(b, a - b, cap);
      MultipleAtLeast(a - b, cap);
    }
  }

  // ---------------------------------------------------------------------------
  // Properties of whole runs
  // ---------------------------------------------------------------------------

  /** The state just before choice j. */
  function StateAt<T>(capacity: nat, choices: seq<Choice<T>>, j: nat): State<T>
    requires capacity >= 1 && j <= |choices|
  {
    Run(capacity, choices[..j])
  }

  lemma NextState<T>(capacity: nat, choices: seq<Choice<T>>, j: nat)
    requires capacity >= 1 && j < |choices|
    ensures StateAt(capacity, choices, j + 1) == Step(StateAt(capacity, choices, j), choices[j])
  {
    assert choices[..j + 1][..j] == choices[..j];
  }

  /** Who drew which ticket is never changed. */
  ghost predicate Recorded<T>(s: State<T>, s': State<T>) {
    s.pushes <= s'.pushes && s.pops <= s'.pops && s.head <= s'.head && s.tail <= s'.tail
  }

  lemma PushStepRecorded<T>(s: State<T>, t: ThreadId)
    requires s.Shaped() && DrawingPush(s.At(t))
    ensures Recorded(s, PushStep(s, t))
  {
  }

  lemma PopStepRecorded<T>(s: State<T>, t: ThreadId)
    requires s.Shaped() && DrawingPop(s.At(t))
    ensures Recorded(s, PopStep(s, t))
  {
  }

  lemma StepRecorded<T>(s: State<T>, c: Choice<T>)
    requires s.Shaped()
    ensures Recorded(s, Step(s, c))
  {
    if c.Advance? {
      if DrawingPush(s.At(c.thread)) { PushStepRecorded(s, c.thread); }
      else if DrawingPop(s.At(c.thread)) { PopStepRecorded(s, c.thread); }
    }
  }

  lemma RecordedOnce<T>(capacity: nat, choices: seq<Choice<T>>, j: nat)
    requires capacity >= 1 && j < |choices|
    ensures Recorded(StateAt(capacity, choices, j), StateAt(capacity, choices, j + 1))
  {
    NextState(capacity, choices, j);
    StepRecorded(StateAt(capacity, choices, j), choices[j]);
  }

  lemma {:induction false} RecordsGrow<T>(capacity: nat, choices: seq<Choice<T>>, i: nat, j: nat)
    requires capacity >= 1 && i <= j <= |choices|
    ensures Recorded(StateAt(capacity, choices, i), StateAt(capacity, choices, j))
  {
    if i < j {
      RecordsGrow(capacity, choices, i, j - 1);
      RecordedOnce(capacity, choices, j - 1);
    }
  }

  /** In the retry loop of try_emplace, on the value h of head_ that it last loaded. */
  ghost predicate TryingPush<T>(pc: Pc<T>, v: T, h: nat) {
    pc == TryEmplaceCheck(v, h) || pc == TryEmplaceCas(v, h) || pc == TryEmplaceReload(v, h)
  }

  ghost predicate TryingPop<T>(pc: Pc<T>, h: nat) {
    pc == TryPopCheck(h) || pc == TryPopCas(h) || pc == TryPopReload(h)
  }

  /** From instant j to instant m thread t is in one call's loop, on one and the same h. */
  ghost predicate InPushLoop<T>(capacity: nat, choices: seq<Choice<T>>, j: nat, m: nat, t: ThreadId, v: T, h: nat)
    requires capacity >= 1 && m <= |choices|
  {
    forall i: nat :: j <= i <= m ==> TryingPush(StateAt(capacity, choices, i).At(t), v, h)
  }

  ghost predicate InPopLoop<T>(capacity: nat, choices: seq<Choice<T>>, j: nat, m: nat, t: ThreadId, h: nat)
    requires capacity >= 1 && m <= |choices|
  {
    forall i: nat :: j <= i <= m ==> TryingPop(StateAt(capacity, choices, i).At(t), h)
  }

  lemma OthersStayPut<T>(s: State<T>, u: ThreadId, t: ThreadId)
    requires s.Shaped() && u != t
    ensures StepThread(s, u).At(t) == s.At(t)
  {
    if DrawingPush(s.At(u)) { PushStepMovesOne(s, u, t); }
    else if DrawingPop(s.At(u)) { PopStepMovesOne(s, u, t); }
  }

  lemma PushStepMovesOne<T>(s: State<T>, u: ThreadId, t: ThreadId)
    requires s.Shaped() && DrawingPush(s.At(u)) && u != t
    ensures PushStep(s, u).At(t) == s.At(t)
  {
  }

  lemma PopStepMovesOne<T>(s: State<T>, u: ThreadId, t: ThreadId)
    requires s.Shaped() && DrawingPop(s.At(u)) && u != t
    ensures PopStep(s, u).At(t) == s.At(t)
  {
  }

  /** Where the steps outside its loop take a thread. */
  lemma PushStepLeadsTo<T>(s: State<T>, t: ThreadId)
    requires s.Shaped() && DrawingPush(s.At(t))
    ensures var pc := PushStep(s, t).At(t); DrawingPush(pc) || pc.Construct? || pc.Idle?
  {
  }

  lemma PopStepLeadsTo<T>(s: State<T>, t: ThreadId)
    requires s.Shaped() && DrawingPop(s.At(t))
    ensures var pc := PopStep(s, t).At(t); DrawingPop(pc) || pc.Take?
  {
  }

  lemma SectionLeadsTo<T>(s: State<T>, t: ThreadId)
    requires s.Shaped() && InSection(s.At(t))
    ensures var pc := StepThread(s, t).At(t); InSection(pc) || pc.Idle?
  {
  }

  /** A thread that moves within a loop, or into it, does so by its own step there. */
  lemma OwnStep<T>(s: State<T>, c: Choice<T>, t: ThreadId)
    requires s.Shaped() && s.At(t) != Step(s, c).At(t)
    ensures c.thread == t && (c.Call? ==> s.At(t).Idle?)
  {
    if c.Advance? && c.thread != t { OthersStayPut(s, c.thread, t); }
  }

  lemma PushLoopOwn<T>(s: State<T>, t: ThreadId, v: T, h: nat)
    requires s.Shaped() && DrawingPush(s.At(t)) && TryingPush(PushStep(s, t).At(t), v, h)
    ensures TryingPush(s.At(t), v, h) || PushStep(s, t).head == h
  {
  }

  lemma PushLoopStep<T>(s: State<T>, c: Choice<T>, t: ThreadId, v: T, h: nat)
    requires s.Shaped() && TryingPush(Step(s, c).At(t), v, h) && !TryingPush(s.At(t), v, h)
    ensures Step(s, c).head == h
  {
    OwnStep(s, c, t);
    if DrawingPush(s.At(t)) { PushLoopOwn(s, t, v, h); }
    else if DrawingPop(s.At(t)) { PopStepLeadsTo(s, t); }
    else { SectionLeadsTo(s, t); }
  }

  lemma PopLoopOwn<T>(s: State<T>, t: ThreadId, h: nat)
    requires s.Shaped() && DrawingPop(s.At(t)) && TryingPop(PopStep(s, t).At(t), h)
    ensures TryingPop(s.At(t), h) || PopStep(s, t).tail == h
  {
  }

  lemma PopLoopStep<T>(s: State<T>, c: Choice<T>, t: ThreadId, h: nat)
    requires s.Shaped() && TryingPop(Step(s, c).At(t), h) && !TryingPop(s.At(t), h)
    ensures Step(s, c).tail == h
  {
    OwnStep(s, c, t);
    if DrawingPop(s.At(t)) { PopLoopOwn(s, t, h); }
    else if DrawingPush(s.At(t)) { PushStepLeadsTo(s, t); }
    else { SectionLeadsTo(s, t); }
  }

  /** The start of the latest stretch of instants, up to m, over which P holds. */
  lemma {:induction false} LatestStart(P: nat -> bool, from: nat, m: nat) returns (j: nat)
    requires from <= m && !P(from) && P(m)
    ensures from < j <= m && !P(j - 1) && forall i :: j <= i <= m ==> P(i)
  {
    if P(m - 1) {
      j := LatestStart(P, from, m - 1);
    } else {
      j := m;
    }
  }

  lemma PushLoopEntered<T>(capacity: nat, choices: seq<Choice<T>>, j: nat, t: ThreadId, v: T, h: nat)
    requires capacity >= 1 && 0 < j <= |choices|
    requires TryingPush(StateAt(capacity, choices, j).At(t), v, h)
    requires !TryingPush(StateAt(capacity, choices, j - 1).At(t), v, h)
    ensures StateAt(capacity, choices, j).head == h
  {
    NextState(capacity, choices, j - 1);
    PushLoopStep(StateAt(capacity, choices, j - 1), choices[j - 1], t, v, h);
  }

  lemma PopLoopEntered<T>(capacity: nat, choices: seq<Choice<T>>, j: nat, t: ThreadId, h: nat)
    requires capacity >= 1 && 0 < j <= |choices|
    requires TryingPop(StateAt(capacity, choices, j).At(t), h)
    requires !TryingPop(StateAt(capacity, choices, j - 1).At(t), h)
    ensures StateAt(capacity, choices, j).tail == h
  {
    NextState(capacity, choices, j - 1);
    PopLoopStep(StateAt(capacity, choices, j - 1), choices[j - 1], t, h);
  }

  /** A thread in the loop on h loaded it at an instant when head_ was h, and has been in
      the loop on h, inside the same call, ever since. */
  lemma PushLoadedAt<T>(capacity: nat, choices: seq<Choice<T>>, m: nat, t: ThreadId, v: T, h: nat) returns (j: nat)
    requires capacity >= 1 && m <= |choices|
    requires TryingPush(StateAt(capacity, choices, m).At(t), v, h)
    ensures j <= m && StateAt(capacity, choices, j).head == h
    ensures InPushLoop(capacity, choices, j, m, t, v, h)
  {
    var holds := (i: nat) => i <= m && TryingPush(StateAt(capacity, choices, i).At(t), v, h);
    j := LatestStart(holds, 0, m);
    assert holds(j) && !holds(j - 1);
    PushLoopEntered(capacity, choices, j, t, v, h);
    forall i: nat | j <= i <= m ensures TryingPush(StateAt(capacity, choices, i).At(t), v, h) {
      assert holds(i);
    }
  }

  lemma PopLoadedAt<T>(capacity: nat, choices: seq<Choice<T>>, m: nat, t: ThreadId, h: nat) returns (j: nat)
    requires capacity >= 1 && m <= |choices|
    requires TryingPop(StateAt(capacity, choices, m).At(t), h)
    ensures j <= m && StateAt(capacity, choices, j).tail == h
    ensures InPopLoop(capacity, choices, j, m, t, h)
  {
    var holds := (i: nat) => i <= m && TryingPop(StateAt(capacity, choices, i).At(t), h);
    j := LatestStart(holds, 0, m);
    assert holds(j) && !holds(j - 1);
    PopLoopEntered(capacity, choices, j, t, h);
    forall i: nat | j <= i <= m ensures TryingPop(StateAt(capacity, choices, i).At(t), h) {
      assert holds(i);
    }
  }

  lemma PushReloadOwn<T>(s: State<T>, t: ThreadId, v: T, h: nat)
    requires s.Shaped() && DrawingPush(s.At(t))
    requires PushStep(s, t).At(t) == TryEmplaceReload(v, h) && s.At(t) != TryEmplaceReload(v, h)
    ensures s.At(t) == TryEmplaceCheck(v, h) && s.SlotOf(h).turn != Turn(|s.slots|, h) * 2
  {
  }

  lemma PushReloadStep<T>(s: State<T>, c: Choice<T>, t: ThreadId, v: T, h: nat)
    requires s.Shaped() && Step(s, c).At(t) == TryEmplaceReload(v, h) && s.At(t) != TryEmplaceReload(v, h)
    ensures s.At(t) == TryEmplaceCheck(v, h) && s.SlotOf(h).turn != Turn(|s.slots|, h) * 2
  {
    OwnStep(s, c, t);
    if DrawingPush(s.At(t)) { PushReloadOwn(s, t, v, h); }
    else if DrawingPop(s.At(t)) { PopStepLeadsTo(s, t); }
    else { SectionLeadsTo(s, t); }
  }

  lemma PopReloadOwn<T>(s: State<T>, t: ThreadId, h: nat)
    requires s.Shaped() && DrawingPop(s.At(t))
    requires PopStep(s, t).At(t) == TryPopReload(h) && s.At(t) != TryPopReload(h)
    ensures s.At(t) == TryPopCheck(h) && s.SlotOf(h).turn != Turn(|s.slots|, h) * 2 + 1
  {
  }

  lemma PopReloadStep<T>(s: State<T>, c: Choice<T>, t: ThreadId, h: nat)
    requires s.Shaped() && Step(s, c).At(t) == TryPopReload(h) && s.At(t) != TryPopReload(h)
    ensures s.At(t) == TryPopCheck(h) && s.SlotOf(h).turn != Turn(|s.slots|, h) * 2 + 1
  {
    OwnStep(s, c, t);
    if DrawingPop(s.At(t)) { PopReloadOwn(s, t, h); }
    else if DrawingPush(s.At(t)) { PushStepLeadsTo(s, t); }
    else { SectionLeadsTo(s, t); }
  }

  lemma PushReloadEntered<T>(capacity: nat, choices: seq<Choice<T>>, j: nat, t: ThreadId, v: T, h: nat)
    requires capacity >= 1 && j < |choices|
    requires StateAt(capacity, choices, j + 1).At(t) == TryEmplaceReload(v, h)
    requires StateAt(capacity, choices, j).At(t) != TryEmplaceReload(v, h)
    ensures StateAt(capacity, choices, j).At(t) == TryEmplaceCheck(v, h)
    ensures StateAt(capacity, choices, j).SlotOf(h).turn != Turn(capacity, h) * 2
  {
    NextState(capacity, choices, j);
    PushReloadStep(StateAt(capacity, choices, j), choices[j], t, v, h);
  }

  lemma PopReloadEntered<T>(capacity: nat, choices: seq<Choice<T>>, j: nat, t: ThreadId, h: nat)
    requires capacity >= 1 && j < |choices|
    requires StateAt(capacity, choices, j + 1).At(t) == TryPopReload(h)
    requires StateAt(capacity, choices, j).At(t) != TryPopReload(h)
    ensures StateAt(capacity, choices, j).At(t) == TryPopCheck(h)
    ensures StateAt(capacity, choices, j).SlotOf(h).turn != Turn(capacity, h) * 2 + 1
  {
    NextState(capacity, choices, j);
    PopReloadStep(StateAt(capacity, choices, j), choices[j], t, h);
  }

  /** A thread about to reload head_ saw a turn other than its own at an earlier instant of
      the same call. */
  lemma PushTurnLoadedAt<T>(capacity: nat, choices: seq<Choice<T>>, m: nat, t: ThreadId, v: T, h: nat) returns (j: nat)
    requires capacity >= 1 && m <= |choices|
    requires StateAt(capacity, choices, m).At(t) == TryEmplaceReload(v, h)
    ensures j < m && StateAt(capacity, choices, j).At(t) == TryEmplaceCheck(v, h)
    ensures StateAt(capacity, choices, j).SlotOf(h).turn != Turn(capacity, h) * 2
    ensures forall i :: j < i <= m ==> StateAt(capacity, choices, i).At(t) == TryEmplaceReload(v, h)
  {
    var holds := (i: nat) => i <= m && StateAt(capacity, choices, i).At(t) == TryEmplaceReload(v, h);
    var k := LatestStart(holds, 0, m);
    assert holds(k) && !holds(k - 1);
    j := k - 1;
    PushReloadEntered(capacity, choices, j, t, v, h);
    forall i | j < i <= m ensures StateAt(capacity, choices, i).At(t) == TryEmplaceReload(v, h) {
      assert holds(i);
    }
  }

  lemma PopTurnLoadedAt<T>(capacity: nat, choices: seq<Choice<T>>, m: nat, t: ThreadId, h: nat) returns (j: nat)
    requires capacity >= 1 && m <= |choices|
    requires StateAt(capacity, choices, m).At(t) == TryPopReload(h)
    ensures j < m && StateAt(capacity, choices, j).At(t) == TryPopCheck(h)
    ensures StateAt(capacity, choices, j).SlotOf(h).turn != Turn(capacity, h) * 2 + 1
    ensures forall i :: j < i <= m ==> StateAt(capacity, choices, i).At(t) == TryPopReload(h)
  {
    var holds := (i: nat) => i <= m && StateAt(capacity, choices, i).At(t) == TryPopReload(h);
    var k := LatestStart(holds, 0, m);
    assert holds(k) && !holds(k - 1);
    j := k - 1;
    PopReloadEntered(capacity, choices, j, t, h);
    forall i | j < i <= m ensures StateAt(capacity, choices, i).At(t) == TryPopReload(h) {
      assert holds(i);
    }
  }

  /** No room: the value of the ticket one lap before head_ is not completely popped. */
  ghost predicate Full<T>(s: State<T>)
    requires s.Shaped()
  {
    s.head >= |s.slots| && !Released(s, s.head - |s.slots|)
  }

  /** If step m makes try_emplace return false, then at some instant j of that call the
      queue had no room for the ticket that head_ then offered. */
  lemma RefusedPushSawFull<T>(capacity: nat, choices: seq<Choice<T>>, m: nat, t: ThreadId, v: T)
    requires capacity >= 1 && m < |choices| && choices[m] == Advance(t)
    requires StateAt(capacity, choices, m + 1).log == StateAt(capacity, choices, m).log + [PushRefused(t, v)]
    ensures exists j: nat :: j < m && Full(StateAt(capacity, choices, j))
                             && InPushLoop(capacity, choices, j, m, t, v, StateAt(capacity, choices, j).head)
  {
    NextState(capacity, choices, m);
    var s := StateAt(capacity, choices, m);
    RefusalComesFromReload(s, t, v);
    var h := s.head;
    var j := PushTurnLoadedAt(capacity, choices, m, t, v, h);
    ReachableInv(capacity, choices[..j]);
    RecordsGrow(capacity, choices, j, m);
    var s' := StateAt(capacity, choices, j);
    HeadSeen(s', t, v, h);
    FullAt(s');
  }

  lemma HeadSeen<T>(s: State<T>, t: ThreadId, v: T, h: nat)
    requires Inv(s) && s.At(t) == TryEmplaceCheck(v, h) && s.head <= h
    ensures s.head == h
  {
    assert ThreadInv(s, t);
  }

  lemma RefusalComesFromReload<T>(s: State<T>, t: ThreadId, v: T)
    requires s.Shaped() && StepThread(s, t).log == s.log + [PushRefused(t, v)]
    ensures s.At(t) == TryEmplaceReload(v, s.head)
  {
    assert |StepThread(s, t).log| == |s.log| + 1;
    assert StepThread(s, t).log[|s.log|] == PushRefused(t, v);
  }

  lemma FullAt<T>(s: State<T>)
    requires Inv(s) && s.SlotOf(s.head).turn != Turn(|s.slots|, s.head) * 2
    ensures Full(s)
  {
    assert TicketInv(s, s.head);
    if s.head < |s.slots| {
      QuotientUnique(|s.slots|, s.head, 0, s.head);
    } else {
      PreviousTicketSameSlot(|s.slots|, s.head);
    }
  }

  /** If step m makes try_pop return false, then at some instant j of that call the value
      of the ticket that tail_ then offered had not been published. */
  lemma RefusedPopSawUnpublished<T>(capacity: nat, choices: seq<Choice<T>>, m: nat, t: ThreadId)
    requires capacity >= 1 && m < |choices| && choices[m] == Advance(t)
    requires StateAt(capacity, choices, m + 1).log == StateAt(capacity, choices, m).log + [PopRefused(t)]
    ensures exists j: nat :: j < m && !Published(StateAt(capacity, choices, j), StateAt(capacity, choices, j).tail)
                             && InPopLoop(capacity, choices, j, m, t, StateAt(capacity, choices, j).tail)
  {
    NextState(capacity, choices, m);
    var s := StateAt(capacity, choices, m);
    PopRefusalComesFromReload(s, t);
    var h := s.tail;
    var j := PopTurnLoadedAt(capacity, choices, m, t, h);
    ReachableInv(capacity, choices[..j]);
    RecordsGrow(capacity, choices, j, m);
    UnpublishedAt(StateAt(capacity, choices, j), t, h);
  }

  lemma UnpublishedAt<T>(s: State<T>, t: ThreadId, h: nat)
    requires Inv(s) && s.At(t) == TryPopCheck(h) && s.tail <= h && s.SlotOf(h).turn != Turn(|s.slots|, h) * 2 + 1
    ensures s.tail == h && !Published(s, h)
  {
    assert ThreadInv(s, t) && TicketInv(s, h);
  }

  lemma PopRefusalComesFromReload<T>(s: State<T>, t: ThreadId)
    requires s.Shaped() && StepThread(s, t).log == s.log + [PopRefused(t)]
    ensures s.At(t) == TryPopReload(s.tail)
  {
    assert |StepThread(s, t).log| == |s.log| + 1;
    assert StepThread(s, t).log[|s.log|] == PopRefused(t);
  }

  lemma HeadStep<T>(capacity: nat, choices: seq<Choice<T>>, i: nat)
    requires capacity >= 1 && i < |choices|
    requires StateAt(capacity, choices, i + 1).head != StateAt(capacity, choices, i).head
    ensures StateAt(capacity, choices, i + 1).head == StateAt(capacity, choices, i).head + 1
  {
    NextState(capacity, choices, i);
  }

  lemma TailStep<T>(capacity: nat, choices: seq<Choice<T>>, i: nat)
    requires capacity >= 1 && i < |choices|
    requires StateAt(capacity, choices, i + 1).tail != StateAt(capacity, choices, i).tail
    ensures StateAt(capacity, choices, i + 1).tail == StateAt(capacity, choices, i).tail + 1
  {
    NextState(capacity, choices, i);
  }

  /** Between two instants with different head_ some step advances it. */
  lemma HeadAdvancedBetween<T>(capacity: nat, choices: seq<Choice<T>>, j: nat, m: nat) returns (i: nat)
    requires capacity >= 1 && j <= m <= |choices|
    requires StateAt(capacity, choices, j).head != StateAt(capacity, choices, m).head
    ensures j <= i < m && StateAt(capacity, choices, i + 1).head == StateAt(capacity, choices, i).head + 1
  {
    var last := StateAt(capacity, choices, m).head;
    var holds := (i: nat) => i <= m && StateAt(capacity, choices, i).head == last;
    var k := LatestStart(holds, j, m);
    assert holds(k) && !holds(k - 1);
    i := k - 1;
    HeadStep(capacity, choices, i);
  }

  lemma TailAdvancedBetween<T>(capacity: nat, choices: seq<Choice<T>>, j: nat, m: nat) returns (i: nat)
    requires capacity >= 1 && j <= m <= |choices|
    requires StateAt(capacity, choices, j).tail != StateAt(capacity, choices, m).tail
    ensures j <= i < m && StateAt(capacity, choices, i + 1).tail == StateAt(capacity, choices, i).tail + 1
  {
    var last := StateAt(capacity, choices, m).tail;
    var holds := (i: nat) => i <= m && StateAt(capacity, choices, i).tail == last;
    var k := LatestStart(holds, j, m);
    assert holds(k) && !holds(k - 1);
    i := k - 1;
    TailStep(capacity, choices, i);
  }

  /** Choice i is a step of a thread other than t that draws a producer ticket. */
  ghost predicate OtherDrewPush<T>(capacity: nat, choices: seq<Choice<T>>, i: nat, t: ThreadId)
    requires capacity >= 1 && i < |choices|
  {
    && choices[i].Advance? && choices[i].thread != t
    && StateAt(capacity, choices, i + 1).head == StateAt(capacity, choices, i).head + 1
  }

  ghost predicate OtherDrewPop<T>(capacity: nat, choices: seq<Choice<T>>, i: nat, t: ThreadId)
    requires capacity >= 1 && i < |choices|
  {
    && choices[i].Advance? && choices[i].thread != t
    && StateAt(capacity, choices, i + 1).tail == StateAt(capacity, choices, i).tail + 1
  }

  lemma OtherAdvancedHead<T>(s: State<T>, c: Choice<T>, t: ThreadId, v: T, h: nat)
    requires s.Shaped() && Step(s, c).head != s.head
    requires TryingPush(s.At(t), v, h) && TryingPush(Step(s, c).At(t), v, h)
    ensures c.Advance? && c.thread != t
  {
  }

  lemma OtherAdvancedTail<T>(s: State<T>, c: Choice<T>, t: ThreadId, h: nat)
    requires s.Shaped() && Step(s, c).tail != s.tail
    requires TryingPop(s.At(t), h) && TryingPop(Step(s, c).At(t), h)
    ensures c.Advance? && c.thread != t
  {
  }

  /** Every retry of the try_emplace loop was caused by another thread: between the load of
      the thread's h and the retry, inside the same call, someone else advanced head_. */
  lemma PushRetryMeansProgress<T>(capacity: nat, choices: seq<Choice<T>>, m: nat, t: ThreadId, v: T, h: nat)
    requires capacity >= 1 && m < |choices| && choices[m] == Advance(t)
    requires TryingPush(StateAt(capacity, choices, m).At(t), v, h)
    requires !StateAt(capacity, choices, m).At(t).TryEmplaceCheck?
    requires StateAt(capacity, choices, m + 1).At(t).TryEmplaceCheck?
    ensures exists i: nat ::
      i < m && OtherDrewPush(capacity, choices, i, t) && InPushLoop(capacity, choices, i, m, t, v, h)
  {
    NextState(capacity, choices, m);
    var j := PushLoadedAt(capacity, choices, m, t, v, h);
    var i := HeadAdvancedBetween(capacity, choices, j, m);
    NextState(capacity, choices, i);
    OtherAdvancedHead(StateAt(capacity, choices, i), choices[i], t, v, h);
    assert OtherDrewPush(capacity, choices, i, t) && InPushLoop(capacity, choices, i, m, t, v, h);
  }

  lemma PopRetryMeansProgress<T>(capacity: nat, choices: seq<Choice<T>>, m: nat, t: ThreadId, h: nat)
    requires capacity >= 1 && m < |choices| && choices[m] == Advance(t)
    requires TryingPop(StateAt(capacity, choices, m).At(t), h) && !StateAt(capacity, choices, m).At(t).TryPopCheck?
    requires StateAt(capacity, choices, m + 1).At(t).TryPopCheck?
    ensures exists i: nat :: i < m && OtherDrewPop(capacity, choices, i, t) && InPopLoop(capacity, choices, i, m, t, h)
  {
    NextState(capacity, choices, m);
    var j := PopLoadedAt(capacity, choices, m, t, h);
    var i := TailAdvancedBetween(capacity, choices, j, m);
    NextState(capacity, choices, i);
    OtherAdvancedTail(StateAt(capacity, choices, i), choices[i], t, h);
    assert OtherDrewPop(capacity, choices, i, t) && InPopLoop(capacity, choices, i, m, t, h);
  }

  /** Spinning, and the next load of the turn will not end the spin. */
  ghost predicate Blocked<T>(s: State<T>, t: ThreadId)
    requires s.Shaped()
  {
    match s.At(t)
    case EmplaceSpin(_, n) => s.SlotOf(n).turn != Turn(|s.slots|, n) * 2
    case PopSpin(n) => s.SlotOf(n).turn != Turn(|s.slots|, n) * 2 + 1
    case _ => false
  }

  ghost predicate AllBlocked<T>(s: State<T>)
    requires s.Shaped()
  {
    forall t: ThreadId :: s.At(t).Idle? || Blocked(s, t)
  }

  lemma {:induction false} BlockedPushBeyondCapacity<T>(s: State<T>, n: nat)
    requires Inv(s) && AllBlocked(s) && n < s.head && !Published(s, n)
    ensures s.tail + |s.slots| <= n
    decreases n
  {
    var cap := |s.slots|;
    assert TicketInv(s, n) && Blocked(s, s.pushes[n].thread);
    if n < cap {
      QuotientUnique(cap, n, 0, n);
      assert false;
    }
    PreviousTicketSameSlot(cap, n);
    var m := n - cap;
    assert TicketInv(s, m);
    if m < s.tail {
      assert Blocked(s, s.pops[m]);
      BlockedPushBeyondCapacity(s, m);
    }
  }

  /** Blocked producers and blocked consumers never wait for each other: if every call in
      flight is stuck in its spin, either all of them are producers whose tickets lie a
      whole capacity beyond tail_, or all are consumers whose tickets head_ has not reached. */
  lemma NoDeadlock<T>(capacity: nat, choices: seq<Choice<T>>)
    requires capacity >= 1 && AllBlocked(Run(capacity, choices))
    ensures var s := Run(capacity, choices);
      || (forall t: ThreadId :: s.At(t).Idle? || (s.At(t).EmplaceSpin? && s.tail + capacity <= s.At(t).ticket))
      || (forall t: ThreadId :: s.At(t).Idle? || (s.At(t).PopSpin? && s.head <= s.At(t).ticket))
  {
    ReachableInv(capacity, choices);
    var s := Run(capacity, choices);
    forall t: ThreadId
      ensures s.At(t).EmplaceSpin? ==> s.tail + capacity <= s.At(t).ticket < s.head
      ensures s.At(t).PopSpin? ==> s.head <= s.At(t).ticket < s.tail
    {
      assert ThreadInv(s, t) && (s.At(t).Idle? || Blocked(s, t));
      if s.At(t).EmplaceSpin? {
        BlockedPushBeyondCapacity(s, s.At(t).ticket);
      } else if s.At(t).PopSpin? && s.At(t).ticket < s.head {
        BlockedPushBeyondCapacity(s, s.At(t).ticket);
      }
    }
  }
}
