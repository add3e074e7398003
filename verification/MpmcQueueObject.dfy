/**
 The queue object as one thread uses it while no other operation is in flight. Its memory
 is the quiescent memory that `MpmcQueue.QuiescentShape` proves of every run between calls,
 and here each call refines an operation on a bounded sequence.
 */
module MpmcQueueObject {
  import opened Common
  import opened MpmcQueue

  class Queue<T> {
    const capacity: nat
    const slots: array<Slot<T>>
    var head: nat
    var tail: nat
    ghost var values: seq<T>  // the value of each producer ticket so far

    ghost predicate Valid()
      reads this, slots
    {
      slots.Length == capacity && QuiescentMemory(slots[..], head, tail, values)
    }

    /** The stored values, oldest first. */
    ghost function Contents(): seq<T>
      requires Valid()
      reads this, slots
    {
      values[tail..head]
    }

    /** A capacity of zero is refused. */
    static method Create(capacity: nat) returns (q: Queue?<T>)
      ensures q == null <==> capacity < 1
      ensures q != null ==> fresh(q) && fresh(q.slots) && q.Valid() && q.capacity == capacity && q.Contents() == []
    {
      if capacity < 1 {
        return null;
      }
      q := new Queue(capacity);
    }

    constructor (capacity: nat)
      requires capacity >= 1
      ensures Valid() && fresh(slots) && this.capacity == capacity && Contents() == []
    {
      this.capacity := capacity;
      this.slots := new Slot<T>[capacity](_ => Slot(0, Empty));
      head, tail, values := 0, 0, [];
      new;
      forall n: nat | n < capacity ensures slots[Idx(capacity, n)] == SettledSlot(capacity, 0, [], n) {
        QuotientUnique(capacity, n, 0, n);
      }
    }

    /** With no other thread the compare-and-exchange succeeds and the reload of head_ sees
        the same value, so the loop of the source ends in its first round. */
    method TryEmplace(v: T) returns (ok: bool)
      requires Valid()
      modifies this, slots
      ensures Valid()
      ensures ok == (|old(Contents())| < capacity)
      ensures Contents() == if ok then old(Contents()) + [v] else old(Contents())
    {
      RoomShape(slots[..], head, tail, values);
      var h := head;
      var i := Idx(capacity, h);
      if Turn(capacity, h) * 2 == slots[i].turn {
        PushShape(slots[..], head, tail, values, v);
        head := h + 1;
        slots[i] := slots[i].(storage := Live(v));
        slots[i] := slots[i].(turn := Turn(capacity, h) * 2 + 1);
        values := values + [v];
        ok := true;
      } else {
        ok := false;
      }
    }

    method TryPop() returns (r: Option<T>)
      requires Valid()
      modifies this, slots
      ensures Valid()
      ensures r.None? <==> old(Contents()) == []
      ensures r.Some? ==> old(Contents()) == [r.value] + Contents()
      ensures r.None? ==> Contents() == old(Contents())
    {
      RoomShape(slots[..], head, tail, values);
      var h := tail;
      var i := Idx(capacity, h);
      if Turn(capacity, h) * 2 + 1 == slots[i].turn {
        PopShape(slots[..], head, tail, values);
        tail := h + 1;
        r := Some(slots[i].storage.value);
        slots[i] := slots[i].(storage := Moved);
        slots[i] := slots[i].(storage := Empty);
        slots[i] := slots[i].(turn := Turn(capacity, h) * 2 + 2);
      } else {
        r := None;
      }
    }

    method Size() returns (n: int)
      requires Valid()
      ensures n == |Contents()| && n <= capacity
    {
      n := head - tail;
    }

    /** The destructor runs the destructor of each slot, which destroys the object of a slot
        whose turn is odd: exactly the slots of the tickets still stored, each holding an
        object, and no object is left behind. */
    method Destruct() returns (freed: set<nat>)
      requires Valid()
      modifies slots
      ensures forall i :: 0 <= i < capacity ==> slots[i].storage == Empty
      ensures forall i: nat :: i in freed <==> exists n: nat :: tail <= n < head && Idx(capacity, n) == i
      ensures forall i: nat :: i in freed ==> i < capacity && old(slots[i].storage.Live?)
    {
      freed := {};
      forall i: nat | i < capacity
        ensures slots[i].turn % 2 == 1 <==> exists n: nat :: tail <= n < head && Idx(capacity, n) == i
        ensures if slots[i].turn % 2 == 1 then slots[i].storage.Live? else slots[i].storage == Empty
      {
        OddTurnIffStored(slots[..], head, tail, values, i);
      }
      for i := 0 to capacity
        invariant forall k :: i <= k < capacity ==> slots[k] == old(slots[k])
        invariant forall k :: 0 <= k < i ==> slots[k].storage == Empty
        invariant forall k: nat :: k in freed <==> k < i && old(slots[k].turn) % 2 == 1
      {
        if slots[i].turn % 2 == 1 {
          slots[i] := slots[i].(storage := Empty);
          freed := freed + {i};
        }
      }
    }
  }

  /** Room for one more value, and a value to pop, show in the turns of the slots that
      head_ and tail_ point to. */
  lemma RoomShape<T>(slots: seq<Slot<T>>, head: nat, tail: nat, values: seq<T>)
    requires QuiescentMemory(slots, head, tail, values)
    ensures slots[Idx(|slots|, head)].turn == Turn(|slots|, head) * 2 <==> head - tail < |slots|
    ensures slots[Idx(|slots|, tail)].turn == Turn(|slots|, tail) * 2 + 1 <==> tail < head
  {
    var cap := |slots|;
    assert slots[Idx(cap, tail)] == SettledSlot(cap, head, values, tail);
    if head - tail < cap {
      assert slots[Idx(cap, head)] == SettledSlot(cap, head, values, head);
    } else {
      PreviousTicketSameSlot(cap, head);
    }
  }

  lemma PushShape<T>(slots: seq<Slot<T>>, head: nat, tail: nat, values: seq<T>, v: T)
    requires QuiescentMemory(slots, head, tail, values) && head - tail < |slots|
    ensures var pushed := Slot(Turn(|slots|, head) * 2 + 1, Live(v));
      QuiescentMemory(slots[Idx(|slots|, head) := pushed], head + 1, tail, values + [v])
  {
    var cap := |slots|;
    var slots' := slots[Idx(cap, head) := Slot(Turn(cap, head) * 2 + 1, Live(v))];
    forall n: nat | tail <= n < tail + cap
      ensures slots'[Idx(cap, n)] == SettledSlot(cap, head + 1, values + [v], n)
    {
      assert slots[Idx(cap, n)] == SettledSlot(cap, head, values, n);
      if Idx(cap, n) == Idx(cap, head) {
        OneTicketPerWindow(cap, n, head);
      }
    }
  }

  lemma PopShape<T>(slots: seq<Slot<T>>, head: nat, tail: nat, values: seq<T>)
    requires QuiescentMemory(slots, head, tail, values) && tail < head
    ensures slots[Idx(|slots|, tail)].storage == Live(values[tail])
    ensures var popped := Slot(Turn(|slots|, tail) * 2 + 2, Empty);
      QuiescentMemory(slots[Idx(|slots|, tail) := popped], head, tail + 1, values)
  {
    var cap := |slots|;
    assert slots[Idx(cap, tail)] == SettledSlot(cap, head, values, tail);
    var slots' := slots[Idx(cap, tail) := Slot(Turn(cap, tail) * 2 + 2, Empty)];
    forall n: nat | tail + 1 <= n < tail + 1 + cap
      ensures slots'[Idx(cap, n)] == SettledSlot(cap, head, values, n)
    {
      if n < tail + cap {
        assert slots[Idx(cap, n)] == SettledSlot(cap, head, values, n);
        if Idx(cap, n) == Idx(cap, tail) {
          OneTicketPerWindow(cap, n, tail);
        }
      } else {
        PreviousTicketSameSlot(cap, n);
      }
    }
  }
}
