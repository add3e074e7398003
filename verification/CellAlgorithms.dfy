/**
 Raw storage cells, and the standard library's algorithms over ranges of them. A cell is
 memory without an object, an object with a value, or an object that was moved from: only
 raw cells are constructed in, only constructed cells are assigned or destroyed, and only
 live objects are read.
 */
module CellAlgorithms {

  datatype Cell<T> = Raw | Live(value: T) | MovedFrom

  /** A `const T&`: a value elsewhere, or an element of some cell array. */
  datatype Ref<T> = External(value: T) | Into(store: array<Cell<T>>, index: nat)

  ghost function Target<T>(r: Ref<T>): Cell<T>
    reads if r.Into? then {r.store} else {}
  {
    match r
    case External(v) => Live(v)
    case Into(a, i) => if i < a.Length then a[i] else Raw
  }

  ghost predicate AllLive<T>(a: array<Cell<T>>, lo: nat, hi: nat)
    reads a
  {
    lo <= hi <= a.Length && forall i :: lo <= i < hi ==> a[i].Live?
  }

  ghost predicate AllRaw<T>(a: array<Cell<T>>, lo: nat, hi: nat)
    reads a
  {
    lo <= hi <= a.Length && forall i :: lo <= i < hi ==> a[i] == Raw
  }

  ghost predicate AllConstructed<T>(a: array<Cell<T>>, lo: nat, hi: nat)
    reads a
  {
    lo <= hi <= a.Length && forall i :: lo <= i < hi ==> a[i] != Raw
  }

  /** The value behind a reference to a live object. */
  method Read<T>(r: Ref<T>) returns (v: T)
    requires Target(r).Live?
    ensures Target(r) == Live(v)
  {
    match r {
      case External(x) => v := x;
      case Into(a, i) => v := a[i].value;
    }
  }

  method DestroyRange<T>(a: array<Cell<T>>, lo: nat, hi: nat)
    requires AllConstructed(a, lo, hi)
    modifies a
    ensures AllRaw(a, lo, hi)
    ensures forall i :: 0 <= i < a.Length && !(lo <= i < hi) ==> a[i] == old(a[i])
  {
    var e := hi;
    while e != lo
      invariant lo <= e <= hi
      invariant forall i :: 0 <= i < a.Length ==> a[i] == if e <= i < hi then Raw else old(a[i])
    {
      e := e - 1;
      a[e] := Raw;
    }
  }

  /** Constructs copies of the referenced value; the reference stays valid throughout. */
  method UninitializedFill<T>(a: array<Cell<T>>, lo: nat, n: nat, r: Ref<T>, ghost v: T)
    requires AllRaw(a, lo, lo + n) && Target(r) == Live(v)
    modifies a
    ensures forall i :: 0 <= i < a.Length ==> a[i] == if lo <= i < lo + n then Live(v) else old(a[i])
  {
    for k := 0 to n
      invariant forall i :: 0 <= i < a.Length ==> a[i] == if lo <= i < lo + k then Live(v) else old(a[i])
      invariant Target(r) == Live(v)
    {
      var x := Read(r);
      a[lo + k] := Live(x);
    }
  }

  /** Assigns the referenced value to every cell, reading the reference anew each time, as a
      reference into the filled range itself makes it do. */
  method Fill<T>(a: array<Cell<T>>, lo: nat, n: nat, r: Ref<T>, ghost v: T)
    requires AllConstructed(a, lo, lo + n) && Target(r) == Live(v)
    modifies a
    ensures forall i :: 0 <= i < a.Length ==> a[i] == if lo <= i < lo + n then Live(v) else old(a[i])
  {
    for k := 0 to n
      invariant forall i :: 0 <= i < a.Length ==> a[i] == if lo <= i < lo + k then Live(v) else old(a[i])
      invariant Target(r) == Live(v)
    {
      var x := Read(r);
      a[lo + k] := Live(x);
    }
  }

  method UninitializedCopy<T>(xs: seq<T>, a: array<Cell<T>>, at: nat)
    requires AllRaw(a, at, at + |xs|)
    modifies a
    ensures forall i :: 0 <= i < a.Length ==> a[i] == if at <= i < at + |xs| then Live(xs[i - at]) else old(a[i])
  {
    for k := 0 to |xs|
      invariant forall i :: 0 <= i < a.Length ==> a[i] == if at <= i < at + k then Live(xs[i - at]) else old(a[i])
    {
      a[at + k] := Live(xs[k]);
    }
  }

  method Copy<T>(xs: seq<T>, a: array<Cell<T>>, at: nat)
    requires AllConstructed(a, at, at + |xs|)
    modifies a
    ensures forall i :: 0 <= i < a.Length ==> a[i] == if at <= i < at + |xs| then Live(xs[i - at]) else old(a[i])
  {
    for k := 0 to |xs|
      invariant forall i :: 0 <= i < a.Length ==> a[i] == if at <= i < at + k then Live(xs[i - at]) else old(a[i])
    {
      a[at + k] := Live(xs[k]);
    }
  }

  /** Moves src[lo..hi] into raw memory of another array. */
  method UninitializedMove<T>(src: array<Cell<T>>, lo: nat, hi: nat, dst: array<Cell<T>>, at: nat)
    requires src != dst && AllLive(src, lo, hi) && AllRaw(dst, at, at + (hi - lo))
    modifies src, dst
    ensures forall i :: 0 <= i < dst.Length ==>
              dst[i] == if at <= i < at + (hi - lo) then old(src[lo + i - at]) else old(dst[i])
    ensures forall i :: 0 <= i < src.Length ==> src[i] == if lo <= i < hi then MovedFrom else old(src[i])
  {
    for k := lo to hi
      invariant forall i :: 0 <= i < dst.Length ==>
                  dst[i] == if at <= i < at + (k - lo) then old(src[lo + i - at]) else old(dst[i])
      invariant forall i :: 0 <= i < src.Length ==> src[i] == if lo <= i < k then MovedFrom else old(src[i])
    {
      dst[at + (k - lo)] := Live(src[k].value);
      src[k] := MovedFrom;
    }
  }

  /** Move-assigns src[lo..hi] over constructed cells of another array. */
  method MoveAcross<T>(src: array<Cell<T>>, lo: nat, hi: nat, dst: array<Cell<T>>, at: nat)
    requires src != dst && AllLive(src, lo, hi) && AllConstructed(dst, at, at + (hi - lo))
    modifies src, dst
    ensures forall i :: 0 <= i < dst.Length ==>
              dst[i] == if at <= i < at + (hi - lo) then old(src[lo + i - at]) else old(dst[i])
    ensures forall i :: 0 <= i < src.Length ==> src[i] == if lo <= i < hi then MovedFrom else old(src[i])
  {
    for k := lo to hi
      invariant forall i :: 0 <= i < dst.Length ==>
                  dst[i] == if at <= i < at + (k - lo) then old(src[lo + i - at]) else old(dst[i])
      invariant forall i :: 0 <= i < src.Length ==> src[i] == if lo <= i < k then MovedFrom else old(src[i])
    {
      dst[at + (k - lo)] := Live(src[k].value);
      src[k] := MovedFrom;
    }
  }

  /** Moves a[lo..hi] into raw memory further up in the same array. */
  method UninitializedMoveWithin<T>(a: array<Cell<T>>, lo: nat, hi: nat, at: nat)
    requires hi <= at && AllLive(a, lo, hi) && AllRaw(a, at, at + (hi - lo))
    modifies a
    ensures forall i :: 0 <= i < a.Length ==>
              a[i] == if at <= i < at + (hi - lo) then old(a[lo + i - at])
                      else if lo <= i < hi then MovedFrom else old(a[i])
  {
    for k := lo to hi
      invariant forall i :: 0 <= i < a.Length ==>
                  a[i] == if at <= i < at + (k - lo) then old(a[lo + i - at])
                          else if lo <= i < k then MovedFrom else old(a[i])
    {
      a[at + (k - lo)] := Live(a[k].value);
      a[k] := MovedFrom;
    }
  }

  /** std::move_backward: shifts a[lo..hi] up by d, last element first. With d = 0 every
      element is move-assigned to itself, which keeps its value only if the type says so. */
  method MoveBackward<T>(a: array<Cell<T>>, lo: nat, hi: nat, d: nat, selfMoveKeeps: bool)
    requires AllLive(a, lo, hi) && AllConstructed(a, lo, hi + d)
    modifies a
    ensures forall i :: 0 <= i < a.Length ==>
                a[i] == if d > 0 && lo + d <= i < hi + d then old(a[i - d])
                else if lo <= i < hi && !(d == 0 && selfMoveKeeps) then MovedFrom else old(a[i])
  {
    var k := hi;
    while k != lo
      invariant lo <= k <= hi
      invariant forall i :: 0 <= i < a.Length ==>
                    a[i] == if d > 0 && k + d <= i < hi + d then old(a[i - d])
                    else if k <= i < hi && !(d == 0 && selfMoveKeeps) then MovedFrom else old(a[i])
    {
      k := k - 1;
      MoveAssign(a, k + d, k, selfMoveKeeps);
    }
  }

  /** std::move: shifts a[lo..hi] down by d, first element first. */
  method MoveForward<T>(a: array<Cell<T>>, lo: nat, hi: nat, d: nat, selfMoveKeeps: bool)
    requires d <= lo && AllLive(a, lo, hi) && AllConstructed(a, lo - d, hi)
    modifies a
    ensures forall i :: 0 <= i < a.Length ==>
                a[i] == if d > 0 && lo - d <= i < hi - d then old(a[i + d])
                else if lo <= i < hi && !(d == 0 && selfMoveKeeps) then MovedFrom else old(a[i])
  {
    for k := lo to hi
      invariant forall i :: 0 <= i < a.Length ==>
                    a[i] == if d > 0 && lo - d <= i < k - d then old(a[i + d])
                    else if lo <= i < k && !(d == 0 && selfMoveKeeps) then MovedFrom else old(a[i])
    {
      MoveAssign(a, k - d, k, selfMoveKeeps);
    }
  }

  /** *to = std::move(*from). */
  method MoveAssign<T>(a: array<Cell<T>>, to: nat, from: nat, selfMoveKeeps: bool)
    requires to < a.Length && from < a.Length && a[from].Live? && a[to] != Raw
    modifies a
    ensures forall i :: 0 <= i < a.Length ==>
                a[i] == if i == to && to != from then old(a[from])
                else if i == from && !(to == from && selfMoveKeeps) then MovedFrom else old(a[i])
  {
    var v := a[from].value;
    a[to] := Live(v);
    if to != from || !selfMoveKeeps {
      a[from] := MovedFrom;
    }
  }

  /** The values a copying algorithm reads from a[lo..hi]. */
  method ReadRange<T>(a: array<Cell<T>>, lo: nat, hi: nat) returns (xs: seq<T>)
    requires AllLive(a, lo, hi)
    ensures |xs| == hi - lo && forall i :: lo <= i < hi ==> a[i] == Live(xs[i - lo])
  {
    xs := [];
    for k := lo to hi
      invariant |xs| == k - lo && forall i :: lo <= i < k ==> a[i] == Live(xs[i - lo])
    {
      xs := xs + [a[k].value];
    }
  }

  /** std::swap of the first n elements of two arrays, one after the other. */
  method SwapShared<T>(a: array<Cell<T>>, b: array<Cell<T>>, n: nat)
    requires a != b && AllLive(a, 0, n) && AllLive(b, 0, n)
    modifies a, b
    ensures forall i :: 0 <= i < a.Length ==> a[i] == if i < n then old(b[i]) else old(a[i])
    ensures forall i :: 0 <= i < b.Length ==> b[i] == if i < n then old(a[i]) else old(b[i])
  {
    for k := 0 to n
      invariant forall i :: 0 <= i < a.Length ==> a[i] == if i < k then old(b[i]) else old(a[i])
      invariant forall i :: 0 <= i < b.Length ==> b[i] == if i < k then old(a[i]) else old(b[i])
    {
      a[k], b[k] := b[k], a[k];
    }
  }
}
