/**
 The in-place vector: elements live in an inline buffer until they outgrow it, then on the
 heap. `BeginX` is a cell array, and the vector is small while that is its inline buffer.
 */
module SmallVector {
  import opened CellAlgorithms

  datatype Growth = NewCapacity(capacity: nat) | SizeOverflow | AtMaximum

  /** maxSize is the largest value of the size type, 2^32-1 or 2^64-1. */
  function GetNewCapacity(minSize: nat, oldCapacity: nat, maxSize: nat): Growth {
    if minSize > maxSize then SizeOverflow
    else if oldCapacity == maxSize then AtMaximum
    else
      var n := 2 * oldCapacity + 1;
      var wanted := if n < minSize then minSize else n;
      NewCapacity(if wanted < maxSize then wanted else maxSize)
  }

  /** Growth succeeds exactly when the request fits and the vector is not at its maximum. It
      then gives strictly more room than before, at least what was asked for, at least twice
      the room before where the size type allows that, and no more than one of these needs. */
  lemma GrowthIsEnough(minSize: nat, oldCapacity: nat, maxSize: nat)
    requires oldCapacity <= maxSize
    ensures var g := GetNewCapacity(minSize, oldCapacity, maxSize);
      && (g.NewCapacity? <==> minSize <= maxSize && oldCapacity < maxSize)
      && (g.NewCapacity? ==> oldCapacity < g.capacity <= maxSize && minSize <= g.capacity)
      && (g.NewCapacity? ==> g.capacity == maxSize || 2 * oldCapacity < g.capacity)
      && (g.NewCapacity? ==> g.capacity <= minSize || g.capacity <= 2 * oldCapacity + 1)
  {
  }

  class SmallVector<T> {
    const maxSize: nat
    const selfMoveKeeps: bool           // whether x = std::move(x) keeps x's value
    const inlineElts: array<Cell<T>>
    var beginX: array<Cell<T>>
    var size: nat
    var capacity: nat
    ghost var contents: seq<T>
    ghost var moved: nat                // elements moved because of growth so far

    ghost predicate Valid()
      reads this, beginX, inlineElts
    {
      && size == |contents|
      && size <= capacity <= beginX.Length
      && capacity <= maxSize
      && (forall i :: 0 <= i < size ==> beginX[i] == Live(contents[i]))
      && (forall i :: size <= i < beginX.Length ==> beginX[i] == Raw)
      && (beginX != inlineElts ==> forall i :: 0 <= i < inlineElts.Length ==> inlineElts[i] == Raw)
    }

    predicate IsSmall()
      reads this
    {
      beginX == inlineElts
    }

    constructor (n: nat, maxSize: nat, selfMoveKeeps: bool)
      requires n <= maxSize
      ensures Valid() && fresh(inlineElts) && IsSmall()
      ensures contents == [] && capacity == n == inlineElts.Length && moved == 0
      ensures this.maxSize == maxSize && this.selfMoveKeeps == selfMoveKeeps
    {
      this.maxSize, this.selfMoveKeeps := maxSize, selfMoveKeeps;
      var cells := new Cell<T>[n](_ => Raw);
      inlineElts, beginX := cells, cells;
      size, capacity, contents, moved := 0, n, [], 0;
    }

    /** A reference that a caller may pass: a value elsewhere or an element of this vector. */
    ghost predicate ValidRef(r: Ref<T>)
      reads this
    {
      r.Into? ==> r.store == beginX && r.index < size
    }

    ghost function Referenced(r: Ref<T>): T
      requires |contents| == size && ValidRef(r)
      reads this
    {
      if r.Into? then contents[r.index] else r.value
    }

    // -------------------------------------------------------------------------
    // Growth
    // -------------------------------------------------------------------------

    /** Moves the elements to the new allocation and destroys the originals. */
    method MoveElementsForGrow(newElts: array<Cell<T>>)
      requires Valid() && newElts != beginX && newElts != inlineElts && size <= newElts.Length
      requires AllRaw(newElts, 0, size)
      modifies beginX, newElts, this`moved
      ensures forall i :: 0 <= i < newElts.Length ==>
                newElts[i] == if i < size then Live(contents[i]) else old(newElts[i])
      ensures AllRaw(beginX, 0, beginX.Length)
      ensures moved == old(moved) + size
    {
      UninitializedMove(beginX, 0, size, newElts, 0);
      DestroyRange(beginX, 0, size);
      moved := moved + size;
    }

    method TakeAllocationForGrow(newElts: array<Cell<T>>, newCapacity: nat)
      modifies this`beginX, this`capacity
      ensures beginX == newElts && capacity == newCapacity
    {
      beginX := newElts;
      capacity := newCapacity;
    }

    /** Fails, with nothing changed, exactly when the size type cannot express the growth. */
    method Grow(minSize: nat) returns (ok: bool)
      requires Valid()
      modifies this, beginX
      ensures Valid() && contents == old(contents)
      ensures ok == GetNewCapacity(minSize, old(capacity), maxSize).NewCapacity?
      ensures ok ==> capacity == GetNewCapacity(minSize, old(capacity), maxSize).capacity
      ensures ok ==> fresh(beginX) && moved == old(moved) + size
      ensures !ok ==> beginX == old(beginX) && capacity == old(capacity) && moved == old(moved)
    {
      var g := GetNewCapacity(minSize, capacity, maxSize);
      if !g.NewCapacity? {
        return false;
      }
      var newElts := new Cell<T>[g.capacity](_ => Raw);
      MoveElementsForGrow(newElts);
      TakeAllocationForGrow(newElts, g.capacity);
      ok := true;
    }

    method Reserve(n: nat) returns (ok: bool)
      requires Valid()
      modifies this, beginX
      ensures Valid() && contents == old(contents)
      ensures ok == (n <= maxSize || n <= old(capacity))
      ensures ok ==> n <= capacity
      ensures ok && n > old(capacity) ==> fresh(beginX)
      ensures !ok || n <= old(capacity) ==> beginX == old(beginX) && capacity == old(capacity)
    {
      ok := true;
      if capacity < n {
        GrowthIsEnough(n, capacity, maxSize);
        ok := Grow(n);
      }
    }

    /** Room for n more elements, and the argument's address afterwards: if it is an element
        of this vector and the vector grew, the element's new address. */
    method ReserveForParamAndGetAddress(elt: Ref<T>, n: nat) returns (ok: bool, ptr: Ref<T>)
      requires Valid() && ValidRef(elt)
      modifies this, beginX
      ensures Valid() && contents == old(contents)
      ensures ok == (size + n <= maxSize)
      ensures ok ==> size + n <= capacity && ValidRef(ptr) && Referenced(ptr) == old(Referenced(elt))
      ensures ok && size + n <= old(capacity) ==>
        beginX == old(beginX) && capacity == old(capacity) && moved == old(moved)
      ensures ok && size + n > old(capacity) ==> fresh(beginX) && moved == old(moved) + size
      ensures ok && size + n > old(capacity) ==> capacity == GetNewCapacity(size + n, old(capacity), maxSize).capacity
      ensures !ok ==> beginX == old(beginX) && capacity == old(capacity) && moved == old(moved)
    {
      var newSize := size + n;
      if newSize <= capacity {
        return true, elt;
      }
      var referencesStorage := elt.Into? && elt.store == beginX && elt.index < size;
      var index := if referencesStorage then elt.index else 0;
      GrowthIsEnough(newSize, capacity, maxSize);
      ok := Grow(newSize);
      ptr := if referencesStorage then Into(beginX, index) else elt;
    }

    // -------------------------------------------------------------------------
    // Adding at the end
    // -------------------------------------------------------------------------

    method PushBack(elt: Ref<T>) returns (ok: bool)
      requires Valid() && ValidRef(elt)
      modifies this, beginX
      ensures Valid() && ok == (old(size) < maxSize)
      ensures contents == if ok then old(contents) + [old(Referenced(elt))] else old(contents)
      ensures PushCost(old(size), old(capacity), old(moved), maxSize) == (size, capacity, moved)
      ensures fresh(beginX) || beginX == old(beginX)
    {
      GrowthIsEnough(size + 1, capacity, maxSize);
      var ptr;
      ok, ptr := ReserveForParamAndGetAddress(elt, 1);
      if ok {
        var v := Read(ptr);
        beginX[size] := Live(v);
        size := size + 1;
        contents := contents + [v];
      }
    }

    /** The new element is constructed from the arguments in the new allocation before the
        old elements move, so the arguments may refer into the vector. */
    method EmplaceInto(newElts: array<Cell<T>>, arg: Ref<T>) returns (v: T)
      requires Valid() && ValidRef(arg) && newElts != beginX && newElts != inlineElts && size < newElts.Length
      requires AllRaw(newElts, 0, newElts.Length)
      modifies beginX, newElts, this`moved
      ensures v == old(Referenced(arg)) && moved == old(moved) + size
      ensures forall i :: 0 <= i < newElts.Length ==>
                newElts[i] == if i < size then Live(contents[i]) else if i == size then Live(v) else Raw
      ensures AllRaw(beginX, 0, beginX.Length)
    {
      v := Read(arg);
      newElts[size] := Live(v);
      MoveElementsForGrow(newElts);
    }

    method GrowAndEmplaceBack(arg: Ref<T>) returns (ok: bool)
      requires Valid() && ValidRef(arg) && size == capacity
      modifies this, beginX
      ensures Valid() && ok == (old(size) < maxSize)
      ensures contents == if ok then old(contents) + [old(Referenced(arg))] else old(contents)
      ensures PushCost(old(size), old(capacity), old(moved), maxSize) == (size, capacity, moved)
      ensures fresh(beginX) || beginX == old(beginX)
    {
      GrowthIsEnough(0, capacity, maxSize);
      GrowthIsEnough(size + 1, capacity, maxSize);
      var g := GetNewCapacity(0, capacity, maxSize);
      if !g.NewCapacity? {
        return false;
      }
      var newElts := new Cell<T>[g.capacity](_ => Raw);
      var v := EmplaceInto(newElts, arg);
      TakeAllocationForGrow(newElts, g.capacity);
      size := size + 1;
      contents := contents + [v];
      ok := true;
    }

    method EmplaceBack(arg: Ref<T>) returns (ok: bool)
      requires Valid() && ValidRef(arg)
      modifies this, beginX
      ensures Valid() && ok == (old(size) < maxSize)
      ensures contents == if ok then old(contents) + [old(Referenced(arg))] else old(contents)
      ensures PushCost(old(size), old(capacity), old(moved), maxSize) == (size, capacity, moved)
      ensures fresh(beginX) || beginX == old(beginX)
    {
      if size >= capacity {
        ok := GrowAndEmplaceBack(arg);
        return;
      }
      var v := Read(arg);
      beginX[size] := Live(v);
      size := size + 1;
      contents := contents + [v];
      ok := true;
    }

    /** Appends n copies of the argument. */
    method Append(n: nat, elt: Ref<T>) returns (ok: bool)
      requires Valid() && ValidRef(elt)
      modifies this, beginX
      ensures Valid() && ok == (old(size) + n <= maxSize)
      ensures contents == if ok then old(contents) + Copies(n, old(Referenced(elt))) else old(contents)
      ensures fresh(beginX) || beginX == old(beginX)
    {
      var ptr;
      ok, ptr := ReserveForParamAndGetAddress(elt, n);
      if ok {
        ghost var v := Referenced(ptr);
        UninitializedFill(beginX, size, n, ptr, v);
        size := size + n;
        contents := contents + Copies(n, v);
      }
    }

    /** Appends a range from elsewhere. */
    method AppendRange(xs: seq<T>) returns (ok: bool)
      requires Valid()
      modifies this, beginX
      ensures Valid() && ok == (old(size) + |xs| <= maxSize)
      ensures contents == if ok then old(contents) + xs else old(contents)
      ensures fresh(beginX) || beginX == old(beginX)
    {
      ok := Reserve(size + |xs|);
      if ok {
        UninitializedCopy(xs, beginX, size);
        size := size + |xs|;
        contents := contents + xs;
      }
    }

    // -------------------------------------------------------------------------
    // Replacing and removing
    // -------------------------------------------------------------------------

    /** Fills the new allocation before the old elements, one of which may be the argument,
        are destroyed. */
    method GrowAndAssign(n: nat, elt: Ref<T>) returns (ok: bool)
      requires Valid() && ValidRef(elt) && n > capacity
      modifies this, beginX
      ensures Valid() && ok == (n <= maxSize)
      ensures contents == if ok then Copies(n, old(Referenced(elt))) else old(contents)
      ensures fresh(beginX) || beginX == old(beginX)
    {
      GrowthIsEnough(n, capacity, maxSize);
      var g := GetNewCapacity(n, capacity, maxSize);
      if !g.NewCapacity? {
        return false;
      }
      var newElts := new Cell<T>[g.capacity](_ => Raw);
      ghost var v := Referenced(elt);
      UninitializedFill(newElts, 0, n, elt, v);
      DestroyRange(beginX, 0, size);
      TakeAllocationForGrow(newElts, g.capacity);
      size := n;
      contents := Copies(n, v);
      ok := true;
    }

    method Assign(n: nat, elt: Ref<T>) returns (ok: bool)
      requires Valid() && ValidRef(elt)
      modifies this, beginX
      ensures Valid() && ok == (n <= maxSize)
      ensures contents == if ok then Copies(n, old(Referenced(elt))) else old(contents)
      ensures fresh(beginX) || beginX == old(beginX)
    {
      if n > capacity {
        ok := GrowAndAssign(n, elt);
        return;
      }
      ghost var v := Referenced(elt);
      Fill(beginX, 0, if n < size then n else size, elt, v);
      if n > size {
        UninitializedFill(beginX, size, n - size, elt, v);
      } else if n < size {
        DestroyRange(beginX, n, size);
      }
      size := n;
      contents := Copies(n, v);
      ok := true;
    }

    method Clear()
      requires Valid()
      modifies this`size, this`contents, beginX
      ensures Valid() && contents == []
    {
      DestroyRange(beginX, 0, size);
      size := 0;
      contents := [];
    }

    method Truncate(n: nat)
      requires Valid() && n <= size
      modifies this`size, this`contents, beginX
      ensures Valid() && contents == old(contents)[..n]
    {
      DestroyRange(beginX, n, size);
      size := n;
      contents := contents[..n];
    }

    method Resize(n: nat, elt: Ref<T>) returns (ok: bool)
      requires Valid() && ValidRef(elt)
      modifies this, beginX
      ensures Valid() && ok == (n <= old(size) || n <= maxSize)
      ensures ok && n <= old(size) ==> contents == old(contents)[..n]
      ensures ok && n > old(size) ==> contents == old(contents) + Copies(n - old(size), old(Referenced(elt)))
      ensures !ok ==> contents == old(contents)
    {
      if n == size {
        return true;
      }
      if n < size {
        Truncate(n);
        return true;
      }
      ok := Append(n - size, elt);
    }

    /** Destroys the last object, moved from or not. */
    method PopBackCell()
      requires 0 < size <= beginX.Length && beginX[size - 1] != Raw
      modifies this`size, beginX
      ensures size == old(size) - 1
      ensures forall i :: 0 <= i < beginX.Length ==> beginX[i] == if i == size then Raw else old(beginX[i])
    {
      size := size - 1;
      DestroyRange(beginX, size, size + 1);
    }

    method EraseOne(i: nat)
      requires Valid() && i < size
      modifies this`size, this`contents, beginX
      ensures Valid() && contents == old(contents)[..i] + old(contents)[i + 1..]
    {
      MoveForward(beginX, i + 1, size, 1, selfMoveKeeps);
      PopBackCell();
      contents := contents[..i] + contents[i + 1..];
    }

    /** Shifts the elements from hi on down to lo and drops the cells they leave. */
    method CloseGap(lo: nat, hi: nat)
      requires Valid() && lo <= hi <= size
      modifies this`size, beginX
      ensures size == old(size) - (hi - lo)
      ensures forall k :: 0 <= k < lo ==> beginX[k] == Live(contents[k])
      ensures lo < hi || selfMoveKeeps ==> forall k :: lo <= k < size ==> beginX[k] == Live(contents[k + (hi - lo)])
      ensures lo == hi && !selfMoveKeeps ==> forall k :: lo <= k < size ==> beginX[k] == MovedFrom
      ensures forall k :: size <= k < beginX.Length ==> beginX[k] == Raw
    {
      MoveForward(beginX, hi, size, hi - lo, selfMoveKeeps);
      var newEnd := size - (hi - lo);
      DestroyRange(beginX, newEnd, size);
      size := newEnd;
    }

    /** An empty range short of the end moves every element behind it onto itself. For a type
        whose values do not survive that, exactly these calls lose the elements. */
    method EraseRange(lo: nat, hi: nat)
      requires Valid() && lo <= hi <= size
      modifies this`size, this`contents, beginX
      ensures size == old(size) - (hi - lo)
      ensures contents == old(contents)[..lo] + old(contents)[hi..]
      ensures Valid() <==> lo < hi || hi == old(size) || selfMoveKeeps
      ensures !Valid() ==> forall k :: lo <= k < size ==> beginX[k] == MovedFrom
    {
      CloseGap(lo, hi);
      contents := contents[..lo] + contents[hi..];
      if lo == hi < size && !selfMoveKeeps {
        assert beginX[lo] == MovedFrom;
      } else {
        assert Valid();
      }
    }

    // -------------------------------------------------------------------------
    // Inserting
    // -------------------------------------------------------------------------

    /** Opens a gap of n cells before element i in a vector with room for them: the gap's
        cells below the old end are constructed, those above it are raw. */
    method OpenGap(i: nat, n: nat)
      requires Valid() && i < size && size + n <= capacity && n <= size - i
      modifies this`size, beginX
      ensures size == old(size) + n
      ensures forall k :: 0 <= k < i ==> beginX[k] == Live(contents[k])
      ensures forall k :: i <= k < i + n ==> beginX[k] != Raw
      ensures n > 0 || selfMoveKeeps ==> forall k :: i + n <= k < size ==> beginX[k] == Live(contents[k - n])
      ensures n == 0 && !selfMoveKeeps ==> forall k :: i <= k < size ==> beginX[k] == MovedFrom
      ensures forall k :: size <= k < beginX.Length ==> beginX[k] == Raw
    {
      var oldEnd := size;
      UninitializedMoveWithin(beginX, oldEnd - n, oldEnd, oldEnd);
      size := size + n;
      MoveBackward(beginX, i, oldEnd - n, n, selfMoveKeeps);
    }

    /** Inserts a copy of the argument before element i. */
    method InsertOne(i: nat, elt: Ref<T>) returns (ok: bool)
      requires Valid() && ValidRef(elt) && i <= size
      modifies this, beginX
      ensures Valid() && ok == (old(size) < maxSize)
      ensures contents == if ok then old(contents)[..i] + [old(Referenced(elt))] + old(contents)[i..] else old(contents)
      ensures fresh(beginX) || beginX == old(beginX)
    {
      if i == size {
        ok := PushBack(elt);
        return;
      }
      var ptr;
      ok, ptr := ReserveForParamAndGetAddress(elt, 1);
      if !ok {
        return;
      }
      InsertOneInPlace(i, ptr);
    }

    /** Opens a gap; the result refers to the argument's value where it now is. */
    method OpenGapFor(i: nat, n: nat, elt: Ref<T>) returns (ptr: Ref<T>)
      requires Valid() && ValidRef(elt) && i < size && size + n <= capacity && 0 < n <= size - i
      modifies this`size, beginX
      ensures size == old(size) + n
      ensures Opened(i, n) && forall k :: i <= k < i + n ==> beginX[k] != Raw
      ensures ptr.Into? ==> ptr.store == beginX && ptr.index < size && (ptr.index < i || i + n <= ptr.index)
      ensures Target(ptr) == Live(old(Referenced(elt)))
    {
      OpenGap(i, n);
      ptr := elt;
      if ptr.Into? && i <= ptr.index < size {
        ptr := Into(beginX, ptr.index + n);
      }
    }

    /** The elements with n cells between those before i and those from i on. */
    ghost predicate Opened(i: nat, n: nat)
      reads this, beginX
    {
      && i <= |contents| && size == |contents| + n && size <= beginX.Length
      && (forall k :: 0 <= k < i ==> beginX[k] == Live(contents[k]))
      && (forall k :: i + n <= k < size ==> beginX[k] == Live(contents[k - n]))
      && (forall k :: size <= k < beginX.Length ==> beginX[k] == Raw)
    }

    /** The contents once the gap is filled. */
    ghost method Insert(i: nat, xs: seq<T>)
      requires Opened(i, |xs|) && size <= capacity <= beginX.Length && capacity <= maxSize
      requires forall k :: i <= k < i + |xs| ==> beginX[k] == Live(xs[k - i])
      requires beginX != inlineElts ==> AllRaw(inlineElts, 0, inlineElts.Length)
      modifies this`contents
      ensures Valid() && contents == old(contents)[..i] + xs + old(contents)[i..]
    {
      InsertedAt(contents, i, xs);
      contents := contents[..i] + xs + contents[i..];
    }

    method InsertOneInPlace(i: nat, elt: Ref<T>)
      requires Valid() && ValidRef(elt) && i < size < capacity
      modifies this`size, this`contents, beginX
      ensures Valid() && contents == old(contents)[..i] + [old(Referenced(elt))] + old(contents)[i..]
    {
      var ptr := OpenGapFor(i, 1, elt);
      var x := Read(ptr);
      beginX[i] := Live(x);
      Insert(i, [x]);
    }

    /** Inserts n copies of the argument before element i. Inserting no copies short of the
        end moves every element from i on onto itself, with the consequence of EraseRange. */
    method InsertCopies(i: nat, n: nat, elt: Ref<T>) returns (ok: bool)
      requires Valid() && ValidRef(elt) && i <= size
      modifies this, beginX
      ensures ok == (old(size) + n <= maxSize)
      ensures ok ==> contents == old(contents)[..i] + Copies(n, old(Referenced(elt))) + old(contents)[i..]
      ensures !ok ==> contents == old(contents)
      ensures Valid() <==> !ok || n > 0 || i == old(size) || selfMoveKeeps
      ensures fresh(beginX) || beginX == old(beginX)
    {
      if i == size {
        ok := Append(n, elt);
        return;
      }
      var ptr;
      ok, ptr := ReserveForParamAndGetAddress(elt, n);
      if !ok {
        return;
      }
      if size - i >= n {
        InsertBehindGap(i, n, ptr);
      } else {
        InsertAcrossEnd(i, n, ptr);
      }
    }

    /** The case with at least as many elements behind the insertion point as new ones. */
    method InsertBehindGap(i: nat, n: nat, elt: Ref<T>)
      requires Valid() && ValidRef(elt) && i < size && size + n <= capacity && n <= size - i
      modifies this`size, this`contents, beginX
      ensures contents == old(contents)[..i] + Copies(n, old(Referenced(elt))) + old(contents)[i..]
      ensures Valid() <==> n > 0 || selfMoveKeeps
    {
      if n > 0 {
        OpenAndFill(i, n, elt);
      } else {
        OpenGap(i, 0);  // the fill of nothing reads nothing
        InsertNothing(i);
      }
    }

    method OpenAndFill(i: nat, n: nat, elt: Ref<T>)
      requires Valid() && ValidRef(elt) && i < size && size + n <= capacity && 0 < n <= size - i
      modifies this`size, this`contents, beginX
      ensures Valid() && contents == old(contents)[..i] + Copies(n, old(Referenced(elt))) + old(contents)[i..]
    {
      ghost var v := Referenced(elt);
      var ptr := OpenGapFor(i, n, elt);
      Fill(beginX, i, n, ptr, v);
      Insert(i, Copies(n, v));
    }

    /** After a gap of no cells the contents are the same, in cells that may have lost them. */
    ghost method InsertNothing(i: nat)
      requires i < size == |contents| <= capacity <= beginX.Length && capacity <= maxSize
      requires forall k :: 0 <= k < i ==> beginX[k] == Live(contents[k])
      requires forall k :: i <= k < size ==> beginX[k] == if selfMoveKeeps then Live(contents[k]) else MovedFrom
      requires AllRaw(beginX, size, beginX.Length)
      requires beginX != inlineElts ==> AllRaw(inlineElts, 0, inlineElts.Length)
      ensures Valid() <==> selfMoveKeeps
      ensures contents == contents[..i] + [] + contents[i..]
    {
      if !selfMoveKeeps {
        assert beginX[i] == MovedFrom;
      }
    }

    /** The case with more new elements than elements behind the insertion point. */
    method InsertAcrossEnd(i: nat, n: nat, elt: Ref<T>)
      requires Valid() && ValidRef(elt) && i < size && size + n <= capacity && n > size - i
      modifies this`size, this`contents, beginX
      ensures Valid()
      ensures contents == old(contents)[..i] + Copies(n, old(Referenced(elt))) + old(contents)[i..]
    {
      ghost var v := Referenced(elt);
      var oldEnd := size;
      var ptr := ShiftAcrossEndFor(i, n, elt);
      FillAcrossEnd(i, oldEnd, n, ptr, v);
      Insert(i, Copies(n, v));
    }

    method ShiftAcrossEndFor(i: nat, n: nat, elt: Ref<T>) returns (ptr: Ref<T>)
      requires Valid() && ValidRef(elt) && i < size && size + n <= capacity && n > size - i
      modifies this`size, beginX
      ensures Opened(i, n) && AllConstructed(beginX, i, old(size)) && AllRaw(beginX, old(size), i + n)
      ensures ptr.Into? ==> ptr.store == beginX && ptr.index < size && (ptr.index < i || i + n <= ptr.index)
      ensures Target(ptr) == Live(old(Referenced(elt)))
    {
      ShiftAcrossEnd(i, n);
      ptr := elt;
      if ptr.Into? && i <= ptr.index < size {
        ptr := Into(beginX, ptr.index + n);
      }
    }

    /** Moves the elements from i on to behind n new ones that reach over the old end: below
        it the cells stay constructed, above it they are raw. */
    method ShiftAcrossEnd(i: nat, n: nat)
      requires Valid() && i < size && size + n <= capacity && n > size - i
      modifies this`size, beginX
      ensures size == old(size) + n
      ensures forall k :: 0 <= k < i ==> beginX[k] == Live(contents[k])
      ensures forall k :: i <= k < old(size) ==> beginX[k] == MovedFrom
      ensures forall k :: old(size) <= k < i + n ==> beginX[k] == Raw
      ensures forall k :: i + n <= k < size ==> beginX[k] == Live(contents[k - n])
      ensures forall k :: size <= k < beginX.Length ==> beginX[k] == Raw
    {
      var oldEnd := size;
      size := size + n;
      UninitializedMoveWithin(beginX, i, oldEnd, size - (oldEnd - i));
    }

    /** Fills the gap: assigns below the old end and constructs above it. */
    method FillAcrossEnd(i: nat, oldEnd: nat, n: nat, ptr: Ref<T>, ghost v: T)
      requires i <= oldEnd <= i + n <= beginX.Length
      requires (ptr.Into? ==> ptr.store == beginX && (ptr.index < i || i + n <= ptr.index < beginX.Length))
      requires Target(ptr) == Live(v)
      requires AllConstructed(beginX, i, oldEnd) && AllRaw(beginX, oldEnd, i + n)
      modifies beginX
      ensures forall k :: 0 <= k < beginX.Length ==> beginX[k] == if i <= k < i + n then Live(v) else old(beginX[k])
    {
      Fill(beginX, i, oldEnd - i, ptr, v);
      UninitializedFill(beginX, oldEnd, n - (oldEnd - i), ptr, v);
    }

    /** Inserts a range from elsewhere before element i. */
    method InsertRange(i: nat, xs: seq<T>) returns (ok: bool)
      requires Valid() && i <= size
      modifies this, beginX
      ensures ok == (old(size) + |xs| <= maxSize)
      ensures contents == if ok then old(contents)[..i] + xs + old(contents)[i..] else old(contents)
      ensures Valid() <==> !ok || |xs| > 0 || i == old(size) || selfMoveKeeps
      ensures fresh(beginX) || beginX == old(beginX)
    {
      if i == size {
        ok := AppendRange(xs);
        return;
      }
      ok := Reserve(size + |xs|);
      if !ok {
        return;
      }
      if size - i >= |xs| {
        InsertRangeBehindGap(i, xs);
      } else {
        InsertRangeAcrossEnd(i, xs);
      }
    }

    method InsertRangeBehindGap(i: nat, xs: seq<T>)
      requires Valid() && i < size && size + |xs| <= capacity && |xs| <= size - i
      modifies this`size, this`contents, beginX
      ensures contents == old(contents)[..i] + xs + old(contents)[i..]
      ensures Valid() <==> |xs| > 0 || selfMoveKeeps
    {
      if |xs| > 0 {
        OpenAndCopy(i, xs);
      } else {
        OpenGap(i, 0);
        InsertNothing(i);
      }
    }

    method OpenAndCopy(i: nat, xs: seq<T>)
      requires Valid() && i < size && size + |xs| <= capacity && 0 < |xs| <= size - i
      modifies this`size, this`contents, beginX
      ensures Valid() && contents == old(contents)[..i] + xs + old(contents)[i..]
    {
      OpenGap(i, |xs|);
      Copy(xs, beginX, i);
      Insert(i, xs);
    }

    method InsertRangeAcrossEnd(i: nat, xs: seq<T>)
      requires Valid() && i < size && size + |xs| <= capacity && |xs| > size - i
      modifies this`size, this`contents, beginX
      ensures Valid() && contents == old(contents)[..i] + xs + old(contents)[i..]
    {
      var oldEnd := size;
      ShiftAcrossEnd(i, |xs|);
      CopyAcrossEnd(i, oldEnd, xs);
      Insert(i, xs);
    }

    method CopyAcrossEnd(i: nat, oldEnd: nat, xs: seq<T>)
      requires i <= oldEnd <= i + |xs| <= beginX.Length
      requires AllConstructed(beginX, i, oldEnd) && AllRaw(beginX, oldEnd, i + |xs|)
      modifies beginX
      ensures forall k :: 0 <= k < beginX.Length ==>
                beginX[k] == if i <= k < i + |xs| then Live(xs[k - i]) else old(beginX[k])
    {
      var numOverwritten := oldEnd - i;
      Copy(xs[..numOverwritten], beginX, i);
      UninitializedCopy(xs[numOverwritten..], beginX, oldEnd);
    }

    // -------------------------------------------------------------------------
    // Two vectors
    // -------------------------------------------------------------------------

    /** Takes the heap allocation of rhs, which becomes small with no capacity. */
    method AssignRemote(rhs: SmallVector<T>)
      requires Valid() && rhs.Valid() && Separate(this, rhs) && !rhs.IsSmall() && maxSize == rhs.maxSize
      modifies this, beginX, rhs
      ensures Valid() && rhs.Valid() && Separate(this, rhs)
      ensures contents == old(rhs.contents) && rhs.contents == []
      ensures beginX == old(rhs.beginX) && capacity == old(rhs.capacity)
      ensures rhs.IsSmall() && rhs.capacity == 0
    {
      DestroyRange(beginX, 0, size);
      beginX, size, capacity := rhs.beginX, rhs.size, rhs.capacity;
      contents := rhs.contents;
      rhs.ResetToSmall();
    }

    /** Forgets the allocation, which another vector has taken over. The inline buffer holds
        nothing, so the vector is in order, with a capacity of zero. */
    method ResetToSmall()
      requires AllRaw(inlineElts, 0, inlineElts.Length)
      modifies this`beginX, this`size, this`capacity, this`contents
      ensures Valid() && IsSmall() && contents == [] && capacity == 0
    {
      beginX := inlineElts;
      size, capacity, contents := 0, 0, [];
    }

    /** Exchanges the contents; only two heap vectors can exchange their allocations. */
    method Swap(rhs: SmallVector<T>)
      requires Valid() && rhs.Valid() && maxSize == rhs.maxSize
      requires this == rhs || Separate(this, rhs)
      modifies this, beginX, rhs, rhs.beginX
      ensures Valid() && rhs.Valid() && (this == rhs || Separate(this, rhs))
      ensures contents == old(rhs.contents) && rhs.contents == old(contents)
    {
      if this == rhs {
        return;
      }
      if !IsSmall() && !rhs.IsSmall() {
        beginX, rhs.beginX := rhs.beginX, beginX;
        size, rhs.size := rhs.size, size;
        capacity, rhs.capacity := rhs.capacity, capacity;
        contents, rhs.contents := rhs.contents, contents;
        return;
      }
      var _ := Reserve(rhs.size);
      var _ := rhs.Reserve(size);
      SwapElements(rhs);
    }

    /** Swaps the shared elements and copies the tail of the longer vector. */
    method SwapElements(rhs: SmallVector<T>)
      requires Valid() && rhs.Valid() && Separate(this, rhs) && maxSize == rhs.maxSize
      requires rhs.size <= capacity && size <= rhs.capacity
      modifies this`size, this`contents, beginX, rhs`size, rhs`contents, rhs.beginX
      ensures Valid() && rhs.Valid()
      ensures contents == old(rhs.contents) && rhs.contents == old(contents)
    {
      if size >= rhs.size {
        SwapWithShorter(rhs);
      } else {
        rhs.SwapWithShorter(this);
      }
    }

    method SwapWithShorter(rhs: SmallVector<T>)
      requires Valid() && rhs.Valid() && Separate(this, rhs) && rhs.size <= size <= rhs.capacity
      modifies this`size, this`contents, beginX, rhs`size, rhs`contents, rhs.beginX
      ensures Valid() && rhs.Valid()
      ensures contents == old(rhs.contents) && rhs.contents == old(contents)
    {
      var numShared := rhs.size;
      SwapShared(beginX, rhs.beginX, numShared);
      if size > numShared {
        CopyTail(rhs, numShared);
      }
      contents, rhs.contents := rhs.contents, contents;
    }

    /** Copies the elements from `from` on to the end of rhs and destroys them here. */
    method CopyTail(rhs: SmallVector<T>, from: nat)
      requires beginX != rhs.beginX && from == rhs.size <= size <= rhs.capacity <= rhs.beginX.Length
      requires AllLive(beginX, from, size) && AllRaw(rhs.beginX, from, rhs.beginX.Length)
      modifies this`size, beginX, rhs`size, rhs.beginX
      ensures size == from && rhs.size == old(size)
      ensures forall k :: 0 <= k < rhs.beginX.Length ==>
                rhs.beginX[k] == if from <= k < rhs.size then old(beginX[k]) else old(rhs.beginX[k])
      ensures forall k :: 0 <= k < beginX.Length ==>
                beginX[k] == if from <= k < old(size) then Raw else old(beginX[k])
    {
      var xs := ReadRange(beginX, from, size);
      UninitializedCopy(xs, rhs.beginX, rhs.size);
      rhs.size := rhs.size + (size - from);
      DestroyRange(beginX, from, size);
      size := from;
    }

    /** Copy assignment: the source keeps its contents and its storage. */
    method CopyAssign(rhs: SmallVector<T>)
      requires Valid() && rhs.Valid() && maxSize == rhs.maxSize
      requires this == rhs || Separate(this, rhs)
      modifies this, beginX
      ensures Valid() && rhs.Valid() && (this == rhs || Separate(this, rhs))
      ensures contents == old(rhs.contents) && rhs.contents == old(rhs.contents)
    {
      if this == rhs {
        return;
      }
      if size >= rhs.size {
        CopyOverElements(rhs);
      } else {
        CopyBeyondElements(rhs);
      }
    }

    method CopyOverElements(rhs: SmallVector<T>)
      requires Valid() && rhs.Valid() && Separate(this, rhs) && size >= rhs.size
      modifies this`size, this`contents, beginX
      ensures Valid() && contents == rhs.contents
    {
      var xs := ReadRange(rhs.beginX, 0, rhs.size);
      Copy(xs, beginX, 0);
      DestroyRange(beginX, rhs.size, size);
      size, contents := rhs.size, rhs.contents;
    }

    /** The first n cells hold what is to become the contents, and the rest is raw. */
    ghost predicate Built(xs: seq<T>)
      reads this, beginX, inlineElts
    {
      && |xs| <= capacity <= beginX.Length
      && capacity <= maxSize
      && (forall i :: 0 <= i < |xs| ==> beginX[i] == Live(xs[i]))
      && (forall i :: |xs| <= i < beginX.Length ==> beginX[i] == Raw)
      && (beginX != inlineElts ==> forall i :: 0 <= i < inlineElts.Length ==> inlineElts[i] == Raw)
    }

    method CopyBeyondElements(rhs: SmallVector<T>)
      requires Valid() && rhs.Valid() && Separate(this, rhs) && maxSize == rhs.maxSize && size < rhs.size
      modifies this, beginX
      ensures Valid() && rhs.Valid() && Separate(this, rhs) && contents == rhs.contents
    {
      var rhsSize := rhs.size;
      var curSize := CopyAssignable(rhs);
      var ys := ReadRange(rhs.beginX, curSize, rhsSize);
      UninitializedCopy(ys, beginX, curSize);
      size, contents := rhsSize, rhs.contents;
    }

    /** Makes room, and assigns over the elements there are if they can stay. */
    method CopyAssignable(rhs: SmallVector<T>) returns (curSize: nat)
      requires Valid() && rhs.Valid() && Separate(this, rhs) && maxSize == rhs.maxSize && size < rhs.size
      modifies this, beginX
      ensures rhs.Valid() && Separate(this, rhs) && unchanged(rhs, rhs.beginX)
      ensures curSize <= rhs.size <= capacity && Built(rhs.contents[..curSize])
      ensures fresh(beginX) || beginX == old(beginX)
    {
      curSize := size;
      if capacity < rhs.size {
        ClearAndGrow(rhs.size);
        curSize := 0;
      } else if curSize > 0 {
        CopyPrefix(rhs, curSize);
      }
    }

    method CopyPrefix(rhs: SmallVector<T>, n: nat)
      requires beginX != rhs.beginX && AllLive(rhs.beginX, 0, n) && AllConstructed(beginX, 0, n)
      modifies beginX
      ensures forall i :: 0 <= i < beginX.Length ==> beginX[i] == if i < n then rhs.beginX[i] else old(beginX[i])
    {
      var xs := ReadRange(rhs.beginX, 0, n);
      Copy(xs, beginX, 0);
    }

    /** Destroys the elements first, so that growing need not move them. */
    method ClearAndGrow(n: nat)
      requires Valid() && capacity < n <= maxSize
      modifies this, beginX
      ensures Valid() && contents == [] && n <= capacity && fresh(beginX)
    {
      Clear();
      GrowthIsEnough(n, capacity, maxSize);
      var _ := Grow(n);
    }

    /** Move assignment: the source is emptied. */
    method MoveAssign(rhs: SmallVector<T>)
      requires Valid() && rhs.Valid() && maxSize == rhs.maxSize
      requires this == rhs || Separate(this, rhs)
      modifies this, beginX, rhs, rhs.beginX
      ensures Valid() && rhs.Valid() && (this == rhs || Separate(this, rhs))
      ensures contents == old(rhs.contents) && (this != rhs ==> rhs.contents == [])
    {
      if this == rhs {
        return;
      }
      if !rhs.IsSmall() {
        AssignRemote(rhs);
        return;
      }
      if size >= rhs.size {
        MoveOverElements(rhs);
      } else {
        MoveBeyondElements(rhs);
      }
    }

    method MoveOverElements(rhs: SmallVector<T>)
      requires Valid() && rhs.Valid() && Separate(this, rhs) && maxSize == rhs.maxSize && size >= rhs.size
      modifies this`size, this`contents, beginX, rhs`size, rhs`contents, rhs.beginX
      ensures Valid() && rhs.Valid()
      ensures contents == old(rhs.contents) && rhs.contents == []
    {
      TakeElements(rhs);
      rhs.DestroyMoved();
    }

    /** Moves the elements of rhs over the first of this vector's and drops the others. */
    method TakeElements(rhs: SmallVector<T>)
      requires Valid() && rhs.Valid() && Separate(this, rhs) && size >= rhs.size
      modifies this`size, this`contents, beginX, rhs.beginX
      ensures Valid() && contents == rhs.contents
      ensures AllConstructed(rhs.beginX, 0, rhs.size) && AllRaw(rhs.beginX, rhs.size, rhs.beginX.Length)
      ensures rhs.beginX != rhs.inlineElts ==> AllRaw(rhs.inlineElts, 0, rhs.inlineElts.Length)
    {
      MoveAcross(rhs.beginX, 0, rhs.size, beginX, 0);
      DestroyRange(beginX, rhs.size, size);
      size, contents := rhs.size, rhs.contents;
    }

    /** Clears a vector whose elements may have been moved from. */
    method DestroyMoved()
      requires size <= capacity <= beginX.Length && capacity <= maxSize
      requires AllConstructed(beginX, 0, size) && AllRaw(beginX, size, beginX.Length)
      requires beginX != inlineElts ==> AllRaw(inlineElts, 0, inlineElts.Length)
      modifies this`size, this`contents, beginX
      ensures Valid() && contents == []
    {
      DestroyRange(beginX, 0, size);
      size, contents := 0, [];
    }

    method MoveBeyondElements(rhs: SmallVector<T>)
      requires Valid() && rhs.Valid() && Separate(this, rhs) && maxSize == rhs.maxSize && size < rhs.size
      modifies this, beginX, rhs`size, rhs`contents, rhs.beginX
      ensures Valid() && rhs.Valid() && Separate(this, rhs)
      ensures contents == old(rhs.contents) && rhs.contents == []
    {
      var rhsSize := rhs.size;
      var curSize := MoveAssignable(rhs);
      UninitializedMove(rhs.beginX, curSize, rhsSize, beginX, curSize);
      size, contents := rhsSize, rhs.contents;
      rhs.DestroyMoved();
    }

    method MoveAssignable(rhs: SmallVector<T>) returns (curSize: nat)
      requires Valid() && rhs.Valid() && Separate(this, rhs) && maxSize == rhs.maxSize && size < rhs.size
      modifies this, beginX, rhs.beginX
      ensures Separate(this, rhs) && unchanged(rhs)
      ensures curSize <= rhs.size <= capacity && Built(rhs.contents[..curSize])
      ensures fresh(beginX) || beginX == old(beginX)
      ensures forall i :: curSize <= i < rhs.beginX.Length ==> rhs.beginX[i] == old(rhs.beginX[i])
      ensures forall i :: 0 <= i < curSize ==> rhs.beginX[i] == MovedFrom
      ensures rhs.beginX != rhs.inlineElts ==> forall i :: 0 <= i < rhs.inlineElts.Length ==> rhs.inlineElts[i] == Raw
    {
      curSize := size;
      if capacity < rhs.size {
        ClearAndGrow(rhs.size);
        curSize := 0;
      } else if curSize > 0 {
        MoveAcross(rhs.beginX, 0, curSize, beginX, 0);
      }
    }

    /** Move assignment between vectors of one inline size, with its shortcut for none. */
    method MoveAssignSameType(rhs: SmallVector<T>)
      requires Valid() && rhs.Valid() && maxSize == rhs.maxSize
      requires inlineElts.Length == rhs.inlineElts.Length
      requires this == rhs || Separate(this, rhs)
      modifies this, beginX, rhs, rhs.beginX
      ensures Valid() && rhs.Valid() && (this == rhs || Separate(this, rhs))
      ensures contents == old(rhs.contents) && (this != rhs ==> rhs.contents == [])
    {
      if inlineElts.Length > 0 {
        MoveAssign(rhs);
        return;
      }
      if this == rhs {
        return;
      }
      if rhs.size == 0 {
        DestroyRange(beginX, 0, size);
        size, contents := 0, [];
      } else {
        AssignRemote(rhs);
      }
    }
  }

  /** Two vectors that share no storage. */
  lemma InsertedAt<T>(s: seq<T>, i: nat, xs: seq<T>)
    requires i <= |s|
    ensures var r := s[..i] + xs + s[i..];
      && |r| == |s| + |xs|
      && forall k :: 0 <= k < |r| ==> r[k] == if k < i then s[k] else if k < i + |xs| then xs[k - i] else s[k - |xs|]
  {
  }

  ghost predicate Separate<T>(a: SmallVector<T>, b: SmallVector<T>)
    reads a, b
  {
    && a != b
    && a.beginX != b.beginX && a.beginX != b.inlineElts
    && a.inlineElts != b.beginX && a.inlineElts != b.inlineElts
  }

  ghost function Copies<T>(n: nat, v: T): (xs: seq<T>)
    ensures |xs| == n && forall i :: 0 <= i < n ==> xs[i] == v
  {
    seq(n, _ => v)
  }

  /** Size, capacity and elements moved by growth, after one push_back. */
  ghost function PushCost(size: nat, capacity: nat, moved: nat, maxSize: nat): (nat, nat, nat) {
    if size + 1 <= capacity then (size + 1, capacity, moved)
    else
      var g := GetNewCapacity(size + 1, capacity, maxSize);
      if g.NewCapacity? then (size + 1, g.capacity, moved + size) else (size, capacity, moved)
  }

  ghost function PushCosts(n: nat, inlineSize: nat, maxSize: nat): (nat, nat, nat) {
    if n == 0 then (0, inlineSize, 0)
    else
      var (size, capacity, moved) := PushCosts(n - 1, inlineSize, maxSize);
      PushCost(size, capacity, moved, maxSize)
  }

  /** n successful push_backs from empty move fewer than 2n elements in all because of
      growth, whatever the inline size; the first n all succeed while n fits the size type. */
  lemma {:induction false} PushesAreAmortized(n: nat, inlineSize: nat, maxSize: nat)
    requires inlineSize <= maxSize && n <= maxSize
    ensures var (size, capacity, moved) := PushCosts(n, inlineSize, maxSize);
      && size == n <= capacity <= maxSize
      && (if n == 0 then moved == 0 else moved < 2 * n)
      && (moved <= capacity || capacity == maxSize)
  {
    if n > 0 {
      PushesAreAmortized(n - 1, inlineSize, maxSize);
      var (size, capacity, moved) := PushCosts(n - 1, inlineSize, maxSize);
      GrowthIsEnough(size + 1, capacity, maxSize);
    }
  }

  /** For a type whose values do not survive a move onto themselves: erasing nothing in front
      of the only element destroys its value. */
  method ErasingNothingLosesAnElement<T>(x: T) returns (v: SmallVector<T>)
    ensures v.contents == [x] && v.beginX.Length > 0 && v.beginX[0] == MovedFrom && !v.Valid()
  {
    v := new SmallVector<T>(1, 1, false);
    var _ := v.PushBack(External(x));
    v.EraseRange(0, 0);
  }

  /** So does inserting no copies, or an empty range. */
  method InsertingNothingLosesAnElement<T>(x: T, byRange: bool) returns (v: SmallVector<T>)
    ensures v.contents == [x] && !v.Valid()
  {
    v := new SmallVector<T>(1, 1, false);
    var _ := v.PushBack(External(x));
    if byRange {
      var _ := v.InsertRange(0, []);
    } else {
      var _ := v.InsertCopies(0, 0, External(x));
    }
  }
}
