/** What several modules need: optional values, and facts about products, quotients and concatenation. */
module Common {

  datatype Option<T> = None | Some(value: T)

  lemma Distribute(a: int, b: int, c: int)
    ensures (a + b) * c == a * c + b * c
  {
  }

  lemma MulSucc(n: nat, k: nat)
    ensures n * (k + 1) == n * k + n
  {
  }

  lemma MultipleAtLeast(d: nat, c: nat)
    requires d >= 1
    ensures d * c >= c
  {
  }

  lemma QuotientUnique(cap: nat, n: nat, q: nat, r: nat)
    requires cap >= 1 && r < cap && n == q * cap + r
    ensures n / cap == q && n % cap == r
  {
    var q' := n / cap;
    assert n == q' * cap + n % cap;
    if q < q' {
      Distribute(q, q' - q, cap);
      MultipleAtLeast(q' - q, cap);
    } else if q' < q {
      Distribute(q', q - q', cap);
      MultipleAtLeast(q - q', cap);
    }
  }

  lemma Regroup<T>(a: seq<T>, b: seq<T>, c: seq<T>)
    ensures (a + b) + c == a + (b + c)
  {
  }

  /** A number above all numbers of a finite set. */
  lemma {:induction false} BoundOf(ids: set<nat>) returns (b: nat)
    ensures forall i :: i in ids ==> i < b
    decreases |ids|
  {
    if ids == {} {
      b := 0;
    } else {
      var i :| i in ids;
      var r := BoundOf(ids - {i});
      b := if r <= i then i + 1 else r;
      assert forall j :: j in ids ==> j == i || j in ids - {i};
    }
  }
}
