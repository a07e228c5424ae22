/** Small vocabulary shared by every component. */
module Prelude {
  datatype Option<+T> = None | Some(value: T) {
    predicate IsFailure() { None? }

    function PropagateFailure<U>(): Option<U>
      requires None?
    {
      None
    }

    function Extract(): T
      requires Some?
    {
      value
    }
  }

  type Byte = x: int | 0 <= x < 256

  /** No element occurs twice: Python's `len(set(s)) == len(s)`. */
  predicate Distinct<T(==)>(s: seq<T>) {
    |set x | x in s| == |s|
  }

  lemma {:induction false} DistinctCons<T>(x: T, s: seq<T>)
    ensures Distinct([x] + s) <==> x !in s && Distinct(s)
  {
    var tail := set y | y in s;
    assert (set y | y in [x] + s) == {x} + tail;
    SetOfSeqBound(s);
    if x in s {
      assert {x} + tail == tail;
    }
  }

  lemma {:induction false} SetOfSeqBound<T>(s: seq<T>)
    ensures |set x | x in s| <= |s|
  {
    if s == [] {
    } else {
      SetOfSeqBound(s[1..]);
      var tail := set y | y in s[1..];
      assert (set y | y in s) == {s[0]} + tail;
    }
  }

  lemma PermutationDistinct<T>(a: seq<T>, b: seq<T>)
    requires multiset(a) == multiset(b) && Distinct(a)
    ensures Distinct(b)
  {
    assert forall x :: x in a <==> x in multiset(a);
    assert forall x :: x in b <==> x in multiset(b);
    assert (set x | x in a) == (set x | x in b);
    assert |a| == |multiset(a)| == |multiset(b)| == |b|;
  }
}
