/** The operator of a reduction applied over contributions, in the order of the jobs. */
module Folding {

  /** What the fault-free reduction over one process per job computes. */
  function Fold<V>(op: (V, V) -> V, parts: seq<V>): V
    requires parts != []
  {
    if |parts| == 1 then parts[0] else op(Fold(op, parts[..|parts| - 1]), parts[|parts| - 1])
  }

  ghost predicate Associative<V(!new)>(op: (V, V) -> V) {
    forall a, b, c :: op(op(a, b), c) == op(a, op(b, c))
  }

  ghost predicate Commutative<V(!new)>(op: (V, V) -> V) {
    forall a, b :: op(a, b) == op(b, a)
  }

  lemma FoldOfOne<V>(op: (V, V) -> V, x: V)
    ensures Fold(op, [x]) == x
  {
  }

  /** Reducing two groups of jobs and combining the results is reducing all of them. */
  lemma {:induction false} FoldOfConcat<V(!new)>(op: (V, V) -> V, a: seq<V>, b: seq<V>)
    requires Associative(op) && a != [] && b != []
    ensures Fold(op, a + b) == op(Fold(op, a), Fold(op, b))
  {
    var front, last := b[..|b| - 1], b[|b| - 1];
    assert (a + b)[..|a + b| - 1] == a + front;
    if front == [] {
      assert a + front == a;
    } else {
      FoldOfConcat(op, a, front);
    }
  }

  /** One contribution can be taken from any place to the end. */
  lemma FoldTakesOut<V(!new)>(op: (V, V) -> V, a: seq<V>, x: V, b: seq<V>)
    requires Associative(op) && Commutative(op) && a + b != []
    ensures Fold(op, a + [x] + b) == op(Fold(op, a + b), x)
  {
    if b == [] {
      assert a + [x] + b == a + [x] && a + b == a;
      FoldOfConcat(op, a, [x]);
    } else {
      FoldOfConcat(op, [x], b);
      if a == [] {
        assert a + [x] + b == [x] + b && a + b == b;
      } else {
        assert a + [x] + b == a + ([x] + b);
        FoldOfConcat(op, a, [x] + b);
        FoldOfConcat(op, a, b);
      }
    }
  }

  lemma OneLess<V>(a: seq<V>, x: V, b: seq<V>)
    ensures multiset(a + b) == multiset(a + [x] + b) - multiset{x}
  {
  }

  /** The last element of a is somewhere in b, and what is left of both is the same. */
  lemma LastIsIn<V>(front: seq<V>, x: V, b: seq<V>) returns (left: seq<V>, right: seq<V>)
    requires multiset(front + [x]) == multiset(b)
    ensures b == left + [x] + right && multiset(front) == multiset(left + right)
  {
    assert x in front + [x] && x in multiset(front + [x]) && x in b;
    var k :| 0 <= k < |b| && b[k] == x;
    left, right := b[..k], b[k + 1..];
    assert b == left + [x] + right;
    OneLess(left, x, right);
    OneLess(front, x, []);
    assert front + [] == front && front + [x] + [] == front + [x];
  }

  lemma SameLength<V>(a: seq<V>, b: seq<V>)
    requires multiset(a) == multiset(b)
    ensures |a| == |b|
  {
    assert |multiset(a)| == |a| && |multiset(b)| == |b|;
  }

  /** For an associative and commutative operator the order of the contributions does not matter. */
  lemma {:induction false} FoldOfPermutation<V(!new)>(op: (V, V) -> V, a: seq<V>, b: seq<V>)
    requires Associative(op) && Commutative(op) && a != [] && multiset(a) == multiset(b)
    ensures b != [] && Fold(op, a) == Fold(op, b)
    decreases |a|
  {
    SameLength(a, b);
    var front, x := a[..|a| - 1], a[|a| - 1];
    assert a == front + [x];
    var left, right := LastIsIn(front, x, b);
    SameLength(front, left + right);
    if front == [] {
      assert left == [] && right == [] && b == [x];
    } else {
      FoldOfPermutation(op, front, left + right);
      FoldTakesOut(op, left, x, right);
    }
  }

  /** The sum of the contributions of all jobs, from the first to the last. */
  function Sum(parts: seq<int>): int {
    if parts == [] then 0 else parts[0] + Sum(parts[1..])
  }

  lemma {:induction false} SumOfFold(op: (int, int) -> int, parts: seq<int>)
    requires parts != [] && forall a, b :: op(a, b) == a + b
    ensures Fold(op, parts) == Sum(parts)
  {
    if |parts| > 1 {
      assert parts == [parts[0]] + parts[1..];
      forall a, b, c ensures op(op(a, b), c) == op(a, op(b, c)) {
      }
      FoldOfConcat(op, [parts[0]], parts[1..]);
      SumOfFold(op, parts[1..]);
    } else {
      assert parts[1..] == [];
    }
  }

  /** An operator that picks the larger of two contributions delivers the largest of all. */
  lemma {:induction false} MaximumOfFold(op: (int, int) -> int, parts: seq<int>)
    requires parts != [] && forall a, b :: op(a, b) == if a < b then b else a
    ensures Fold(op, parts) in parts && forall i :: 0 <= i < |parts| ==> parts[i] <= Fold(op, parts)
  {
    if |parts| > 1 {
      var front := parts[..|parts| - 1];
      MaximumOfFold(op, front);
      assert forall x :: x in front ==> x in parts;
      forall i | 0 <= i < |parts| ensures parts[i] <= Fold(op, parts) {
        assert i < |front| ==> parts[i] == front[i];
      }
    }
  }
}
