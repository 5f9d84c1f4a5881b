/** Quantities that do not depend on the order of a list. */
module Permutations {

  /** Moving an element to the end changes nothing. */
  ghost predicate Movable<T(!new)>(f: seq<T> -> real) {
    forall a: seq<T>, x: T, b: seq<T> :: f(a + [x] + b) == f(a + b + [x])
  }

  /** What the value of a longer list depends on is the value of the shorter one. */
  ghost predicate Congruent<T(!new)>(f: seq<T> -> real) {
    forall a: seq<T>, b: seq<T>, x: T {:trigger f(a + [x]), f(b + [x])} :: f(a) == f(b) ==> f(a + [x]) == f(b + [x])
  }

  /** One occurrence of `x`, and the rest. */
  lemma TakeOut<T>(b: seq<T>, x: T) returns (left: seq<T>, right: seq<T>)
    requires x in b
    ensures b == left + [x] + right
    ensures multiset(left + right) == multiset(b) - multiset{x}
  {
    var i :| 0 <= i < |b| && b[i] == x;
    left, right := b[..i], b[i + 1..];
    assert b == left + [x] + right;
    assert multiset(b) == multiset(left + right) + multiset{x};
  }

  lemma InitMultiset<T>(init: seq<T>, x: T)
    ensures multiset(init + [x]) - multiset{x} == multiset(init) && x in multiset(init + [x])
  {
  }

  lemma {:induction false} OrderIrrelevant<T(!new)>(f: seq<T> -> real, a: seq<T>, b: seq<T>)
    requires Movable(f) && Congruent(f) && multiset(a) == multiset(b)
    ensures f(a) == f(b)
  {
    hide Movable, Congruent;
    if a == [] {
      assert |b| == |multiset(b)| == 0;
    } else {
      var init, x := a[..|a| - 1], a[|a| - 1];
      assert a == init + [x];
      InitMultiset(init, x);
      assert x in multiset(b);
      var left, right := TakeOut(b, x);
      OrderIrrelevant(f, init, left + right);
      Move(f, left, x, right, init);
    }
  }

  lemma Move<T(!new)>(f: seq<T> -> real, left: seq<T>, x: T, right: seq<T>, init: seq<T>)
    requires Movable(f) && Congruent(f) && f(init) == f(left + right)
    ensures f(init + [x]) == f(left + [x] + right)
  {
    assert f(init + [x]) == f((left + right) + [x]);
  }
}
