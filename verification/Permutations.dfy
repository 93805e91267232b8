/** Sequences with the same elements in another order. */
module Permutations {

  function Mapped<A, B>(s: seq<A>, f: A -> B): (r: seq<B>)
    ensures |r| == |s| && forall i :: 0 <= i < |r| ==> r[i] == f(s[i])
  {
    seq(|s|, i requires 0 <= i < |s| => f(s[i]))
  }

  lemma MappedTail<A, B>(s: seq<A>, f: A -> B)
    requires s != []
    ensures Mapped(s, f)[0] == f(s[0]) && Mapped(s, f)[1..] == Mapped(s[1..], f)
  {
  }

  lemma MappedCons<A, B>(x: A, rest: seq<A>, f: A -> B)
    ensures Mapped([x] + rest, f) == [f(x)] + Mapped(rest, f)
  {
  }

  lemma MappedAppend<A, B>(a: seq<A>, b: seq<A>, f: A -> B)
    ensures Mapped(a + b, f) == Mapped(a, f) + Mapped(b, f)
  {
  }

  function Without<T>(s: seq<T>, i: nat): (r: seq<T>)
    requires i < |s|
    ensures multiset(r) == multiset(s) - multiset{s[i]} && |r| == |s| - 1
  {
    assert s == s[..i] + [s[i]] + s[i + 1..];
    s[..i] + s[i + 1..]
  }

  lemma Around<T>(s: seq<T>, p: nat) returns (left: seq<T>, right: seq<T>)
    requires p < |s|
    ensures s == left + [s[p]] + right && Without(s, p) == left + right
  {
    left, right := s[..p], s[p + 1..];
    assert s == left + [s[p]] + right;
  }

  lemma ElementMoves<T>(a: seq<T>, b: seq<T>, i: nat) returns (p: nat)
    requires multiset(a) == multiset(b) && i < |a|
    ensures p < |b| && b[p] == a[i]
  {
    assert a[i] in multiset(a);
    assert a[i] in b;
    p :| 0 <= p < |b| && b[p] == a[i];
  }

  /** Two places of one sequence are two places of the other. */
  lemma PairMoves<T>(a: seq<T>, b: seq<T>, i: nat, j: nat) returns (p: nat, q: nat)
    requires multiset(a) == multiset(b) && i < j < |a|
    ensures p < q < |b| && ((b[p] == a[i] && b[q] == a[j]) || (b[p] == a[j] && b[q] == a[i]))
  {
    var first := ElementMoves(a, b, i);
    var a', b' := Without(a, i), Without(b, first);
    assert a'[j - 1] == a[j];
    var second := ElementMoves(a', b', j - 1);
    if second < first {
      p, q := second, first;
    } else {
      p, q := first, second + 1;
    }
  }

  lemma SameElements<T>(a: seq<T>, b: seq<T>)
    requires multiset(a) == multiset(b)
    ensures |a| == |b| && forall x :: x in a <==> x in b
  {
    assert |multiset(a)| == |multiset(b)|;
    assert forall x :: x in a <==> x in multiset(a);
    assert forall x :: x in b <==> x in multiset(b);
  }

  lemma MappedWithout<A, B>(s: seq<A>, f: A -> B, p: nat)
    requires p < |s|
    ensures Mapped(Without(s, p), f) == Without(Mapped(s, f), p)
  {
  }

  lemma LastApart<T>(s: seq<T>)
    requires s != []
    ensures multiset(s) == multiset(s[..|s| - 1]) + multiset{s[|s| - 1]}
  {
    assert s == s[..|s| - 1] + [s[|s| - 1]];
  }

  lemma TailApart<T>(s: seq<T>)
    requires s != []
    ensures multiset(s[1..]) == multiset(s) - multiset{s[0]}
  {
    assert s == [s[0]] + s[1..];
  }

  lemma CountCons<T>(x: T, rest: seq<T>, y: T)
    ensures multiset([x] + rest)[y] == multiset(rest)[y] + if x == y then 1 else 0
  {
  }

  lemma PlaceApart<T>(s: seq<T>, p: nat)
    requires p < |s|
    ensures multiset(s) == multiset(Without(s, p)) + multiset{s[p]}
  {
  }

  lemma MappedLast<A, B>(s: seq<A>, f: A -> B)
    requires s != []
    ensures multiset(Mapped(s, f)) == multiset(Mapped(s[..|s| - 1], f)) + multiset{f(s[|s| - 1])}
  {
    LastApart(Mapped(s, f));
    assert Mapped(s, f)[..|s| - 1] == Mapped(s[..|s| - 1], f);
  }

  lemma MappedAt<A, B>(t: seq<A>, p: nat, f: A -> B)
    requires p < |t|
    ensures multiset(Mapped(t, f)) == multiset(Mapped(Without(t, p), f)) + multiset{f(t[p])}
  {
    MappedWithout(t, f, p);
    PlaceApart(Mapped(t, f), p);
  }

  lemma CancelOne<T>(a: multiset<T>, b: multiset<T>, x: T)
    requires a + multiset{x} == b + multiset{x}
    ensures a == b
  {
    assert a + multiset{x} - multiset{x} == a && b + multiset{x} - multiset{x} == b;
  }

  /** The last element of one sequence and its match in the other, taken off both. */
  lemma Peel<A, B>(s: seq<A>, t: seq<A>, f: A -> B) returns (p: nat)
    requires s != [] && multiset(Mapped(s, f)) == multiset(Mapped(t, f))
    ensures p < |t| && f(t[p]) == f(s[|s| - 1])
    ensures multiset(Mapped(s[..|s| - 1], f)) == multiset(Mapped(Without(t, p), f))
  {
    p := ElementMoves(Mapped(s, f), Mapped(t, f), |s| - 1);
    MappedLast(s, f);
    MappedAt(t, p, f);
    CancelOne(multiset(Mapped(s[..|s| - 1], f)), multiset(Mapped(Without(t, p), f)), f(t[p]));
  }

  /** Whatever `f` determines moves with it: equal bags under `f` are equal bags under any `g` that `f` decides. */
  lemma {:induction false} MappedMoves<A(!new), B(!new), C(!new)>(s: seq<A>, t: seq<A>, f: A -> B, g: A -> C)
    requires multiset(Mapped(s, f)) == multiset(Mapped(t, f))
    requires forall x, y :: f(x) == f(y) ==> g(x) == g(y)
    ensures multiset(Mapped(s, g)) == multiset(Mapped(t, g))
  {
    if s == [] {
      SameElements(Mapped(s, f), Mapped(t, f));
    } else {
      var p := Peel(s, t, f);
      MappedMoves(s[..|s| - 1], Without(t, p), f, g);
      MappedLast(s, g);
      MappedAt(t, p, g);
    }
  }

  function Same<T>(x: T): T {
    x
  }

  lemma BagMapped<A(!new), B(!new)>(s: seq<A>, t: seq<A>, g: A -> B)
    requires multiset(s) == multiset(t)
    ensures multiset(Mapped(s, g)) == multiset(Mapped(t, g))
  {
    assert Mapped(s, Same<A>) == s && Mapped(t, Same<A>) == t;
    MappedMoves(s, t, Same<A>, g);
  }
}
