/** `Array.prototype.sort` under the planner's comparison: an identity string first, canonical JSON as the tie-break. */
module Sorting {
  import opened Permutations
  import opened Strings

  datatype Rank = Rank(identity: string, canonical: string)

  predicate Precedes(a: Rank, b: Rank) {
    Less(a.identity, b.identity) || (a.identity == b.identity && Less(a.canonical, b.canonical))
  }

  /** The rank tells all elements apart. */
  ghost predicate Faithful<T(!new)>(rank: T -> Rank) {
    forall x, y :: rank(x) == rank(y) ==> x == y
  }

  /** No element comes before one it precedes. */
  ghost predicate Ordered<T>(s: seq<T>, rank: T -> Rank) {
    forall i, j :: 0 <= i < j < |s| ==> !Precedes(rank(s[j]), rank(s[i]))
  }

  ghost predicate Strict<T>(s: seq<T>, rank: T -> Rank) {
    forall i, j :: 0 <= i < j < |s| ==> Precedes(rank(s[i]), rank(s[j]))
  }

  function Insert<T>(x: T, s: seq<T>, rank: T -> Rank): seq<T> {
    if s != [] && Precedes(rank(s[0]), rank(x)) then [s[0]] + Insert(x, s[1..], rank) else [x] + s
  }

  function Sort<T>(s: seq<T>, rank: T -> Rank): seq<T> {
    if s == [] then [] else Insert(s[0], Sort(s[1..], rank), rank)
  }

  // ----- The order -----

  lemma PrecedesTotal(a: Rank, b: Rank)
    ensures Precedes(a, b) || a == b || Precedes(b, a)
    ensures !Precedes(a, a) && (Precedes(a, b) ==> !Precedes(b, a))
  {
    LessTotal(a.identity, b.identity);
    LessTotal(a.canonical, b.canonical);
    Irreflexive(a.identity);
    Irreflexive(a.canonical);
    if Precedes(a, b) && Precedes(b, a) {
      PrecedesTransitive(a, b, a);
    }
  }

  lemma PrecedesTransitive(a: Rank, b: Rank, c: Rank)
    requires Precedes(a, b) && Precedes(b, c)
    ensures Precedes(a, c)
  {
    if Less(a.identity, b.identity) && Less(b.identity, c.identity) {
      LessTransitive(a.identity, b.identity, c.identity);
    } else if a.identity == b.identity && b.identity == c.identity {
      LessTransitive(a.canonical, b.canonical, c.canonical);
    }
  }

  lemma NotPrecedesTransitive(a: Rank, b: Rank, c: Rank)
    requires !Precedes(b, a) && !Precedes(c, b)
    ensures !Precedes(c, a)
  {
    PrecedesTotal(a, b);
    PrecedesTotal(b, c);
    PrecedesTotal(a, c);
    if Precedes(c, a) {
      if a != b {
        PrecedesTransitive(c, a, b);
      }
    }
  }

  // ----- Sorting -----

  lemma {:induction false} InsertPermutes<T>(x: T, s: seq<T>, rank: T -> Rank)
    ensures multiset(Insert(x, s, rank)) == multiset(s) + multiset{x}
  {
    if s != [] && Precedes(rank(s[0]), rank(x)) {
      InsertPermutes(x, s[1..], rank);
      TailApart(s);
    }
  }

  lemma {:induction false} SortPermutes<T>(s: seq<T>, rank: T -> Rank)
    ensures multiset(Sort(s, rank)) == multiset(s)
  {
    if s != [] {
      SortPermutes(s[1..], rank);
      InsertPermutes(s[0], Sort(s[1..], rank), rank);
      assert s == [s[0]] + s[1..];
    }
  }

  /** `x` is before everything in `s`, as far as the order says. */
  ghost predicate First<T>(x: T, s: seq<T>, rank: T -> Rank) {
    forall y :: y in s ==> !Precedes(rank(y), rank(x))
  }

  lemma OrderedCons<T>(x: T, s: seq<T>, rank: T -> Rank)
    ensures Ordered([x] + s, rank) <==> First(x, s, rank) && Ordered(s, rank)
  {
    var all := [x] + s;
    if Ordered(all, rank) {
      forall i | 0 <= i < |s|
        ensures !Precedes(rank(s[i]), rank(x))
      {
        assert all[0] == x && all[i + 1] == s[i];
      }
      forall i, j | 0 <= i < j < |s|
        ensures !Precedes(rank(s[j]), rank(s[i]))
      {
        assert all[i + 1] == s[i] && all[j + 1] == s[j];
      }
    }
  }

  lemma OrderedParts<T>(s: seq<T>, rank: T -> Rank)
    requires s != [] && Ordered(s, rank)
    ensures First(s[0], s[1..], rank) && Ordered(s[1..], rank)
  {
    assert s == [s[0]] + s[1..];
    OrderedCons(s[0], s[1..], rank);
  }

  lemma FirstBelow<T>(x: T, y: T, s: seq<T>, rank: T -> Rank)
    requires First(y, s, rank) && !Precedes(rank(y), rank(x))
    ensures First(x, [y] + s, rank)
  {
    forall z | z in [y] + s
      ensures !Precedes(rank(z), rank(x))
    {
      if z != y {
        NotPrecedesTransitive(rank(x), rank(y), rank(z));
      }
    }
  }

  lemma {:induction false} InsertOrdered<T>(x: T, s: seq<T>, rank: T -> Rank)
    requires Ordered(s, rank)
    ensures Ordered(Insert(x, s, rank), rank)
  {
    if s == [] {
    } else {
      OrderedParts(s, rank);
      if Precedes(rank(s[0]), rank(x)) {
        InsertOrdered(x, s[1..], rank);
        InsertPermutes(x, s[1..], rank);
        var rest := Insert(x, s[1..], rank);
        PrecedesTotal(rank(s[0]), rank(x));
        FirstInsert(s[0], x, s[1..], rest, rank);
        OrderedCons(s[0], rest, rank);
      } else {
        FirstBelow(x, s[0], s[1..], rank);
        assert [s[0]] + s[1..] == s;
        OrderedCons(x, s, rank);
      }
    }
  }

  lemma FirstInsert<T>(y: T, x: T, s: seq<T>, rest: seq<T>, rank: T -> Rank)
    requires First(y, s, rank) && !Precedes(rank(x), rank(y)) && multiset(rest) == multiset(s) + multiset{x}
    ensures First(y, rest, rank)
  {
    forall z | z in rest
      ensures !Precedes(rank(z), rank(y))
    {
      assert z in multiset(rest);
      assert z in s || z == x;
    }
  }

  lemma {:induction false} SortOrdered<T>(s: seq<T>, rank: T -> Rank)
    ensures Ordered(Sort(s, rank), rank)
  {
    if s != [] {
      SortOrdered(s[1..], rank);
      InsertOrdered(s[0], Sort(s[1..], rank), rank);
    }
  }

  /** Two elements that are each before all others are the same. */
  lemma FirstUnique<T(!new)>(x: T, y: T, rank: T -> Rank)
    requires Faithful(rank) && !Precedes(rank(x), rank(y)) && !Precedes(rank(y), rank(x))
    ensures x == y
  {
    PrecedesTotal(rank(x), rank(y));
  }

  lemma FirstOfAll<T>(s: seq<T>, x: T, rank: T -> Rank)
    requires s != [] && Ordered(s, rank) && x in s
    ensures !Precedes(rank(x), rank(s[0]))
  {
    PrecedesTotal(rank(s[0]), rank(s[0]));
  }

  /** An ordered sequence is determined by its elements. */
  lemma {:induction false} OrderedUnique<T(!new)>(a: seq<T>, b: seq<T>, rank: T -> Rank)
    requires Faithful(rank) && Ordered(a, rank) && Ordered(b, rank) && multiset(a) == multiset(b)
    ensures a == b
  {
    SameElements(a, b);
    if a != [] {
      FirstOfAll(a, b[0], rank);
      FirstOfAll(b, a[0], rank);
      FirstUnique(a[0], b[0], rank);
      OrderedParts(a, rank);
      OrderedParts(b, rank);
      assert a == [a[0]] + a[1..] && b == [b[0]] + b[1..];
      TailApart(a);
      TailApart(b);
      OrderedUnique(a[1..], b[1..], rank);
    }
  }

  /** Sorting forgets the order and nothing else: two sequences sort alike exactly when one is a permutation of the other. */
  lemma SortForgetsOrder<T(!new)>(a: seq<T>, b: seq<T>, rank: T -> Rank)
    requires Faithful(rank)
    ensures Sort(a, rank) == Sort(b, rank) <==> multiset(a) == multiset(b)
  {
    SortPermutes(a, rank);
    SortPermutes(b, rank);
    SortOrdered(a, rank);
    SortOrdered(b, rank);
    if multiset(a) == multiset(b) {
      OrderedUnique(Sort(a, rank), Sort(b, rank), rank);
    }
  }

  // ----- Sets in order -----

  predicate Least<T(==)>(x: T, s: set<T>, rank: T -> Rank) {
    x in s && forall y :: y in s ==> !Precedes(rank(y), rank(x))
  }

  lemma {:induction false} LeastExists<T(!new)>(s: set<T>, rank: T -> Rank) returns (x: T)
    requires s != {}
    ensures Least(x, s, rank)
  {
    x :| x in s;
    PrecedesTotal(rank(x), rank(x));
    if s != {x} {
      var y := LeastExists(s - {x}, rank);
      if Precedes(rank(y), rank(x)) {
        PrecedesTotal(rank(y), rank(x));
        x := y;
      } else {
        forall z | z in s
          ensures !Precedes(rank(z), rank(x))
        {
          if z != x {
            NotPrecedesTransitive(rank(x), rank(y), rank(z));
          }
        }
      }
    }
  }

  /** The elements of a set in order; ranks that tell elements apart leave no choice. */
  function Listed<T(!new, ==)>(s: set<T>, rank: T -> Rank): (r: seq<T>)
    requires Faithful(rank)
    ensures |r| == |s| && forall x :: x in r <==> x in s
  {
    if s == {} then []
    else
      LeastUnique(s, rank);
      var x :| x in s && Least(x, s, rank);
      [x] + Listed(s - {x}, rank)
  }

  lemma LeastUnique<T(!new)>(s: set<T>, rank: T -> Rank)
    requires s != {} && Faithful(rank)
    ensures exists x :: Least(x, s, rank)
    ensures forall x, y :: Least(x, s, rank) && Least(y, s, rank) ==> x == y
  {
    var least := LeastExists(s, rank);
    forall x, y | Least(x, s, rank) && Least(y, s, rank)
      ensures x == y
    {
      FirstUnique(x, y, rank);
    }
  }

  lemma {:induction false} ListedStrict<T(!new)>(s: set<T>, rank: T -> Rank)
    requires Faithful(rank)
    ensures Strict(Listed(s, rank), rank)
  {
    if s != {} {
      LeastUnique(s, rank);
      var r := Listed(s, rank);
      assert Least(r[0], s, rank);
      ListedStrict(s - {r[0]}, rank);
      forall j | 0 < j < |r|
        ensures Precedes(rank(r[0]), rank(r[j]))
      {
        assert r[j] in s - {r[0]};
        PrecedesTotal(rank(r[0]), rank(r[j]));
      }
    }
  }

  lemma StrictIsOrdered<T>(s: seq<T>, rank: T -> Rank)
    requires Strict(s, rank)
    ensures Ordered(s, rank)
  {
    forall i, j | 0 <= i < j < |s|
      ensures !Precedes(rank(s[j]), rank(s[i]))
    {
      PrecedesTotal(rank(s[i]), rank(s[j]));
    }
  }

  lemma StrictTail<T>(s: seq<T>, rank: T -> Rank)
    requires s != [] && Strict(s, rank)
    ensures Strict(s[1..], rank) && forall x :: x in s[1..] <==> x in s && x != s[0]
  {
    forall i | 0 < i < |s|
      ensures s[i] != s[0]
    {
      PrecedesTotal(rank(s[0]), rank(s[i]));
    }
    assert s == [s[0]] + s[1..];
  }

  lemma EmptyAlike<T>(a: seq<T>, b: seq<T>)
    requires forall x :: x in a <==> x in b
    ensures a == [] <==> b == []
  {
    if a != [] {
      assert a[0] in b;
    }
    if b != [] {
      assert b[0] in a;
    }
  }

  /** A strictly ordered sequence is determined by which elements it has. */
  lemma {:induction false} StrictUnique<T(!new)>(a: seq<T>, b: seq<T>, rank: T -> Rank)
    requires Faithful(rank) && Strict(a, rank) && Strict(b, rank) && forall x :: x in a <==> x in b
    ensures a == b
  {
    EmptyAlike(a, b);
    if a != [] {
      assert a[0] in b && b[0] in b;
      StrictIsOrdered(a, rank);
      StrictIsOrdered(b, rank);
      FirstOfAll(a, b[0], rank);
      FirstOfAll(b, a[0], rank);
      FirstUnique(a[0], b[0], rank);
      StrictTail(a, rank);
      StrictTail(b, rank);
      StrictUnique(a[1..], b[1..], rank);
      assert a == [a[0]] + a[1..] && b == [b[0]] + b[1..];
    }
  }
}
