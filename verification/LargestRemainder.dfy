/** Splitting an order discount over quote lines by largest remainder: src/sales/sales.service.ts, previewBotPricing. */
module LargestRemainder {
  import opened Common

  datatype Share = Share(index: nat, cents: int, remainder: int)

  function Quota(amounts: seq<int>, discount: int, i: nat): int
    requires i < |amounts| && 0 < Sum(amounts)
  {
    discount * amounts[i] / Sum(amounts)
  }

  function Remainder(amounts: seq<int>, discount: int, i: nat): int
    requires i < |amounts| && 0 < Sum(amounts)
  {
    discount * amounts[i] % Sum(amounts)
  }

  /** Position `i` is served an extra cent before position `j`. */
  predicate Ahead(amounts: seq<int>, discount: int, i: nat, j: nat)
    requires i < |amounts| && j < |amounts| && 0 < Sum(amounts)
  {
    var a, b := Remainder(amounts, discount, i), Remainder(amounts, discount, j);
    a > b || (a == b && i < j)
  }

  ghost predicate Splittable(amounts: seq<int>, discount: int) {
    && (forall i :: 0 <= i < |amounts| ==> 0 <= amounts[i])
    && 0 < discount <= Sum(amounts)
  }

  /** Each share is the floor or the ceiling of its exact quota, and extra cents go to the largest remainders first. */
  ghost predicate FairSplit(amounts: seq<int>, discount: int, split: seq<int>)
    requires Splittable(amounts, discount)
  {
    && |split| == |amounts|
    && Sum(split) == discount
    && (forall i :: 0 <= i < |split| ==>
          || split[i] == Quota(amounts, discount, i)
          || (split[i] == Quota(amounts, discount, i) + 1 && 0 < Remainder(amounts, discount, i)))
    && (forall i, j ::
          0 <= i < |split| && 0 <= j < |split|
          && split[i] > Quota(amounts, discount, i) && split[j] == Quota(amounts, discount, j)
          ==> Ahead(amounts, discount, i, j))
  }

  lemma QuotaParts(amounts: seq<int>, discount: int, i: nat)
    requires i < |amounts| && 0 < Sum(amounts)
    ensures discount * amounts[i] == Sum(amounts) * Quota(amounts, discount, i) + Remainder(amounts, discount, i)
    ensures 0 <= Remainder(amounts, discount, i) < Sum(amounts)
  {
  }

  // ----- What a fair split guarantees -----

  lemma QuotaWithinLine(amounts: seq<int>, discount: int, i: nat)
    requires Splittable(amounts, discount) && i < |amounts|
    ensures 0 <= Quota(amounts, discount, i) <= amounts[i]
    ensures 0 < Remainder(amounts, discount, i) ==> Quota(amounts, discount, i) < amounts[i]
  {
    var total := Sum(amounts);
    var q := Quota(amounts, discount, i);
    assert discount * amounts[i] == q * total + Remainder(amounts, discount, i);
    ProductMonotone(discount, total, amounts[i]);
    ProductMonotone(0, discount, amounts[i]);
    DivisionMonotone(0, discount * amounts[i], total);
    if q > amounts[i] {
      ProductMonotone(amounts[i] + 1, q, total);
    }
  }

  /** No share exceeds its line. */
  lemma ShareWithinLine(amounts: seq<int>, discount: int, split: seq<int>, i: nat)
    requires Splittable(amounts, discount) && FairSplit(amounts, discount, split) && i < |amounts|
    ensures 0 <= split[i] <= amounts[i]
  {
    QuotaWithinLine(amounts, discount, i);
  }

  lemma LargerQuota(amounts: seq<int>, discount: int, i: nat, j: nat)
    requires Splittable(amounts, discount) && i < |amounts| && j < |amounts| && amounts[j] < amounts[i]
    ensures Quota(amounts, discount, j) <= Quota(amounts, discount, i)
    ensures Quota(amounts, discount, j) == Quota(amounts, discount, i) ==>
              Remainder(amounts, discount, j) < Remainder(amounts, discount, i)
  {
    QuotaParts(amounts, discount, i);
    QuotaParts(amounts, discount, j);
    ProductMonotone(amounts[j] + 1, amounts[i], discount);
    DivisionMonotone(discount * amounts[j], discount * amounts[i], Sum(amounts));
  }

  /** A strictly larger line never gets a smaller share. */
  lemma LargerLineLargerShare(amounts: seq<int>, discount: int, split: seq<int>, i: nat, j: nat)
    requires Splittable(amounts, discount) && FairSplit(amounts, discount, split)
    requires i < |amounts| && j < |amounts| && amounts[j] < amounts[i]
    ensures split[j] <= split[i]
  {
    LargerQuota(amounts, discount, i, j);
    assert !Ahead(amounts, discount, j, i) || Quota(amounts, discount, j) < Quota(amounts, discount, i);
  }

  lemma {:induction false} SomeSmaller(a: seq<int>, b: seq<int>, i: nat) returns (j: nat)
    requires |a| == |b| && Sum(a) == Sum(b) && i < |a| && a[i] > b[i]
    ensures j < |a| && a[j] < b[j]
  {
    if forall k :: 0 <= k < |a| ==> a[k] >= b[k] {
      StrictSum(a, b, i);
      assert false;
    } else {
      j :| 0 <= j < |a| && a[j] < b[j];
    }
  }

  lemma {:induction false} StrictSum(a: seq<int>, b: seq<int>, i: nat)
    requires |a| == |b| && i < |a| && a[i] > b[i]
    requires forall k :: 0 <= k < |a| ==> a[k] >= b[k]
    ensures Sum(a) > Sum(b)
  {
    var n := |a| - 1;
    if i < n {
      StrictSum(a[..n], b[..n], i);
    } else {
      SumMonotone(b[..n], a[..n]);
    }
  }

  lemma NeverLarger(amounts: seq<int>, discount: int, a: seq<int>, b: seq<int>, i: nat)
    requires Splittable(amounts, discount) && FairSplit(amounts, discount, a) && FairSplit(amounts, discount, b)
    requires i < |amounts|
    ensures a[i] <= b[i]
  {
    if a[i] > b[i] {
      var j := SomeSmaller(a, b, i);
      assert false;
    }
  }

  /** The rules leave no freedom: amounts and discount determine every share. */
  lemma FairSplitUnique(amounts: seq<int>, discount: int, a: seq<int>, b: seq<int>)
    requires Splittable(amounts, discount) && FairSplit(amounts, discount, a) && FairSplit(amounts, discount, b)
    ensures a == b
  {
    forall i | 0 <= i < |a|
      ensures a[i] == b[i]
    {
      NeverLarger(amounts, discount, a, b, i);
      NeverLarger(amounts, discount, b, a, i);
    }
  }

  // ----- The algorithm -----

  predicate Precedes(a: Share, b: Share) {
    a.remainder > b.remainder || (a.remainder == b.remainder && a.index < b.index)
  }

  ghost predicate Ordered(s: seq<Share>) {
    forall i, j :: 0 <= i < j < |s| ==> Precedes(s[i], s[j])
  }

  function Cents(s: seq<Share>): (r: seq<int>)
    ensures |r| == |s| && forall i :: 0 <= i < |s| ==> r[i] == s[i].cents
  {
    seq(|s|, i requires 0 <= i < |s| => s[i].cents)
  }

  function Remainders(s: seq<Share>): (r: seq<int>)
    ensures |r| == |s| && forall i :: 0 <= i < |s| ==> r[i] == s[i].remainder
  {
    seq(|s|, i requires 0 <= i < |s| => s[i].remainder)
  }

  /** Inserting in front of everything that comes later moves no sum. */
  lemma InsertSums(s: seq<Share>, p: nat, x: Share)
    requires p <= |s|
    ensures Sum(Cents(s[..p] + [x] + s[p..])) == Sum(Cents(s)) + x.cents
    ensures Sum(Remainders(s[..p] + [x] + s[p..])) == Sum(Remainders(s)) + x.remainder
  {
    var t := s[..p] + [x] + s[p..];
    assert Cents(t) == (Cents(s)[..p] + [x.cents]) + Cents(s)[p..];
    assert Remainders(t) == (Remainders(s)[..p] + [x.remainder]) + Remainders(s)[p..];
    assert Cents(s) == Cents(s)[..p] + Cents(s)[p..] && Remainders(s) == Remainders(s)[..p] + Remainders(s)[p..];
    SumAppend(Cents(s)[..p] + [x.cents], Cents(s)[p..]);
    SumAppend(Remainders(s)[..p] + [x.remainder], Remainders(s)[p..]);
    SumSnoc(Cents(s)[..p], x.cents);
    SumSnoc(Remainders(s)[..p], x.remainder);
    SumAppend(Cents(s)[..p], Cents(s)[p..]);
    SumAppend(Remainders(s)[..p], Remainders(s)[p..]);
  }

  /** Largest remainder first, ties in input order. */
  method SortShares(shares: seq<Share>) returns (sorted: seq<Share>)
    requires forall i :: 0 <= i < |shares| ==> shares[i].index == i
    ensures |sorted| == |shares| && Ordered(sorted)
    ensures forall x :: x in sorted <==> x in shares
    ensures Sum(Cents(sorted)) == Sum(Cents(shares)) && Sum(Remainders(sorted)) == Sum(Remainders(shares))
  {
    sorted := [];
    for n := 0 to |shares|
      invariant |sorted| == n && Ordered(sorted)
      invariant forall x :: x in sorted <==> x in shares[..n]
      invariant Sum(Cents(sorted)) == Sum(Cents(shares)[..n]) && Sum(Remainders(sorted)) == Sum(Remainders(shares)[..n])
    {
      SumPrefix(Cents(shares), n);
      SumPrefix(Remainders(shares), n);
      sorted := InsertShare(sorted, shares[n], shares[..n]);
      assert shares[..n + 1] == shares[..n] + [shares[n]];
    }
    assert shares[..|shares|] == shares;
    assert Cents(shares)[..|shares|] == Cents(shares) && Remainders(shares)[..|shares|] == Remainders(shares);
  }

  method InsertShare(s: seq<Share>, x: Share, ghost seen: seq<Share>) returns (t: seq<Share>)
    requires Ordered(s) && (forall y :: y in s <==> y in seen)
    requires forall y :: y in seen ==> y.index < x.index
    ensures |t| == |s| + 1 && Ordered(t) && forall y :: y in t <==> y in seen + [x]
    ensures Sum(Cents(t)) == Sum(Cents(s)) + x.cents && Sum(Remainders(t)) == Sum(Remainders(s)) + x.remainder
  {
    var p := 0;
    while p < |s| && Precedes(s[p], x)
      invariant p <= |s| && forall k :: 0 <= k < p ==> Precedes(s[k], x)
    {
      p := p + 1;
    }
    InsertSums(s, p, x);
    t := InsertOrdered(s, p, x, seen);
  }

  function InsertOrdered(s: seq<Share>, p: nat, x: Share, ghost seen: seq<Share>): (t: seq<Share>)
    requires Ordered(s) && p <= |s| && (forall y :: y in s <==> y in seen)
    requires forall y :: y in seen ==> y.index < x.index
    requires forall k :: 0 <= k < p ==> Precedes(s[k], x)
    requires p < |s| ==> !Precedes(s[p], x)
    ensures t == s[..p] + [x] + s[p..]
    ensures Ordered(t) && forall y :: y in t <==> y in seen + [x]
  {
    InsertedMembers(s, p, x);
    assert p < |s| ==> s[p] in s;
    InsertedOrdered(s, p, x);
    s[..p] + [x] + s[p..]
  }

  lemma InsertedMembers(s: seq<Share>, p: nat, x: Share)
    requires p <= |s|
    ensures forall y :: y in s[..p] + [x] + s[p..] <==> y in s || y == x
  {
    assert s == s[..p] + s[p..];
  }

  lemma InsertedOrdered(s: seq<Share>, p: nat, x: Share)
    requires Ordered(s) && p <= |s| && (forall k :: 0 <= k < p ==> Precedes(s[k], x))
    requires p < |s| ==> Precedes(x, s[p])
    ensures Ordered(s[..p] + [x] + s[p..])
  {
    var t := s[..p] + [x] + s[p..];
    forall k | p <= k < |s|
      ensures Precedes(x, s[k])
    {
      assert k == p || Precedes(s[p], s[k]);
    }
    forall i, j | 0 <= i < j < |t|
      ensures Precedes(t[i], t[j])
    {
      assert t[i] == if i < p then s[i] else if i == p then x else s[i - 1];
      assert t[j] == if j < p then s[j] else if j == p then x else s[j - 1];
    }
  }

  lemma {:induction false} PrefixBound(s: seq<Share>, total: int, k: nat)
    requires k <= |s| && forall x :: x in s ==> 0 <= x.remainder < total
    requires forall i :: k <= i < |s| ==> s[i].remainder == 0
    ensures Sum(Remainders(s)) <= k * total
    ensures 0 < k ==> Sum(Remainders(s)) < k * total
  {
    if |s| > 0 {
      var n := |s| - 1;
      assert Remainders(s)[..n] == Remainders(s[..n]);
      PrefixBound(s[..n], total, if k > n then n else k);
      assert s[n] in s;
      if k > n {
        assert k * total == n * total + total;
      }
    }
  }

  lemma LeftoverBounds(s: seq<Share>, total: int, remaining: int)
    requires 0 < total && forall x :: x in s ==> 0 <= x.remainder < total
    requires Sum(Remainders(s)) == remaining * total
    ensures 0 <= remaining <= |s|
  {
    forall i | 0 <= i < |s|
      ensures 0 <= Remainders(s)[i]
    {
      assert s[i] in s;
    }
    SumNonNegative(Remainders(s));
    if remaining < 0 {
      ProductMonotone(remaining, -1, total);
    }
    PrefixBound(s, total, |s|);
    if remaining > |s| {
      ProductMonotone(|s| + 1, remaining, total);
    }
  }

  /** From the first share without remainder on, no share has any. */
  lemma ZerosAreLast(s: seq<Share>, k: nat)
    requires Ordered(s) && k < |s| && s[k].remainder <= 0 && forall x :: x in s ==> 0 <= x.remainder
    ensures forall i :: k <= i < |s| ==> s[i].remainder == 0
  {
    forall i | k <= i < |s|
      ensures s[i].remainder == 0
    {
      assert s[i] in s && s[k] in s;
      assert i == k || Precedes(s[k], s[i]);
    }
  }

  /** Extra cents never outrun the lines with a nonzero remainder. */
  lemma ExtrasHaveRemainder(s: seq<Share>, total: int, remaining: int)
    requires Ordered(s) && 0 < total && forall x :: x in s ==> 0 <= x.remainder < total
    requires Sum(Remainders(s)) == remaining * total
    ensures 0 <= remaining <= |s|
    ensures forall k :: 0 <= k < remaining ==> 0 < s[k].remainder
  {
    LeftoverBounds(s, total, remaining);
    forall k | 0 <= k < remaining
      ensures 0 < s[k].remainder
    {
      if s[k].remainder <= 0 {
        ZerosAreLast(s, k);
        PrefixBound(s, total, k);
        ProductMonotone(k + 1, remaining, total);
        assert false;
      }
    }
  }

  lemma Distribute(d: int, s: int, x: int, total: int, c: int, q: int, r: int, rem: int)
    requires d * s == total * c + r && d * x == total * q + rem
    ensures d * (s + x) == total * (c + q) + (r + rem)
  {
  }

  lemma {:induction false} QuotaSums(amounts: seq<int>, discount: int, shares: seq<Share>, n: nat)
    requires Splittable(amounts, discount) && FloorsOf(amounts, discount, shares) && n <= |amounts|
    ensures discount * Sum(amounts[..n]) == Sum(amounts) * Sum(Cents(shares)[..n]) + Sum(Remainders(shares)[..n])
  {
    if n > 0 {
      QuotaSums(amounts, discount, shares, n - 1);
      SumPrefix(amounts, n - 1);
      SumPrefix(Cents(shares), n - 1);
      SumPrefix(Remainders(shares), n - 1);
      QuotaParts(amounts, discount, n - 1);
      Distribute(discount, Sum(amounts[..n - 1]), amounts[n - 1], Sum(amounts), Sum(Cents(shares)[..n - 1]),
                 shares[n - 1].cents, Sum(Remainders(shares)[..n - 1]), shares[n - 1].remainder);
    }
  }

  /** What the floors leave over is what the remainders add up to. */
  lemma LeftoverIsRemainders(amounts: seq<int>, discount: int, shares: seq<Share>)
    requires Splittable(amounts, discount) && FloorsOf(amounts, discount, shares)
    ensures Sum(Remainders(shares)) == (discount - Sum(Cents(shares))) * Sum(amounts)
  {
    var n := |amounts|;
    QuotaSums(amounts, discount, shares, n);
    assert amounts[..n] == amounts && Cents(shares)[..n] == Cents(shares) && Remainders(shares)[..n] == Remainders(shares);
    Rearrange(discount, Sum(amounts), Sum(Cents(shares)), Sum(Remainders(shares)));
  }

  lemma Rearrange(d: int, total: int, c: int, r: int)
    requires d * total == total * c + r
    ensures r == (d - c) * total
  {
  }

  ghost predicate FloorsOf(amounts: seq<int>, discount: int, shares: seq<Share>)
    requires 0 < Sum(amounts)
  {
    && |shares| == |amounts|
    && forall i :: 0 <= i < |shares| ==>
         shares[i] == Share(i, Quota(amounts, discount, i), Remainder(amounts, discount, i))
  }

  method FloorShares(amounts: seq<int>, discount: int) returns (shares: seq<Share>)
    requires Splittable(amounts, discount)
    ensures FloorsOf(amounts, discount, shares)
  {
    shares := [];
    var denominator := Sum(amounts);
    for i := 0 to |amounts|
      invariant |shares| == i
      invariant forall k :: 0 <= k < i ==> shares[k] == Share(k, Quota(amounts, discount, k), Remainder(amounts, discount, k))
    {
      var numerator := discount * amounts[i];
      shares := shares + [Share(i, numerator / denominator, numerator % denominator)];
    }
  }

  /** Sorted shares that name every line once. */
  ghost predicate Indexed(sorted: seq<Share>, n: nat) {
    && |sorted| == n
    && (forall k :: 0 <= k < n ==> sorted[k].index < n)
    && forall j, k :: 0 <= j < k < n ==> sorted[j].index != sorted[k].index
  }

  function CentsHanded(x: Share, extra: bool): int {
    x.cents + if extra then 1 else 0
  }

  /** The first `k` shares have been handed out, the first `extras` of them with an extra cent. */
  ghost predicate Handed(split: seq<int>, sorted: seq<Share>, k: nat, extras: int)
    requires Indexed(sorted, |split|) && k <= |sorted|
  {
    && (forall j :: 0 <= j < k ==> split[sorted[j].index] == CentsHanded(sorted[j], j < extras))
    && (forall j :: k <= j < |sorted| ==> split[sorted[j].index] == 0)
    && Sum(split) == Sum(Cents(sorted)[..k]) + if k < extras then k else extras
  }

  lemma HandOne(split: seq<int>, sorted: seq<Share>, k: nat, extras: nat)
    requires Indexed(sorted, |split|) && k < |sorted| && Handed(split, sorted, k, extras)
    ensures Handed(split[sorted[k].index := CentsHanded(sorted[k], k < extras)], sorted, k + 1, extras)
  {
    SumUpdate(split, sorted[k].index, CentsHanded(sorted[k], k < extras));
    SumPrefix(Cents(sorted), k);
  }

  /** Hands the leftover cents to the first `leftover` shares of the sorted list, one each. */
  method HandOut(sorted: seq<Share>, n: nat, leftover: nat) returns (split: seq<int>)
    requires Indexed(sorted, n) && leftover <= n
    ensures |split| == n
    ensures Sum(split) == Sum(Cents(sorted)) + leftover
    ensures forall k :: 0 <= k < n ==> split[sorted[k].index] == CentsHanded(sorted[k], k < leftover)
  {
    split := seq(n, i => 0);
    SumZero(split);
    var remaining := leftover;
    for k := 0 to n
      invariant |split| == n && remaining == if k < leftover then leftover - k else 0
      invariant Handed(split, sorted, k, leftover)
    {
      HandOne(split, sorted, k, leftover);
      var cents := sorted[k].cents;
      if remaining > 0 {
        cents := cents + 1;
        remaining := remaining - 1;
      }
      split := split[sorted[k].index := cents];
    }
    assert Cents(sorted)[..n] == Cents(sorted);
  }

  method SplitOrderDiscount(amounts: seq<int>, discount: int) returns (split: seq<int>)
    requires Splittable(amounts, discount)
    ensures FairSplit(amounts, discount, split)
  {
    var shares := FloorShares(amounts, discount);
    var remaining := discount - Sum(Cents(shares));
    var sorted := SortShares(shares);
    LeftoverFits(amounts, discount, shares, sorted, remaining);
    SortedIndices(amounts, discount, shares, sorted);
    split := HandOut(sorted, |amounts|, remaining);
    assert forall k :: 0 <= k < |sorted| ==> Settled(amounts, discount, sorted, remaining, split, k);
    HandedOutFairly(amounts, discount, sorted, remaining, split);
  }

  lemma LeftoverFits(amounts: seq<int>, discount: int, shares: seq<Share>, sorted: seq<Share>, remaining: int)
    requires Splittable(amounts, discount) && FloorsOf(amounts, discount, shares)
    requires |sorted| == |shares| && Ordered(sorted) && forall x :: x in sorted <==> x in shares
    requires Sum(Remainders(sorted)) == Sum(Remainders(shares)) && remaining == discount - Sum(Cents(shares))
    ensures 0 <= remaining <= |sorted|
    ensures forall k :: 0 <= k < remaining ==> 0 < sorted[k].remainder
  {
    LeftoverIsRemainders(amounts, discount, shares);
    forall x | x in sorted
      ensures 0 <= x.remainder < Sum(amounts)
    {
      var i :| 0 <= i < |shares| && shares[i] == x;
    }
    ExtrasHaveRemainder(sorted, Sum(amounts), remaining);
  }

  lemma SortedIndices(amounts: seq<int>, discount: int, shares: seq<Share>, sorted: seq<Share>)
    requires Splittable(amounts, discount) && FloorsOf(amounts, discount, shares)
    requires |sorted| == |shares| && Ordered(sorted) && forall x :: x in sorted <==> x in shares
    ensures forall k :: 0 <= k < |sorted| ==> sorted[k].index < |sorted| && sorted[k] == shares[sorted[k].index]
    ensures forall j, k :: 0 <= j < k < |sorted| ==> sorted[j].index != sorted[k].index
    ensures forall i :: 0 <= i < |amounts| ==> Placed(sorted, i)
  {
    var n := |shares|;
    forall k | 0 <= k < n
      ensures sorted[k].index < n && sorted[k] == shares[sorted[k].index]
    {
      assert sorted[k] in sorted;
      var i :| 0 <= i < n && shares[i] == sorted[k];
    }
    forall j, k | 0 <= j < k < n
      ensures sorted[j].index != sorted[k].index
    {
      assert Precedes(sorted[j], sorted[k]);
    }
    forall i | 0 <= i < n
      ensures Placed(sorted, i)
    {
      assert shares[i] in shares;
      var k :| 0 <= k < n && sorted[k] == shares[i];
    }
  }

  /** Share `k` of the list carries the floor and the remainder of its line, and its line got its cents. */
  ghost predicate Settled(amounts: seq<int>, discount: int, sorted: seq<Share>, extras: int, split: seq<int>, k: nat)
    requires Splittable(amounts, discount) && |split| == |amounts| && k < |sorted|
  {
    var i := sorted[k].index;
    && i < |amounts|
    && sorted[k] == Share(i, Quota(amounts, discount, i), Remainder(amounts, discount, i))
    && split[i] == CentsHanded(sorted[k], k < extras)
    && (k < extras ==> 0 < sorted[k].remainder)
  }

  lemma SettledPair(amounts: seq<int>, discount: int, sorted: seq<Share>, extras: int, split: seq<int>, a: nat, b: nat)
    requires Splittable(amounts, discount) && |split| == |amounts| && Ordered(sorted) && a < |sorted| && b < |sorted|
    requires Settled(amounts, discount, sorted, extras, split, a) && Settled(amounts, discount, sorted, extras, split, b)
    ensures var i, j := sorted[a].index, sorted[b].index;
            && (split[i] == Quota(amounts, discount, i) ||
                (split[i] == Quota(amounts, discount, i) + 1 && 0 < Remainder(amounts, discount, i)))
            && (split[i] > Quota(amounts, discount, i) && split[j] == Quota(amounts, discount, j) ==>
                  Ahead(amounts, discount, i, j))
  {
    if a < b {
      assert Precedes(sorted[a], sorted[b]);
    }
  }

  lemma HandedOutFairly(amounts: seq<int>, discount: int, sorted: seq<Share>, extras: int, split: seq<int>)
    requires Splittable(amounts, discount) && |split| == |amounts| && Ordered(sorted) && Sum(split) == discount
    requires forall k :: 0 <= k < |sorted| ==> Settled(amounts, discount, sorted, extras, split, k)
    requires forall i :: 0 <= i < |amounts| ==> Placed(sorted, i)
    ensures FairSplit(amounts, discount, split)
  {
    forall i, j | 0 <= i < |split| && 0 <= j < |split|
      ensures split[i] == Quota(amounts, discount, i) ||
              (split[i] == Quota(amounts, discount, i) + 1 && 0 < Remainder(amounts, discount, i))
      ensures split[i] > Quota(amounts, discount, i) && split[j] == Quota(amounts, discount, j) ==>
                Ahead(amounts, discount, i, j)
    {
      assert Placed(sorted, i) && Placed(sorted, j);
      var a :| 0 <= a < |sorted| && sorted[a].index == i;
      var b :| 0 <= b < |sorted| && sorted[b].index == j;
      SettledPair(amounts, discount, sorted, extras, split, a, b);
    }
  }

  /** Position `i` has a share in the sorted list. */
  ghost predicate Placed(sorted: seq<Share>, i: nat) {
    exists k :: 0 <= k < |sorted| && sorted[k].index == i
  }
}
