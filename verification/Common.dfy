/** Values and arithmetic shared by every component.

Identifiers are modelled as natural numbers: the code only compares them for
equality and, for tie-breaks and sorting, by a total order. Money is integer cents.
*/
module Common {

  type Id = nat

  type Positive = x: int | 1 <= x witness 1

  datatype Option<+T> = None | Some(value: T)
  {
    function GetOr(default: T): T {
      match this
      case Some(v) => v
      case None => default
    }
  }

  datatype Result<+T, +E> = Ok(value: T) | Err(error: E)

  /** JavaScript's `Math.round(n / d)`: the nearest integer, halves upwards. */
  function RoundDiv(n: int, d: Positive): (r: int)
    ensures 2 * n - d < 2 * d * r <= 2 * n + d
  {
    DivisionBounds(2 * n + d, 2 * d);
    (2 * n + d) / (2 * d)
  }

  lemma DivisionBounds(a: int, b: Positive)
    ensures b * (a / b) <= a < b * (a / b) + b
  {
  }

  lemma DivisionUnique(a: int, b: Positive, q: int)
    requires b * q <= a < b * q + b
    ensures a / b == q
  {
    var r := a / b;
    DivisionBounds(a, b);
    if r < q {
      ProductMonotone(r + 1, q, b);
    } else if r > q {
      ProductMonotone(q + 1, r, b);
    }
  }

  lemma ProductMonotone(x: int, y: int, k: int)
    requires x <= y && 0 <= k
    ensures k * x <= k * y
  {
  }

  lemma DivisionMonotone(a: int, b: int, d: Positive)
    requires a <= b
    ensures a / d <= b / d
  {
    DivisionBounds(a, d);
    DivisionBounds(b, d);
    if a / d > b / d {
      ProductMonotone(b / d + 1, a / d, d);
    }
  }

  function Sum(s: seq<int>): int {
    if s == [] then 0 else Sum(s[..|s| - 1]) + s[|s| - 1]
  }

  lemma SumSnoc(s: seq<int>, x: int)
    ensures Sum(s + [x]) == Sum(s) + x
  {
    assert (s + [x])[..|s|] == s;
  }

  lemma SumOne(x: int)
    ensures Sum([x]) == x
  {
    assert [x][..0] == [];
  }

  lemma {:induction false} SumAppend(s: seq<int>, t: seq<int>)
    ensures Sum(s + t) == Sum(s) + Sum(t)
  {
    if t == [] {
      assert s + t == s;
    } else {
      var t' := t[..|t| - 1];
      SumAppend(s, t');
      assert s + t == (s + t') + [t[|t| - 1]];
      SumSnoc(s + t', t[|t| - 1]);
    }
  }

  lemma SumFromFront(s: seq<int>)
    requires s != []
    ensures Sum(s) == s[0] + Sum(s[1..])
  {
    assert s == [s[0]] + s[1..];
    SumAppend([s[0]], s[1..]);
    SumOne(s[0]);
  }

  /** The sum over one more element, for loops that walk a sequence front to back. */
  lemma SumPrefix(s: seq<int>, i: nat)
    requires i < |s|
    ensures Sum(s[..i + 1]) == Sum(s[..i]) + s[i]
  {
    assert s[..i + 1] == s[..i] + [s[i]];
    SumSnoc(s[..i], s[i]);
  }

  lemma {:induction false} SumUpdate(s: seq<int>, i: nat, x: int)
    requires i < |s|
    ensures Sum(s[i := x]) == Sum(s) - s[i] + x
  {
    if i == |s| - 1 {
      assert s[i := x][..i] == s[..i];
    } else {
      SumUpdate(s[..|s| - 1], i, x);
      assert s[i := x][..|s| - 1] == s[..|s| - 1][i := x];
    }
  }

  lemma {:induction false} SumAddPointwise(s: seq<int>, t: seq<int>, u: seq<int>)
    requires |s| == |t| == |u|
    requires forall i :: 0 <= i < |s| ==> u[i] == s[i] + t[i]
    ensures Sum(u) == Sum(s) + Sum(t)
  {
    if s != [] {
      var n := |s| - 1;
      SumAddPointwise(s[..n], t[..n], u[..n]);
    }
  }

  lemma {:induction false} SumNonNegative(s: seq<int>)
    requires forall i :: 0 <= i < |s| ==> 0 <= s[i]
    ensures 0 <= Sum(s)
    ensures forall i :: 0 <= i < |s| ==> s[i] <= Sum(s)
  {
    if s != [] {
      SumNonNegative(s[..|s| - 1]);
    }
  }

  lemma {:induction false} SumZero(s: seq<int>)
    requires forall i :: 0 <= i < |s| ==> s[i] == 0
    ensures Sum(s) == 0
  {
    if s != [] {
      SumZero(s[..|s| - 1]);
    }
  }

  lemma {:induction false} SumMonotone(a: seq<int>, b: seq<int>)
    requires |a| == |b| && forall i :: 0 <= i < |a| ==> a[i] <= b[i]
    ensures Sum(a) <= Sum(b)
  {
    if a != [] {
      SumMonotone(a[..|a| - 1], b[..|b| - 1]);
    }
  }
}
