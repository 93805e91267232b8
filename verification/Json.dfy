/** Canonical JSON: `canonical` in prisma/editorial-production-vocabulary-plan.ts.

The text of a value with the members of every object in key order. The planner compares texts where it means values;
that is sound because the text determines the value.
*/
module Json {
  import opened Sorting
  import opened Strings

  datatype Value =
    | Null
    | Bool(b: bool)
    | Number(n: int)
    | Text(s: string)
    | List(items: seq<Value>)
    | Object(members: map<string, Value>)

  // ----- Text -----

  const HEX := "0123456789abcdef"

  function EscapedChar(c: char): string {
    if c == '\"' then ['\\', '\"']
    else if c == '\\' then ['\\', '\\']
    else if c as int == 8 then ['\\', 'b']
    else if c as int == 9 then ['\\', 't']
    else if c as int == 10 then ['\\', 'n']
    else if c as int == 12 then ['\\', 'f']
    else if c as int == 13 then ['\\', 'r']
    else if (c as int) < 32 then ['\\', 'u', '0', '0', HEX[c as int / 16], HEX[c as int % 16]]
    else [c]
  }

  /** The characters of a string and its closing quote. */
  function Escaped(s: string): string {
    if s == "" then "\"" else EscapedChar(s[0]) + Escaped(s[1..])
  }

  function Quoted(s: string): string {
    "\"" + Escaped(s)
  }

  function Signed(negative: bool, size: nat): string {
    if negative then "-" + Decimal(size) else Decimal(size)
  }

  function Size(n: int): nat {
    if n < 0 then -n else n
  }

  function Numeral(n: int): string {
    Signed(n < 0, Size(n))
  }

  function KeyRank(k: string): Rank {
    Rank(k, "")
  }

  lemma KeysFaithful()
    ensures Faithful(KeyRank)
  {
  }

  function SortedKeys(keys: set<string>): (r: seq<string>)
    ensures forall k :: k in r <==> k in keys
  {
    KeysFaithful();
    Listed(keys, KeyRank)
  }

  function Canonical(v: Value): string
    decreases v
  {
    match v
    case Null => "null"
    case Bool(b) => if b then "true" else "false"
    case Number(n) => Numeral(n)
    case Text(s) => Quoted(s)
    case List(items) => "[" + ItemsText(items, "")
    case Object(members) => "{" + MembersText(v, SortedKeys(members.Keys), "")
  }

  /** The remaining items and the closing bracket; `before` separates the next item from what precedes it. */
  function ItemsText(items: seq<Value>, before: string): string
    decreases items
  {
    if items == [] then "]" else before + (Canonical(items[0]) + ItemsText(items[1..], ","))
  }

  function MembersText(v: Value, keys: seq<string>, before: string): string
    requires v.Object? && forall k :: k in keys ==> k in v.members
    decreases v, |keys|
  {
    if keys == [] then "}"
    else before + (Quoted(keys[0]) + (":" + (Canonical(v.members[keys[0]]) + MembersText(v, keys[1..], ","))))
  }

  // ----- Reading text back -----

  /** What can follow a value: nothing, or the punctuation of a list or an object. */
  predicate Stop(r: string) {
    r == "" || r[0] in {',', ']', '}'}
  }

  /** How far an escaped character reaches shows in its first two characters. */
  lemma EscapeShape(c: char)
    ensures var e := EscapedChar(c);
            && e != "" && e[0] != '\"' && (e[0] != '\\' ==> e == [c])
            && (e[0] == '\\' ==> |e| == if e[1] == 'u' then 6 else 2)
  {
  }

  lemma HexDiffers(i: nat, j: nat)
    requires i < 16 && j < 16 && HEX[i] == HEX[j]
    ensures i == j
  {
    assert forall k: nat :: k < 16 ==> HEX[k] as int == if k < 10 then '0' as int + k else 'a' as int + k - 10;
  }

  lemma EscapesDiffer(c: char, d: char)
    requires EscapedChar(c) == EscapedChar(d)
    ensures c == d
  {
    var e := EscapedChar(c);
    if |e| == 6 {
      ControlShape(c);
      ControlShape(d);
      HexDiffers(c as int / 16, d as int / 16);
      HexDiffers(c as int % 16, d as int % 16);
    }
  }

  lemma ControlShape(c: char)
    requires |EscapedChar(c)| == 6
    ensures (c as int) < 32 && EscapedChar(c)[4] == HEX[c as int / 16] && EscapedChar(c)[5] == HEX[c as int % 16]
  {
  }

  lemma SplitAt(a: string, b: string, r: string, s: string)
    requires a + r == b + s && |a| == |b|
    ensures a == b && r == s
  {
    assert a == (a + r)[..|a|] && b == (b + s)[..|b|];
    assert r == (a + r)[|a|..] && s == (b + s)[|b|..];
  }

  lemma CharRead(c: char, d: char, r: string, s: string)
    requires EscapedChar(c) + r == EscapedChar(d) + s
    ensures c == d && r == s
  {
    EscapeShape(c);
    EscapeShape(d);
    var e, f := EscapedChar(c), EscapedChar(d);
    assert e[0] == (e + r)[0] == (f + s)[0] == f[0];
    if e[0] == '\\' {
      assert e[1] == (e + r)[1] == (f + s)[1] == f[1];
    }
    SplitAt(e, f, r, s);
    EscapesDiffer(c, d);
  }

  lemma Associated(a: string, b: string, c: string)
    ensures a + b + c == a + (b + c)
  {
  }

  lemma Opened(mark: string, a: string, b: string, r: string, s: string)
    requires mark + a + r == mark + b + s
    ensures a + r == b + s
  {
    Associated(mark, a, r);
    Associated(mark, b, s);
    SplitAt(mark, mark, a + r, b + s);
  }

  lemma {:induction false} EscapedRead(a: string, b: string, r: string, s: string)
    requires Escaped(a) + r == Escaped(b) + s
    ensures a == b && r == s
  {
    ClosedAtOnce(a, r);
    ClosedAtOnce(b, s);
    if a == "" {
      SplitAt("\"", "\"", r, s);
    } else {
      Associated(EscapedChar(a[0]), Escaped(a[1..]), r);
      Associated(EscapedChar(b[0]), Escaped(b[1..]), s);
      CharRead(a[0], b[0], Escaped(a[1..]) + r, Escaped(b[1..]) + s);
      EscapedRead(a[1..], b[1..], r, s);
      assert a == [a[0]] + a[1..] && b == [b[0]] + b[1..];
    }
  }

  /** The first character tells an empty string's closing quote from text. */
  lemma ClosedAtOnce(a: string, r: string)
    ensures Escaped(a) != "" && ((Escaped(a) + r)[0] == '\"' <==> a == "")
  {
    if a != "" {
      EscapeShape(a[0]);
      assert Escaped(a)[0] == EscapedChar(a[0])[0];
    }
  }

  lemma QuotedRead(a: string, b: string, r: string, s: string)
    requires Quoted(a) + r == Quoted(b) + s
    ensures a == b && r == s
  {
    Opened("\"", Escaped(a), Escaped(b), r, s);
    EscapedRead(a, b, r, s);
  }

  lemma SignShows(negative: bool, size: nat, r: string)
    ensures Signed(negative, size) != "" && (Signed(negative, size) + r)[0] == Signed(negative, size)[0]
    ensures if negative then Signed(negative, size)[0] == '-' else IsDigit(Signed(negative, size)[0])
  {
    DecimalDigits(size);
  }

  lemma SignedRead(p: bool, m: nat, q: bool, n: nat, r: string, s: string)
    requires Signed(p, m) + r == Signed(q, n) + s && Stop(r) && Stop(s)
    ensures p == q && m == n && r == s
  {
    SignShows(p, m, r);
    SignShows(q, n, s);
    if p {
      Opened("-", Decimal(m), Decimal(n), r, s);
    }
    DecimalRead(m, n, r, s);
  }

  lemma NumeralRead(m: int, n: int, r: string, s: string)
    requires Numeral(m) + r == Numeral(n) + s && Stop(r) && Stop(s)
    ensures m == n && r == s
  {
    SignedRead(m < 0, Size(m), n < 0, Size(n), r, s);
  }

  // ----- Values -----

  /** The constructor of a value shows in the first character of its text. */
  predicate Begins(v: Value, c: char) {
    match v
    case Null => c == 'n'
    case Bool(b) => c == if b then 't' else 'f'
    case Number(_) => c == '-' || IsDigit(c)
    case Text(_) => c == '\"'
    case List(_) => c == '['
    case Object(_) => c == '{'
  }

  lemma TextBegins(v: Value, r: string)
    ensures Canonical(v) != "" && Begins(v, (Canonical(v) + r)[0]) && Begins(v, Canonical(v)[0])
  {
    if v.Number? {
      SignShows(v.n < 0, Size(v.n), r);
    }
  }

  /** Text determines the value, and where it ends. */
  lemma {:induction false} CanonicalRead(v: Value, w: Value, r: string, s: string)
    requires Canonical(v) + r == Canonical(w) + s && Stop(r) && Stop(s)
    ensures v == w && r == s
    decreases v
  {
    TextBegins(v, r);
    TextBegins(w, s);
    match v
    case Null => SplitAt("null", "null", r, s);
    case Bool(b) => SplitAt(Canonical(v), Canonical(w), r, s);
    case Number(n) => NumeralRead(n, w.n, r, s);
    case Text(t) => QuotedRead(t, w.s, r, s);
    case List(items) =>
      Opened("[", ItemsText(items, ""), ItemsText(w.items, ""), r, s);
      ItemsRead(items, w.items, "", r, s);
    case Object(members) =>
      var keys, others := SortedKeys(members.Keys), SortedKeys(w.members.Keys);
      Opened("{", MembersText(v, keys, ""), MembersText(w, others, ""), r, s);
      MembersRead(v, w, keys, others, "", r, s);
      SameMembers(members, w.members, keys);
  }

  lemma SameMembers(m: map<string, Value>, n: map<string, Value>, keys: seq<string>)
    requires (forall k :: k in keys <==> k in m) && (forall k :: k in keys <==> k in n)
    requires forall k :: k in keys ==> m[k] == n[k]
    ensures m == n
  {
    assert m.Keys == n.Keys;
  }

  predicate Separator(before: string) {
    before == "" || before == ","
  }

  lemma ItemsEnd(items: seq<Value>, before: string, r: string)
    requires Separator(before)
    ensures ItemsText(items, before) != "" && ((ItemsText(items, before) + r)[0] == ']' <==> items == [])
    ensures before == "," ==> Stop(ItemsText(items, before) + r)
  {
    if items != [] {
      TextBegins(items[0], ItemsText(items[1..], ","));
    }
  }

  lemma {:induction false} ItemsRead(a: seq<Value>, b: seq<Value>, before: string, r: string, s: string)
    requires Separator(before) && ItemsText(a, before) + r == ItemsText(b, before) + s && Stop(r) && Stop(s)
    ensures a == b && r == s
    decreases a
  {
    ItemsEnd(a, before, r);
    ItemsEnd(b, before, s);
    if a == [] {
      SplitAt("]", "]", r, s);
    } else {
      var x, y := ItemsText(a[1..], ","), ItemsText(b[1..], ",");
      Opened(before, Canonical(a[0]) + x, Canonical(b[0]) + y, r, s);
      Associated(Canonical(a[0]), x, r);
      Associated(Canonical(b[0]), y, s);
      ItemsEnd(a[1..], ",", r);
      ItemsEnd(b[1..], ",", s);
      CanonicalRead(a[0], b[0], x + r, y + s);
      ItemsRead(a[1..], b[1..], ",", r, s);
      assert a == [a[0]] + a[1..] && b == [b[0]] + b[1..];
    }
  }

  lemma MembersEnd(v: Value, keys: seq<string>, before: string, r: string)
    requires v.Object? && (forall k :: k in keys ==> k in v.members) && Separator(before)
    ensures MembersText(v, keys, before) != "" && ((MembersText(v, keys, before) + r)[0] == '}' <==> keys == [])
    ensures before == "," ==> Stop(MembersText(v, keys, before) + r)
  {
  }

  lemma {:induction false} MembersRead(v: Value, w: Value, a: seq<string>, b: seq<string>, before: string, r: string, s: string)
    requires v.Object? && w.Object? && (forall k :: k in a ==> k in v.members) && (forall k :: k in b ==> k in w.members)
    requires Separator(before) && MembersText(v, a, before) + r == MembersText(w, b, before) + s && Stop(r) && Stop(s)
    ensures a == b && r == s && forall k :: k in a ==> v.members[k] == w.members[k]
    decreases v, |a|
  {
    MembersEnd(v, a, before, r);
    MembersEnd(w, b, before, s);
    if a == [] {
      SplitAt("}", "}", r, s);
    } else {
      var x, y := MembersText(v, a[1..], ","), MembersText(w, b[1..], ",");
      var i, j := Canonical(v.members[a[0]]), Canonical(w.members[b[0]]);
      Opened(before, Quoted(a[0]) + (":" + (i + x)), Quoted(b[0]) + (":" + (j + y)), r, s);
      Associated(Quoted(a[0]), ":" + (i + x), r);
      Associated(Quoted(b[0]), ":" + (j + y), s);
      QuotedRead(a[0], b[0], ":" + (i + x) + r, ":" + (j + y) + s);
      Opened(":", i + x, j + y, r, s);
      Associated(i, x, r);
      Associated(j, y, s);
      MembersEnd(v, a[1..], ",", r);
      MembersEnd(w, b[1..], ",", s);
      CanonicalRead(v.members[a[0]], w.members[b[0]], x + r, y + s);
      MembersRead(v, w, a[1..], b[1..], ",", r, s);
      assert a == [a[0]] + a[1..] && b == [b[0]] + b[1..];
    }
  }

  /** Comparing canonical texts is comparing values: the text forgets member order and nothing else. */
  lemma CanonicalInjective(v: Value, w: Value)
    ensures Canonical(v) == Canonical(w) <==> v == w
  {
    if Canonical(v) == Canonical(w) {
      assert Canonical(v) + "" == Canonical(v) && Canonical(w) + "" == Canonical(w);
      CanonicalRead(v, w, "", "");
    }
  }
}
