/** Sorted listings of distinct items, and the orders the views sort by. */
module Listing {

  ghost predicate StrictOrder<T(!new)>(less: (T, T) -> bool) {
    && (forall a, b :: less(a, b) ==> !less(b, a))
    && (forall a, b, c :: less(a, b) && less(b, c) ==> less(a, c))
    && (forall a, b :: a != b ==> less(a, b) || less(b, a))
  }

  ghost predicate Ascending<T>(less: (T, T) -> bool, s: seq<T>) {
    forall i, j | 0 <= i < j < |s| :: less(s[i], s[j])
  }

  lemma TailMembers<T(!new)>(less: (T, T) -> bool, s: seq<T>, x: T)
    requires StrictOrder(less) && Ascending(less, s) && s != []
    ensures x in s[1..] <==> x in s && x != s[0]
  {
    if x in s[1..] {
      var i :| 0 <= i < |s[1..]| && s[1..][i] == x;
      assert less(s[0], s[i + 1]);
    }
    if x in s && x != s[0] {
      var i :| 0 <= i < |s| && s[i] == x;
      assert s[1..][i - 1] == x;
    }
  }

  lemma FirstIsMember<T>(s: seq<T>)
    ensures s == [] || s[0] in s
  {
  }

  /** There is one ascending listing of a set. */
  lemma {:induction false} AscendingIsUnique<T(!new)>(less: (T, T) -> bool, s: seq<T>, t: seq<T>)
    requires StrictOrder(less) && Ascending(less, s) && Ascending(less, t)
    requires forall x :: x in s <==> x in t
    ensures s == t
    decreases |s|
  {
    FirstIsMember(t);
    if s != [] {
      assert s[0] in t;
      assert t[0] in s;
      assert s[0] == t[0];
      forall x ensures x in s[1..] <==> x in t[1..] {
        TailMembers(less, s, x);
        TailMembers(less, t, x);
      }
      AscendingIsUnique(less, s[1..], t[1..]);
      assert s == [s[0]] + s[1..] && t == [t[0]] + t[1..];
    }
  }

  /** `sort` of distinct items. */
  method Sorted<T(!new, ==)>(less: (T, T) -> bool, xs: set<T>) returns (s: seq<T>)
    requires StrictOrder(less)
    ensures Ascending(less, s)
    ensures forall x :: x in s <==> x in xs
  {
    s := [];
    var rest := xs;
    while rest != {}
      invariant rest <= xs && Ascending(less, s)
      invariant forall x :: x in s <==> x in xs && x !in rest
    {
      var x :| x in rest;
      s := InsertSorted(less, s, x);
      rest := rest - {x};
    }
  }

  method InsertSorted<T(!new, ==)>(less: (T, T) -> bool, s: seq<T>, x: T) returns (r: seq<T>)
    requires StrictOrder(less) && Ascending(less, s) && x !in s
    ensures Ascending(less, r)
    ensures forall y :: y in r <==> y == x || y in s
  {
    var i := 0;
    while i < |s| && less(s[i], x)
      invariant 0 <= i <= |s|
      invariant forall k | 0 <= k < i :: less(s[k], x)
    {
      i := i + 1;
    }
    r := s[..i] + [x] + s[i..];
    Inserted(less, s, i, x);
    assert s == s[..i] + s[i..];
  }

  lemma Inserted<T(!new)>(less: (T, T) -> bool, s: seq<T>, i: nat, x: T)
    requires StrictOrder(less) && Ascending(less, s) && x !in s && i <= |s|
    requires forall k | 0 <= k < i :: less(s[k], x)
    requires i < |s| ==> !less(s[i], x)
    ensures Ascending(less, s[..i] + [x] + s[i..])
  {
    var r := s[..i] + [x] + s[i..];
    forall k | i <= k < |s| ensures less(x, s[k]) {
      assert s[i] in s;
      assert less(x, s[i]);
      assert k > i ==> less(s[i], s[k]);
    }
    assert forall k | 0 <= k < |r| :: r[k] == if k < i then s[k] else if k == i then x else s[k - 1];
  }

  // ---- names in UTF-16 order ----------------------------------------------------------------------

  /** A character's place in the order of UTF-16 code units. */
  function Rank(c: char): (n: int) {
    var k := c as int;
    if k < 0x1_0000 then k * 0x1_0000
    else (0xD800 + (k - 0x1_0000) / 0x400) * 0x1_0000 + 0xDC00 + (k - 0x1_0000) % 0x400
  }

  lemma RankInjective(a: char, b: char)
    requires Rank(a) == Rank(b)
    ensures a == b
  {
  }

  /** The default order of JavaScript strings. */
  predicate NameLess(a: string, b: string) {
    if b == "" then false
    else if a == "" then true
    else if Rank(a[0]) != Rank(b[0]) then Rank(a[0]) < Rank(b[0])
    else NameLess(a[1..], b[1..])
  }

  /** The UTF-16 code units of a character. */
  function Units(c: char): (us: seq<int>) {
    var k := c as int;
    if k < 0x1_0000 then [k] else [0xD800 + (k - 0x1_0000) / 0x400, 0xDC00 + (k - 0x1_0000) % 0x400]
  }

  /** Characters are ranked by their first code unit, then their second. */
  lemma RankIsByUnits(a: char, b: char)
    ensures Rank(a) < Rank(b) <==>
      var us, vs := Units(a), Units(b);
      us[0] < vs[0] || (us[0] == vs[0] && |us| == |vs| == 2 && us[1] < vs[1])
  {
  }

  /** One name is before another exactly when it is a proper prefix of it, or has the lower-ranked
      character where they first differ. */
  lemma {:induction false} NameLessExactly(a: string, b: string)
    ensures NameLess(a, b) <==> a < b || exists k :: FirstLower(a, b, k)
  {
    if a != "" && b != "" && Rank(a[0]) == Rank(b[0]) {
      RankInjective(a[0], b[0]);
      NameLessExactly(a[1..], b[1..]);
      assert a == [a[0]] + a[1..] && b == [b[0]] + b[1..];
      SharedHead(a, b);
    } else if a != "" && b != "" {
      assert FirstLower(a, b, 0) <==> Rank(a[0]) < Rank(b[0]);
      forall k | FirstLower(a, b, k) ensures k == 0 {}
    }
  }

  /** The names agree before place `k`, where the first has the lower-ranked character. */
  ghost predicate FirstLower(a: string, b: string, k: int) {
    0 <= k < |a| && k < |b| && a[..k] == b[..k] && Rank(a[k]) < Rank(b[k])
  }

  lemma SharedHead(a: string, b: string)
    requires a != "" && b != "" && a[0] == b[0]
    ensures (exists k :: FirstLower(a, b, k)) <==> (exists k :: FirstLower(a[1..], b[1..], k))
  {
    if k :| FirstLower(a, b, k) {
      assert a[1..][..k - 1] == a[..k][1..] && b[1..][..k - 1] == b[..k][1..];
      assert FirstLower(a[1..], b[1..], k - 1);
    }
    if k :| FirstLower(a[1..], b[1..], k) {
      assert a[..k + 1] == [a[0]] + a[1..][..k] && b[..k + 1] == [b[0]] + b[1..][..k];
      assert FirstLower(a, b, k + 1);
    }
  }

  lemma {:induction false} NameAsymmetric(a: string, b: string)
    requires NameLess(a, b)
    ensures !NameLess(b, a)
  {
    if a != "" && Rank(a[0]) == Rank(b[0]) {
      NameAsymmetric(a[1..], b[1..]);
    }
  }

  lemma {:induction false} NameTransitive(a: string, b: string, c: string)
    requires NameLess(a, b) && NameLess(b, c)
    ensures NameLess(a, c)
  {
    if a != "" && Rank(a[0]) == Rank(b[0]) == Rank(c[0]) {
      NameTransitive(a[1..], b[1..], c[1..]);
    }
  }

  lemma {:induction false} NameTotal(a: string, b: string)
    ensures a == b || NameLess(a, b) || NameLess(b, a)
  {
    if a != "" && b != "" && Rank(a[0]) == Rank(b[0]) {
      NameTotal(a[1..], b[1..]);
      RankInjective(a[0], b[0]);
      assert a == [a[0]] + a[1..] && b == [b[0]] + b[1..];
    }
  }

  lemma NamesAreOrdered()
    ensures StrictOrder(NameLess)
  {
    forall a, b | NameLess(a, b) ensures !NameLess(b, a) { NameAsymmetric(a, b); }
    forall a, b, c | NameLess(a, b) && NameLess(b, c) ensures NameLess(a, c) { NameTransitive(a, b, c); }
    forall a, b | a != b ensures NameLess(a, b) || NameLess(b, a) { NameTotal(a, b); }
  }

  /** Newest day first. */
  predicate Later(a: nat, b: nat) { a > b }
}
