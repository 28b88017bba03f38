/** The store's policy versions: three dotted numbers. */
module Semver {
  import opened Bytes
  import Decimal

  datatype Version = Version(major: nat, minor: nat, patch: nat)

  predicate IsNumber(s: string) {
    s != "" && Decimal.AllDigits(s)
  }

  /** `s` is three dotted numbers. */
  predicate IsSemver(s: string, a: string, b: string, c: string) {
    s == a + ("." + (b + ("." + c))) && IsNumber(a) && IsNumber(b) && IsNumber(c)
  }

  /** The length of the longest digit prefix. */
  function Digits(s: string): (n: nat)
    ensures n <= |s| && Decimal.AllDigits(s[..n]) && (n < |s| ==> !Decimal.IsDigit(s[n]))
  {
    if s == "" || !Decimal.IsDigit(s[0]) then 0 else 1 + Digits(s[1..])
  }

  /** A number and a dot, and what follows them. */
  function NumberDot(s: string): (r: Option<(string, string)>)
    ensures r.Some? ==> IsNumber(r.value.0) && s == r.value.0 + ("." + r.value.1)
  {
    var n := Digits(s);
    if 0 < n < |s| && s[n] == '.' then Some((s[..n], s[n + 1..])) else None
  }

  function Parse(s: string): (r: Option<Version>)
  {
    match NumberDot(s)
    case None => None
    case Some((a, s')) =>
      match NumberDot(s')
      case None => None
      case Some((b, c)) =>
        if IsNumber(c) then Some(Version(Decimal.Value(a), Decimal.Value(b), Decimal.Value(c))) else None
  }

  lemma {:induction false} DigitsStop(a: string, s: string)
    requires Decimal.AllDigits(a) && s != "" && !Decimal.IsDigit(s[0])
    ensures Digits(a + s) == |a|
  {
    if a == "" {
      assert a + s == s;
    } else {
      assert (a + s)[0] == a[0] && (a + s)[1..] == a[1..] + s;
      DigitsStop(a[1..], s);
    }
  }

  lemma NumberDotReads(a: string, rest: string)
    requires IsNumber(a)
    ensures NumberDot(a + ("." + rest)) == Some((a, rest))
  {
    var s := a + ("." + rest);
    DigitsStop(a, "." + rest);
    assert s[..|a|] == a && s[|a| + 1..] == rest;
  }

  lemma SemverReads(s: string, a: string, b: string, c: string)
    requires IsSemver(s, a, b, c)
    ensures Parse(s) == Some(Version(Decimal.Value(a), Decimal.Value(b), Decimal.Value(c)))
  {
    NumberDotReads(a, b + ("." + c));
    NumberDotReads(b, c);
  }

  lemma SemverParts(s: string) returns (a: string, b: string, c: string)
    requires Parse(s).Some?
    ensures IsSemver(s, a, b, c)
    ensures Parse(s).value == Version(Decimal.Value(a), Decimal.Value(b), Decimal.Value(c))
  {
    a := NumberDot(s).value.0;
    var s' := NumberDot(s).value.1;
    b, c := NumberDot(s').value.0, NumberDot(s').value.1;
  }

  /** A version parses exactly when it is three dotted numbers. */
  lemma ParseExact(s: string)
    ensures Parse(s).Some? <==> exists a, b, c :: IsSemver(s, a, b, c)
  {
    if Parse(s).Some? {
      var a, b, c := SemverParts(s);
    } else {
      forall a, b, c ensures !IsSemver(s, a, b, c) {
        if IsSemver(s, a, b, c) {
          SemverReads(s, a, b, c);
        }
      }
    }
  }

  function Print(v: Version): (s: string) {
    Decimal.Print(v.major) + ("." + (Decimal.Print(v.minor) + ("." + Decimal.Print(v.patch))))
  }

  /** A printed version parses to itself. */
  lemma PrintParse(v: Version)
    ensures Parse(Print(v)) == Some(v)
  {
    Decimal.PrintValue(v.major);
    Decimal.PrintValue(v.minor);
    Decimal.PrintValue(v.patch);
    SemverReads(Print(v), Decimal.Print(v.major), Decimal.Print(v.minor), Decimal.Print(v.patch));
  }
}
