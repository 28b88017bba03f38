/** Lists: mapping, flattening, and gathering results that must all be present. */
module Lists {
  import opened Bytes

  function Map<T, U>(f: T -> U, xs: seq<T>): (r: seq<U>)
    ensures |r| == |xs| && forall i | 0 <= i < |xs| :: r[i] == f(xs[i])
  {
    seq(|xs|, i requires 0 <= i < |xs| => f(xs[i]))
  }

  lemma MapConcat<T, U>(f: T -> U, xs: seq<T>, ys: seq<T>)
    ensures Map(f, xs + ys) == Map(f, xs) + Map(f, ys)
  {
  }

  lemma MapPrefix<T, U>(f: T -> U, xs: seq<T>, i: nat)
    requires i < |xs|
    ensures Map(f, xs[..i + 1]) == Map(f, xs[..i]) + [f(xs[i])]
  {
  }

  /** All the values, or nothing when one is missing. */
  function All<T>(os: seq<Option<T>>): (r: Option<seq<T>>)
    ensures r.Some? <==> forall i | 0 <= i < |os| :: os[i].Some?
    ensures r.Some? ==> |r.value| == |os| && forall i | 0 <= i < |os| :: os[i] == Some(r.value[i])
  {
    if os == [] then Some([])
    else
      match All(os[..|os| - 1])
      case None => None
      case Some(xs) => if os[|os| - 1].Some? then Some(xs + [os[|os| - 1].value]) else None
  }

  lemma AllConcat<T>(a: seq<Option<T>>, b: seq<Option<T>>)
    ensures All(a + b) == if All(a).Some? && All(b).Some? then Some(All(a).value + All(b).value) else None
  {
    if All(a).Some? && All(b).Some? {
      AllPresent(a + b, All(a).value + All(b).value);
    } else {
      SomeMissing(a, b);
    }
  }

  lemma SomeMissing<T>(a: seq<Option<T>>, b: seq<Option<T>>)
    requires All(a).None? || All(b).None?
    ensures All(a + b).None?
  {
    if All(a).None? {
      var i :| 0 <= i < |a| && a[i].None?;
      assert (a + b)[i] == a[i];
    } else {
      var i :| 0 <= i < |b| && b[i].None?;
      assert (a + b)[|a| + i] == b[i];
    }
  }

  lemma AllPresent<T>(os: seq<Option<T>>, xs: seq<T>)
    requires |os| == |xs| && forall i | 0 <= i < |os| :: os[i] == Some(xs[i])
    ensures All(os) == Some(xs)
  {
    assert All(os).Some?;
    assert All(os).value == xs;
  }

  lemma AllMapped<T, U>(f: T -> Option<U>, xs: seq<T>, ys: seq<U>)
    requires |xs| == |ys| && forall i | 0 <= i < |xs| :: f(xs[i]) == Some(ys[i])
    ensures All(Map(f, xs)) == Some(ys)
  {
    AllPresent(Map(f, xs), ys);
  }

  function Flatten<T>(ss: seq<seq<T>>): (r: seq<T>) {
    if ss == [] then [] else Flatten(ss[..|ss| - 1]) + ss[|ss| - 1]
  }

  lemma FlattenSnoc<T>(ss: seq<seq<T>>, s: seq<T>)
    ensures Flatten(ss + [s]) == Flatten(ss) + s
  {
    assert (ss + [s])[..|ss|] == ss;
  }

  lemma {:induction false} FlattenConcat<T>(a: seq<seq<T>>, b: seq<seq<T>>)
    ensures Flatten(a + b) == Flatten(a) + Flatten(b)
    decreases |b|
  {
    if b == [] {
      assert a + b == a && Flatten(a) + [] == Flatten(a);
    } else {
      var init, s := b[..|b| - 1], b[|b| - 1];
      assert b == init + [s] && a + b == (a + init) + [s];
      FlattenConcat(a, init);
      FlattenSnoc(a + init, s);
      FlattenSnoc(init, s);
      Concat3(Flatten(a), Flatten(init), s);
    }
  }

  /** Where list `k` begins in the flattened list. */
  function Offset<T>(ss: seq<seq<T>>, k: nat): (n: nat)
    requires k <= |ss|
  {
    if k == 0 then 0 else Offset(ss, k - 1) + |ss[k - 1]|
  }

  lemma {:induction false} OffsetPrefix<T>(ss: seq<seq<T>>, i: nat, k: nat)
    requires k <= i <= |ss|
    ensures Offset(ss[..i], k) == Offset(ss, k)
    decreases k
  {
    if k > 0 {
      OffsetPrefix(ss, i, k - 1);
    }
  }

  lemma {:induction false} OffsetsAscend<T>(ss: seq<seq<T>>, i: nat, k: nat)
    requires i <= k <= |ss|
    ensures Offset(ss, i) <= Offset(ss, k)
    decreases k
  {
    if i < k {
      OffsetsAscend(ss, i, k - 1);
    }
  }

  lemma {:induction false} FlattenLength<T>(ss: seq<seq<T>>)
    ensures |Flatten(ss)| == Offset(ss, |ss|)
    decreases |ss|
  {
    if ss != [] {
      FlattenLength(ss[..|ss| - 1]);
      OffsetPrefix(ss, |ss| - 1, |ss| - 1);
    }
  }

  /** Item `j` of list `i` is item `Offset(i) + j` of the flattened list. */
  lemma {:induction false} FlattenAt<T>(ss: seq<seq<T>>, i: nat, j: nat)
    requires i < |ss| && j < |ss[i]|
    ensures Offset(ss, i) + j < |Flatten(ss)| && Flatten(ss)[Offset(ss, i) + j] == ss[i][j]
    decreases |ss|
  {
    var n := |ss| - 1;
    FlattenLength(ss[..n]);
    OffsetPrefix(ss, n, n);
    if i < n {
      OffsetPrefix(ss, n, i);
      FlattenAt(ss[..n], i, j);
    }
  }

  /** Flattening keeps the order of all places, so no two become one. */
  lemma FlattenOnce<T>(ss: seq<seq<T>>, i: nat, j: nat, i': nat, j': nat)
    requires i < |ss| && j < |ss[i]| && i' < |ss| && j' < |ss[i']|
    ensures Offset(ss, i) + j < Offset(ss, i') + j' <==> i < i' || (i == i' && j < j')
  {
    if i < i' {
      OffsetsAscend(ss, i + 1, i');
    } else if i' < i {
      OffsetsAscend(ss, i' + 1, i);
    }
  }

  /** Every place of the flattened list comes from some list. */
  lemma {:induction false} FlattenOrigin<T>(ss: seq<seq<T>>, k: nat) returns (i: nat, j: nat)
    requires k < |Flatten(ss)|
    ensures i < |ss| && j < |ss[i]| && k == Offset(ss, i) + j
    decreases |ss|
  {
    var n := |ss| - 1;
    FlattenLength(ss[..n]);
    OffsetPrefix(ss, n, n);
    if k >= Offset(ss, n) {
      i, j := n, k - Offset(ss, n);
    } else {
      i, j := FlattenOrigin(ss[..n], k);
      OffsetPrefix(ss, n, i);
    }
  }
}
