/** The marker sizes of `normalise_events_values` and the value range of
    `get_radius_for_category` it is computed from. */
module Normalisation {
  import opened Common

  /** The value sizes land between these two bounds; null values and values
      of a category without a range get the fixed size in between. */
  const Low: real := 20.0
  const Span: real := 400.0
  const NullSize: real := 250.0

  /** The non-null entries of a value list, in order (lines 190-193): each
      value is kept as many times as it occurs, and only the nulls are
      dropped. */
  function NonNull(vs: seq<Option<real>>): (r: seq<real>)
    ensures |r| + multiset(vs)[None] == |vs|
    ensures forall x :: x in r <==> Some(x) in vs
  {
    if vs == [] then []
    else
      var init := NonNull(vs[..|vs| - 1]);
      assert vs == vs[..|vs| - 1] + [vs[|vs| - 1]];
      assert forall o :: o in vs <==> o in vs[..|vs| - 1] || o == vs[|vs| - 1];
      match vs[|vs| - 1]
      case None => init
      case Some(x) => init + [x]
  }

  ghost predicate Sorted(s: seq<real>) {
    forall a, b :: 0 <= a < b < |s| ==> s[a] <= s[b]
  }

  function MinOf(s: seq<real>): (m: real)
    requires s != []
    ensures m in s && forall x :: x in s ==> m <= x
  {
    if |s| == 1 then s[0]
    else
      var m := MinOf(s[..|s| - 1]);
      assert forall x :: x in s ==> x in s[..|s| - 1] || x == s[|s| - 1];
      if s[|s| - 1] < m then s[|s| - 1] else m
  }

  function MaxOf(s: seq<real>): (m: real)
    requires s != []
    ensures m in s && forall x :: x in s ==> x <= m
  {
    if |s| == 1 then s[0]
    else
      var m := MaxOf(s[..|s| - 1]);
      assert forall x :: x in s ==> x in s[..|s| - 1] || x == s[|s| - 1];
      if s[|s| - 1] > m then s[|s| - 1] else m
  }

  /** What `get_radius_for_category` returns: the smallest and the largest
      non-null value, or None when fewer than two values are non-null. */
  function Radius(vs: seq<Option<real>>): (r: Option<(real, real)>)
    ensures r.None? <==> |NonNull(vs)| < 2
    ensures r.Some? ==> Some(r.value.0) in vs && Some(r.value.1) in vs
    ensures r.Some? ==> r.value.0 <= r.value.1
  {
    var nn := NonNull(vs);
    if |nn| > 1 then Some((MinOf(nn), MaxOf(nn))) else None
  }

  /** Every non-null value lies within the range. */
  lemma RadiusBounds(vs: seq<Option<real>>)
    requires Radius(vs).Some?
    ensures forall x :: Some(x) in vs ==> Radius(vs).value.0 <= x <= Radius(vs).value.1
  {
    var nn := NonNull(vs);
    assert forall x :: Some(x) in vs ==> x in nn;
  }

  /** The non-null values of a prefix of the list come first, in order. */
  lemma {:induction false} NonNullPrefix(vs: seq<Option<real>>, k: nat)
    requires k <= |vs|
    ensures NonNull(vs[..k]) <= NonNull(vs)
    decreases |vs|
  {
    if k < |vs| {
      var init := vs[..|vs| - 1];
      assert vs[..k] == init[..k];
      NonNullPrefix(init, k);
    } else {
      assert vs[..k] == vs;
    }
  }

  /** Each value is kept as many times as it occurs in the list. */
  lemma {:induction false} NonNullCounts(vs: seq<Option<real>>, x: real)
    ensures multiset(NonNull(vs))[x] == multiset(vs)[Some(x)]
    decreases |vs|
  {
    if vs != [] {
      var init, last := vs[..|vs| - 1], vs[|vs| - 1];
      assert vs == init + [last];
      assert multiset(vs) == multiset(init) + multiset{last};
      NonNullCounts(init, x);
      if last.Some? {
        assert NonNull(vs) == NonNull(init) + [last.value];
        assert multiset(NonNull(vs)) == multiset(NonNull(init)) + multiset{last.value};
      } else {
        assert NonNull(vs) == NonNull(init);
      }
    }
  }

  /** A non-null entry at position k is the next value after those of the
      entries before it. */
  lemma NonNullAt(vs: seq<Option<real>>, k: nat)
    requires k < |vs| && vs[k].Some?
    ensures |NonNull(vs[..k])| < |NonNull(vs)| && NonNull(vs)[|NonNull(vs[..k])|] == vs[k].value
  {
    var pre := vs[..k + 1];
    assert pre[..|pre| - 1] == vs[..k];
    assert pre[|pre| - 1] == vs[k];
    assert NonNull(pre) == NonNull(vs[..k]) + [vs[k].value];
    NonNullPrefix(vs, k + 1);
  }

  /** Python's `int()` on a float: truncation toward zero. */
  function Trunc(r: real): (t: int)
    ensures r >= 0.0 ==> t == r.Floor
    ensures r < 0.0 ==> r <= t as real < r + 1.0
  {
    if r >= 0.0 then r.Floor else -((-r).Floor)
  }

  /** The size of a non-null value over a range of non-zero width: the
      truncated distance to the bottom, scaled to 400, plus 20. */
  function Size(v: real, mini: real, max: real): real
    requires max - mini != 0.0
  {
    Span * Trunc(v - mini) as real / (max - mini) + Low
  }

  /** The size of one entry given the category's range (lines 269-275). */
  function NormaliseEntry(v: Option<real>, range: Option<(real, real)>): (r: Result<real>)
    ensures r.Failure? <==> v.Some? && range.Some? && range.value.0 == range.value.1
    ensures r.Failure? ==> r.error == ZeroDivision
    ensures v.None? || range.None? ==> r == Success(NullSize)
  {
    if v.Some? && range.Some? then
      var (mini, max) := range.value;
      if max - mini == 0.0 then Failure(ZeroDivision)
      else Success(Size(v.value, mini, max))
    else Success(NullSize)
  }

  /** The sizes of the first entries of a list, or the error of the first
      entry that divides by zero. */
  function NormaliseAll(vs: seq<Option<real>>, range: Option<(real, real)>): (r: Result<seq<real>>)
    ensures r.Success? ==> |r.value| == |vs|
    ensures r.Success? ==> forall k :: 0 <= k < |vs| ==> NormaliseEntry(vs[k], range) == Success(r.value[k])
    ensures r.Failure? <==> exists k :: 0 <= k < |vs| && NormaliseEntry(vs[k], range).Failure?
    ensures r.Failure? ==> r.error == ZeroDivision
  {
    if vs == [] then Success([])
    else
      var init := NormaliseAll(vs[..|vs| - 1], range);
      var last := NormaliseEntry(vs[|vs| - 1], range);
      if init.Failure? then
        var k :| 0 <= k < |vs| - 1 && NormaliseEntry(vs[..|vs| - 1][k], range).Failure?;
        assert vs[..|vs| - 1][k] == vs[k];
        init
      else if last.Failure? then Failure(last.error)
      else
        assert forall k :: 0 <= k < |vs| - 1 ==> vs[..|vs| - 1][k] == vs[k];
        Success(init.value + [last.value])
  }

  /** What `normalise_events_values` returns for a value list. */
  function Normalised(vs: seq<Option<real>>): (r: Result<seq<real>>)
    ensures r.Success? ==> |r.value| == |vs|
  {
    NormaliseAll(vs, Radius(vs))
  }

  /** A null value gets the fixed size (line 275). */
  lemma NormalisedNulls(vs: seq<Option<real>>)
    requires Normalised(vs).Success?
    ensures forall k :: 0 <= k < |vs| && vs[k].None? ==> Normalised(vs).value[k] == NullSize
  {
    var range := Radius(vs);
    var r := NormaliseAll(vs, range).value;
    forall k | 0 <= k < |vs| && vs[k].None?
      ensures r[k] == NullSize
    {
      assert NormaliseEntry(vs[k], range) == Success(r[k]);
    }
  }

  /** `list.sort()` on the collected values: an insertion sort in place. */
  method SortInPlace(a: array<real>)
    modifies a
    ensures Sorted(a[..])
    ensures multiset(a[..]) == multiset(old(a[..]))
  {
    var i := 1;
    while i < a.Length
      invariant a.Length == 0 || 1 <= i <= a.Length
      invariant forall p, q :: 0 <= p < q < i && q < a.Length ==> a[p] <= a[q]
      invariant multiset(a[..]) == multiset(old(a[..]))
    {
      var j := i;
      while j > 0 && a[j - 1] > a[j]
        invariant 0 <= j <= i
        invariant forall p, q :: 0 <= p < q <= i && q != j ==> a[p] <= a[q]
        invariant multiset(a[..]) == multiset(old(a[..]))
      {
        a[j - 1], a[j] := a[j], a[j - 1];
        j := j - 1;
      }
      i := i + 1;
    }
  }

  /** The first entry of a sorted list is its minimum and the last its maximum. */
  lemma SortedEnds(sorted: seq<real>, s: seq<real>)
    requires Sorted(sorted) && multiset(sorted) == multiset(s) && |s| > 1
    ensures sorted[0] == MinOf(s) && sorted[|sorted| - 1] == MaxOf(s)
  {
    assert |sorted| == |s| by {
      assert |multiset(sorted)| == |multiset(s)|;
    }
    var first, last := sorted[0], sorted[|sorted| - 1];
    assert first in multiset(sorted) && last in multiset(sorted);
    assert first in s && last in s;
    var lo, hi := MinOf(s), MaxOf(s);
    assert lo in multiset(s) && hi in multiset(s);
    assert lo in sorted && hi in sorted;
    var p :| 0 <= p < |sorted| && sorted[p] == lo;
    var q :| 0 <= q < |sorted| && sorted[q] == hi;
    assert first <= sorted[p] && sorted[q] <= last;
  }

  /** `get_radius_for_category` (lines 184-199): collect the non-null values,
      sort them, and return the first and the last when there are at least
      two. */
  method GetRadiusForCategory(valueList: seq<Option<real>>) returns (r: Option<(real, real)>)
    ensures r == Radius(valueList)
  {
    var values: seq<real> := [];
    var k := 0;
    while k < |valueList|
      invariant 0 <= k <= |valueList|
      invariant values == NonNull(valueList[..k])
    {
      assert valueList[..k + 1][..k] == valueList[..k];
      if valueList[k].Some? {
        values := values + [valueList[k].value];
      }
      k := k + 1;
    }
    assert valueList[..k] == valueList;
    var sorted := new real[|values|](m requires 0 <= m < |values| => values[m]);
    assert sorted[..] == values;
    SortInPlace(sorted);
    if sorted.Length > 1 {
      SortedEnds(sorted[..], values);
      var max := sorted[sorted.Length - 1];
      var mini := sorted[0];
      return Some((mini, max));
    }
    return None;
  }

  /** One more entry of the list: its size is appended, or its error ends
      the normalisation. */
  lemma NormaliseAllStep(vs: seq<Option<real>>, k: nat, range: Option<(real, real)>)
    requires k < |vs| && NormaliseAll(vs[..k], range).Success?
    ensures var e := NormaliseEntry(vs[k], range);
            NormaliseAll(vs[..k + 1], range)
            == if e.Failure? then Failure(e.error) else Success(NormaliseAll(vs[..k], range).value + [e.value])
  {
    assert vs[..k + 1][..k] == vs[..k];
  }

  /** An entry that divides by zero makes the whole list fail. */
  lemma NormaliseAllFailsAt(vs: seq<Option<real>>, k: nat, range: Option<(real, real)>)
    requires k < |vs| && NormaliseEntry(vs[k], range).Failure?
    ensures NormaliseAll(vs, range) == Failure(ZeroDivision)
  {
  }

  /** `normalise_events_values` (lines 258-276). The ZeroDivisionError of a
      category whose non-null values are all equal becomes a Failure. */
  method NormaliseEventsValues(valueList: seq<Option<real>>) returns (r: Result<seq<real>>)
    ensures r == Normalised(valueList)
  {
    var normalisedValues: seq<real> := [];
    var miniMax := GetRadiusForCategory(valueList);
    var k := 0;
    while k < |valueList|
      invariant 0 <= k <= |valueList|
      invariant NormaliseAll(valueList[..k], miniMax) == Success(normalisedValues)
    {
      NormaliseAllStep(valueList, k, miniMax);
      var value := valueList[k];
      if value.Some? && miniMax.Some? {
        if miniMax.value.1 - miniMax.value.0 == 0.0 {
          NormaliseAllFailsAt(valueList, k, miniMax);
          return Failure(ZeroDivision);
        }
        var normalisedValue := Size(value.value, miniMax.value.0, miniMax.value.1);
        normalisedValues := normalisedValues + [normalisedValue];
      } else {
        normalisedValues := normalisedValues + [NullSize];
      }
      k := k + 1;
    }
    assert valueList[..k] == valueList;
    return Success(normalisedValues);
  }

  /** Without a range every entry, null or not, gets the fixed size. */
  lemma NormalisedWithoutRange(vs: seq<Option<real>>)
    requires |NonNull(vs)| < 2
    ensures Normalised(vs) == Success(seq(|vs|, _ => NullSize))
  {
    var r := NormaliseAll(vs, None);
    assert r.Success?;
    assert r.value == seq(|vs|, _ => NullSize);
  }

  /** `normalise_events_values` raises ZeroDivisionError exactly when the
      list holds at least two non-null values and they are all equal. */
  lemma NormalisedFails(vs: seq<Option<real>>)
    ensures Normalised(vs).Failure? <==>
              |NonNull(vs)| >= 2 && forall x, y :: Some(x) in vs && Some(y) in vs ==> x == y
  {
    var range := Radius(vs);
    if Normalised(vs).Failure? {
      var k :| 0 <= k < |vs| && NormaliseEntry(vs[k], range).Failure?;
    }
    if |NonNull(vs)| >= 2 && forall x, y :: Some(x) in vs && Some(y) in vs ==> x == y {
      var (lo, hi) := range.value;
      var k :| 0 <= k < |vs| && vs[k] == Some(lo);
      assert NormaliseEntry(vs[k], range).Failure?;
    }
  }

  lemma ScaledBounds(t: real, w: real)
    requires 0.0 <= t <= w && 0.0 < w
    ensures 0.0 <= Span * t / w <= Span
  {
    assert Span * t / w * w == Span * t;
    assert Span * t <= Span * w;
  }

  lemma ScaledWhole(w: real)
    requires 0.0 < w
    ensures Span * w / w == Span
  {
  }

  /** One value inside a proper range gets a size between 20 and 420; the
      bottom of the range gets 20, and the top gets 420 when the width of the
      range is a whole number. */
  lemma EntryBounds(v: real, lo: real, hi: real)
    requires lo <= v <= hi && lo < hi
    ensures var r := NormaliseEntry(Some(v), Some((lo, hi)));
            r.Success? && Low <= r.value <= Low + Span
    ensures v == lo ==> NormaliseEntry(Some(v), Some((lo, hi))) == Success(Low)
    ensures v == hi && (hi - lo).Floor as real == hi - lo ==>
              NormaliseEntry(Some(v), Some((lo, hi))) == Success(Low + Span)
  {
    var d := v - lo;
    ScaledBounds(Trunc(d) as real, hi - lo);
    if v == hi && (hi - lo).Floor as real == hi - lo {
      assert Trunc(d) as real == hi - lo;
      ScaledWhole(hi - lo);
    }
  }

  /** Every size is between 20 and 420 (test_natural_events_tracker.py:98). */
  lemma NormalisedBounds(vs: seq<Option<real>>)
    requires Normalised(vs).Success?
    ensures forall k :: 0 <= k < |vs| ==> Low <= Normalised(vs).value[k] <= Low + Span
  {
    var range := Radius(vs);
    var r := NormaliseAll(vs, range).value;
    forall k | 0 <= k < |vs|
      ensures Low <= r[k] <= Low + Span
    {
      assert NormaliseEntry(vs[k], range) == Success(r[k]);
      if vs[k].Some? && range.Some? {
        EntryBounds(vs[k].value, range.value.0, range.value.1);
      }
    }
  }

  /** The smallest value gets the smallest size. */
  lemma NormalisedMin(vs: seq<Option<real>>, k: nat)
    requires Normalised(vs).Success? && Radius(vs).Some?
    requires k < |vs| && vs[k] == Some(Radius(vs).value.0)
    ensures Normalised(vs).value[k] == Low
  {
    var range := Radius(vs);
    var r := NormaliseAll(vs, range).value;
    assert NormaliseEntry(vs[k], range) == Success(r[k]);
    EntryBounds(vs[k].value, range.value.0, range.value.1);
  }

  /** The largest value gets the largest size when the width of the range is
      a whole number. */
  lemma NormalisedMaxWholeWidth(vs: seq<Option<real>>, k: nat)
    requires Normalised(vs).Success? && Radius(vs).Some?
    requires k < |vs| && vs[k] == Some(Radius(vs).value.1)
    requires (Radius(vs).value.1 - Radius(vs).value.0).Floor as real == Radius(vs).value.1 - Radius(vs).value.0
    ensures Normalised(vs).value[k] == Low + Span
  {
    var range := Radius(vs);
    var r := NormaliseAll(vs, range).value;
    assert NormaliseEntry(vs[k], range) == Success(r[k]);
    EntryBounds(vs[k].value, range.value.0, range.value.1);
  }

  lemma ExampleRadius(vs: seq<Option<real>>)
    requires vs == [Some(1.0), Some(2.0), Some(3.0), None, Some(5.0)]
    ensures Radius(vs) == Some((1.0, 5.0))
  {
    var nn := NonNull(vs);
    assert vs[0] == Some(1.0) && vs[4] == Some(5.0);
    assert 1.0 in nn && 5.0 in nn;
    assert |nn| > 1 by {
      var p :| 0 <= p < |nn| && nn[p] == 1.0;
      var q :| 0 <= q < |nn| && nn[q] == 5.0;
      assert p != q;
    }
    var lo, hi := MinOf(nn), MaxOf(nn);
    assert Some(lo) in vs && Some(hi) in vs;
    assert lo <= 1.0 && 5.0 <= hi;
    assert lo == 1.0 by {
      var p :| 0 <= p < |vs| && vs[p] == Some(lo);
    }
    assert hi == 5.0 by {
      var q :| 0 <= q < |vs| && vs[q] == Some(hi);
    }
  }

  lemma ExampleSizes(vs: seq<Option<real>>, range: Option<(real, real)>)
    requires vs == [Some(1.0), Some(2.0), Some(3.0), None, Some(5.0)] && range == Some((1.0, 5.0))
    ensures NormaliseAll(vs, range) == Success([20.0, 120.0, 220.0, 250.0, 420.0])
  {
    var r := NormaliseAll(vs, range);
    assert NormaliseEntry(vs[0], range) == Success(20.0);
    assert NormaliseEntry(vs[1], range) == Success(120.0);
    assert NormaliseEntry(vs[2], range) == Success(220.0);
    assert NormaliseEntry(vs[3], range) == Success(250.0);
    assert NormaliseEntry(vs[4], range) == Success(420.0);
    assert r.Success?;
    assert r.value[0] == 20.0 && r.value[1] == 120.0 && r.value[2] == 220.0;
    assert r.value[3] == 250.0 && r.value[4] == 420.0;
    assert r.value == [20.0, 120.0, 220.0, 250.0, 420.0];
  }

  /** The value list of test_natural_events_tracker.py:95: the range is
      (1, 5), so each step of 1 adds 100 to the size. */
  lemma NormalisedExample()
    ensures Normalised([Some(1.0), Some(2.0), Some(3.0), None, Some(5.0)])
         == Success([20.0, 120.0, 220.0, 250.0, 420.0])
  {
    var vs := [Some(1.0), Some(2.0), Some(3.0), None, Some(5.0)];
    ExampleRadius(vs);
    ExampleSizes(vs, Radius(vs));
  }

  /** The largest value does not always get 420: over (0, 0.5) the top value
      is truncated to 0 before scaling and gets 20, like the bottom one. */
  lemma NormalisedTopTruncated()
    ensures Normalised([Some(0.0), Some(0.5)]) == Success([20.0, 20.0])
  {
    var vs := [Some(0.0), Some(0.5)];
    assert vs[..1] == [Some(0.0)];
    assert NonNull(vs) == [0.0, 0.5];
    var range := Radius(vs);
    assert range == Some((0.0, 0.5));
    assert NormaliseEntry(vs[0], range) == Success(20.0);
    assert Trunc(0.5) == 0;
    assert NormaliseEntry(vs[1], range) == Success(20.0);
    var r := NormaliseAll(vs, range);
    assert r.Success?;
    assert r.value[0] == 20.0 && r.value[1] == 20.0;
    assert r.value == [20.0, 20.0];
  }
}
