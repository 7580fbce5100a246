/** The proximity merge of `EventTracker.intensity`: a single greedy pass
    that replaces every subject point that has close neighbours by one point
    at the mean position carrying the summed value, followed by every point
    that was never marked as used. */
module Intensity {
  import opened Common

  /** Points closer than this many coordinate units are merged. */
  const MergeDistance: real := 60.0

  /** `calc_dist` without the square root: the squared Euclidean distance.
      For a non-negative distance d, d < 60 exactly when d * d < 3600. */
  function CalcDist(x: real, y: real, xNeib: real, yNeib: real): (d: real)
    ensures d >= 0.0
  {
    (x - xNeib) * (x - xNeib) + (y - yNeib) * (y - yNeib)
  }

  /** The test of line 232: point j is within merge distance of point i. */
  predicate Near(xs: seq<real>, ys: seq<real>, i: nat, j: nat)
    requires |xs| == |ys| && i < |xs| && j < |xs|
  {
    CalcDist(xs[i], ys[i], xs[j], ys[j]) < MergeDistance * MergeDistance
  }

  /** Indices below k, other than i, within merge distance of i, in order.
      The inner loop never consults `used`, so already used points count. */
  function NeighboursUpTo(xs: seq<real>, ys: seq<real>, i: nat, k: nat): (nb: seq<nat>)
    requires |xs| == |ys| && i < |xs| && k <= |xs|
    ensures Increasing(nb)
    ensures forall m :: 0 <= m < |nb| ==> nb[m] < k && nb[m] != i && Near(xs, ys, i, nb[m])
  {
    if k == 0 then []
    else
      var nb := NeighboursUpTo(xs, ys, i, k - 1);
      if k - 1 != i && Near(xs, ys, i, k - 1) then nb + [k - 1] else nb
  }

  function Neighbours(xs: seq<real>, ys: seq<real>, i: nat): seq<nat>
    requires |xs| == |ys| && i < |xs|
  {
    NeighboursUpTo(xs, ys, i, |xs|)
  }

  /** The entries of s at the given indices, in the order of the indices. */
  function Select(s: seq<real>, idx: seq<nat>): (r: seq<real>)
    requires forall m :: 0 <= m < |idx| ==> idx[m] < |s|
    ensures |r| == |idx|
    ensures forall m {:trigger r[m]} :: 0 <= m < |idx| ==> r[m] == s[idx[m]]
  {
    if idx == [] then [] else Select(s, idx[..|idx| - 1]) + [s[idx[|idx| - 1]]]
  }

  /** The mean of a subject coordinate and its neighbours' coordinates. */
  function Mean(c: real, neighbours: seq<real>): real
  {
    (c + Sum(neighbours)) / (|neighbours| + 1) as real
  }

  /** The merged point emitted for subject i (lines 241-246): the mean of the
      subject's and its neighbours' positions and the sum of their values. */
  function Cluster(xs: seq<real>, ys: seq<real>, vs: seq<real>, i: nat): Point
    requires |xs| == |ys| == |vs| && i < |xs|
  {
    var nb := Neighbours(xs, ys, i);
    Point(Mean(xs[i], Select(xs, nb)), Mean(ys[i], Select(ys, nb)), vs[i] + Sum(Select(vs, nb)))
  }

  /** `used` after setting every listed index (line 237). */
  function MarkAll(used: seq<bool>, idx: seq<nat>): (r: seq<bool>)
    requires forall m :: 0 <= m < |idx| ==> idx[m] < |used|
    ensures |r| == |used|
    ensures forall k :: 0 <= k < |used| ==> (r[k] <==> used[k] || k in idx)
  {
    if idx == [] then used else MarkAll(used, idx[..|idx| - 1])[idx[|idx| - 1] := true]
  }

  /** The subjects that produced a merged point, and the final `used` list. */
  datatype ScanState = ScanState(subjects: seq<nat>, used: seq<bool>)

  /** The outer loop from subject i on (lines 222-248). Reaching a used index
      ends the processing for good: the `continue` at line 224 skips `i += 1`,
      so every later iteration looks at the same used index again. */
  function Scan(xs: seq<real>, ys: seq<real>, i: nat, used: seq<bool>): (s: ScanState)
    requires |xs| == |ys| == |used| && i <= |xs|
    ensures |s.used| == |used|
    ensures forall t :: t in s.subjects ==> i <= t < |xs|
    decreases |xs| - i
  {
    if i == |xs| || used[i] then ScanState([], used)
    else
      var nb := Neighbours(xs, ys, i);
      if |nb| == 0 then Scan(xs, ys, i + 1, used)
      else
        var rest := Scan(xs, ys, i + 1, MarkAll(used, nb)[i := true]);
        ScanState([i] + rest.subjects, rest.used)
  }

  /** Index k is taken by the given subjects: it is one of them, or the
      neighbour search of one of them found it. */
  ghost predicate Absorbed(xs: seq<real>, ys: seq<real>, subjects: seq<nat>, k: nat)
    requires |xs| == |ys| && forall t :: t in subjects ==> t < |xs|
  {
    k in subjects || exists t :: t in subjects && k in Neighbours(xs, ys, t)
  }

  /** Indices below k whose `used` entry is still clear, in order. */
  function UnusedUpTo(used: seq<bool>, k: nat): (r: seq<nat>)
    requires k <= |used|
    ensures |r| <= k
    ensures Increasing(r)
    ensures forall m :: 0 <= m < |r| ==> r[m] < k && !used[r[m]]
  {
    if k == 0 then []
    else if !used[k - 1] then UnusedUpTo(used, k - 1) + [k - 1]
    else UnusedUpTo(used, k - 1)
  }

  function Unused(used: seq<bool>): seq<nat>
  {
    UnusedUpTo(used, |used|)
  }

  function ClusterPoints(xs: seq<real>, ys: seq<real>, vs: seq<real>, subjects: seq<nat>): (r: seq<Point>)
    requires |xs| == |ys| == |vs|
    requires forall t :: t in subjects ==> t < |xs|
    ensures |r| == |subjects|
  {
    if subjects == [] then []
    else
      var init, last := subjects[..|subjects| - 1], subjects[|subjects| - 1];
      assert last in subjects && forall t :: t in init ==> t in subjects;
      ClusterPoints(xs, ys, vs, init) + [Cluster(xs, ys, vs, last)]
  }

  function PointsAt(xs: seq<real>, ys: seq<real>, vs: seq<real>, idx: seq<nat>): (r: seq<Point>)
    requires |xs| == |ys| == |vs|
    requires forall m :: 0 <= m < |idx| ==> idx[m] < |xs|
    ensures |r| == |idx|
    ensures forall m :: 0 <= m < |idx| ==> r[m] == Point(xs[idx[m]], ys[idx[m]], vs[idx[m]])
  {
    if idx == [] then []
    else PointsAt(xs, ys, vs, idx[..|idx| - 1]) + [Point(xs[idx[|idx| - 1]], ys[idx[|idx| - 1]], vs[idx[|idx| - 1]])]
  }

  /** The points below k whose `used` entry is clear, unchanged and in order. */
  function UnusedPoints(xs: seq<real>, ys: seq<real>, vs: seq<real>, used: seq<bool>, k: nat): (r: seq<Point>)
    requires |xs| == |ys| == |vs| == |used| && k <= |used|
    ensures |r| <= k
  {
    if k == 0 then []
    else if !used[k - 1] then UnusedPoints(xs, ys, vs, used, k - 1) + [Point(xs[k - 1], ys[k - 1], vs[k - 1])]
    else UnusedPoints(xs, ys, vs, used, k - 1)
  }

  function NoneUsed(n: nat): (u: seq<bool>)
    ensures |u| == n && forall k :: 0 <= k < n ==> !u[k]
  {
    seq(n, _ => false)
  }

  /** What `intensity` returns, as one list of points: the merged points of
      the scan, then every point left unused, unchanged and in input order. */
  function Intensified(xs: seq<real>, ys: seq<real>, vs: seq<real>): seq<Point>
    requires |xs| == |ys| == |vs|
  {
    var s := Scan(xs, ys, 0, NoneUsed(|xs|));
    ClusterPoints(xs, ys, vs, s.subjects) + UnusedPoints(xs, ys, vs, s.used, |xs|)
  }

  /** The neighbour search of lines 225-238 for subject i at position p.
      The test of `used[i]` at line 228 is kept; it never fires, because the
      loop only ever sets entries other than i. */
  method CollectNeighbours(xCoords: seq<real>, yCoords: seq<real>, values: seq<real>,
                           used: array<bool>, i: nat, x: real, y: real)
    returns (neibX: seq<real>, neibY: seq<real>, neibValue: seq<real>, ghost nb: seq<nat>)
    requires |xCoords| == |yCoords| == |values| == used.Length
    requires i < used.Length && !used[i] && x == xCoords[i] && y == yCoords[i]
    modifies used
    ensures nb == Neighbours(xCoords, yCoords, i)
    ensures neibX == Select(xCoords, nb) && neibY == Select(yCoords, nb)
    ensures neibValue == Select(values, nb)
    ensures used[..] == MarkAll(old(used[..]), nb)
  {
    var n := used.Length;
    var j, k := 0, 0;
    neibX, neibY, neibValue := [], [], [];
    nb := [];
    while k < n
      invariant 0 <= k <= n && j == k
      invariant nb == NeighboursUpTo(xCoords, yCoords, i, k)
      invariant neibX == Select(xCoords, nb) && neibY == Select(yCoords, nb)
      invariant neibValue == Select(values, nb)
      invariant used[..] == MarkAll(old(used[..]), nb)
    {
      if !used[i] {
        if i != j {
          var distance := CalcDist(x, y, xCoords[k], yCoords[k]);
          if distance < MergeDistance * MergeDistance {
            neibX, neibY, neibValue := neibX + [xCoords[k]], neibY + [yCoords[k]], neibValue + [values[k]];
            used[j] := true;
            nb := nb + [k];
          }
        }
        j := j + 1;
      }
      k := k + 1;
    }
  }

  /** One step of the outer loop at an unused subject i. */
  lemma ScanStep(xs: seq<real>, ys: seq<real>, i: nat, used: seq<bool>)
    requires |xs| == |ys| == |used| && i < |xs| && !used[i]
    ensures |Neighbours(xs, ys, i)| == 0 ==> Scan(xs, ys, i, used) == Scan(xs, ys, i + 1, used)
    ensures |Neighbours(xs, ys, i)| > 0 ==>
              var rest := Scan(xs, ys, i + 1, MarkAll(used, Neighbours(xs, ys, i))[i := true]);
              Scan(xs, ys, i, used) == ScanState([i] + rest.subjects, rest.used)
  {
  }

  lemma ClusterPointsSnoc(xs: seq<real>, ys: seq<real>, vs: seq<real>, subjects: seq<nat>, i: nat)
    requires |xs| == |ys| == |vs| && i < |xs|
    requires forall t :: t in subjects ==> t < |xs|
    ensures ClusterPoints(xs, ys, vs, subjects + [i])
         == ClusterPoints(xs, ys, vs, subjects) + [Cluster(xs, ys, vs, i)]
  {
    assert (subjects + [i])[..|subjects|] == subjects;
  }

  /** The body of the outer loop for an unused subject i (lines 225-247):
      collect the neighbours, and when there are any, compute the merged
      point and mark the subject used. */
  method MergeSubject(xCoords: seq<real>, yCoords: seq<real>, values: seq<real>, used: array<bool>, i: nat)
    returns (merged: bool, avgX: real, avgY: real, avgValue: real)
    requires |xCoords| == |yCoords| == |values| == used.Length
    requires i < used.Length && !used[i]
    modifies used
    ensures merged <==> |Neighbours(xCoords, yCoords, i)| > 0
    ensures merged ==> Point(avgX, avgY, avgValue) == Cluster(xCoords, yCoords, values, i)
    ensures Scan(xCoords, yCoords, i, old(used[..])).subjects
         == (if merged then [i] else []) + Scan(xCoords, yCoords, i + 1, used[..]).subjects
    ensures Scan(xCoords, yCoords, i, old(used[..])).used == Scan(xCoords, yCoords, i + 1, used[..]).used
  {
    ghost var before := used[..];
    var x, y, value := xCoords[i], yCoords[i], values[i];
    var neibX, neibY, neibValue, nb := CollectNeighbours(xCoords, yCoords, values, used, i, x, y);
    ScanStep(xCoords, yCoords, i, before);
    merged := |neibX| > 0;
    avgX, avgY, avgValue := 0.0, 0.0, 0.0;
    if merged {
      avgX := Mean(x, neibX);
      avgY := Mean(y, neibY);
      avgValue := value + Sum(neibValue);
      used[i] := true;
      assert used[..] == MarkAll(before, nb)[i := true];
    }
  }

  lemma IntensifiedSplit(xs: seq<real>, ys: seq<real>, vs: seq<real>, subjects: seq<nat>, used: seq<bool>)
    requires |xs| == |ys| == |vs|
    requires Scan(xs, ys, 0, NoneUsed(|xs|)) == ScanState(subjects, used)
    ensures Intensified(xs, ys, vs) == ClusterPoints(xs, ys, vs, subjects) + UnusedPoints(xs, ys, vs, used, |xs|)
  {
  }

  /** What the outer loop has done when it stands at subject i: the subjects
      merged so far and their points, and a remainder of the scan that agrees
      with the scan from the start. */
  ghost predicate ScanSoFar(xs: seq<real>, ys: seq<real>, vs: seq<real>, total: ScanState, i: nat,
                            used: seq<bool>, subjects: seq<nat>, merged: seq<Point>)
    requires |xs| == |ys| == |vs| == |used| && i <= |xs|
  {
    && (forall t :: t in subjects ==> t < |xs|)
    && total.subjects == subjects + Scan(xs, ys, i, used).subjects
    && total.used == Scan(xs, ys, i, used).used
    && merged == ClusterPoints(xs, ys, vs, subjects)
  }

  /** One pass of the outer loop at an unused subject i (lines 225-247),
      with the merged point appended to the output lists. */
  method VisitSubject(xCoords: seq<real>, yCoords: seq<real>, values: seq<real>, used: array<bool>, i: nat,
                      newX: seq<real>, newY: seq<real>, newValue: seq<real>,
                      ghost total: ScanState, ghost subjects: seq<nat>, ghost merged: seq<Point>)
    returns (newX': seq<real>, newY': seq<real>, newValue': seq<real>,
             ghost subjects': seq<nat>, ghost merged': seq<Point>)
    requires |xCoords| == |yCoords| == |values| == used.Length
    requires i < used.Length && !used[i]
    requires ScanSoFar(xCoords, yCoords, values, total, i, used[..], subjects, merged)
    requires newX == Xs(merged) && newY == Ys(merged) && newValue == Values(merged)
    modifies used
    ensures ScanSoFar(xCoords, yCoords, values, total, i + 1, used[..], subjects', merged')
    ensures newX' == Xs(merged') && newY' == Ys(merged') && newValue' == Values(merged')
  {
    ghost var before := used[..];
    var isMerged, avgX, avgY, avgValue := MergeSubject(xCoords, yCoords, values, used, i);
    ghost var pt := Point(avgX, avgY, avgValue);
    AdvanceScan(xCoords, yCoords, values, total, i, before, used[..], subjects, merged, isMerged, pt);
    newX', newY', newValue' := newX, newY, newValue;
    subjects', merged' := subjects, merged;
    if isMerged {
      newX', newY', newValue' := newX + [avgX], newY + [avgY], newValue + [avgValue];
      UnzipSnoc(merged, pt);
      subjects' := subjects + [i];
      merged' := merged + [pt];
    }
  }

  /** What one pass of the outer loop does to the ghost account of the scan. */
  lemma AdvanceScan(xs: seq<real>, ys: seq<real>, vs: seq<real>, total: ScanState, i: nat,
                    before: seq<bool>, after: seq<bool>, subjects: seq<nat>, merged: seq<Point>,
                    isMerged: bool, pt: Point)
    requires |xs| == |ys| == |vs| == |before| == |after| && i < |xs|
    requires ScanSoFar(xs, ys, vs, total, i, before, subjects, merged)
    requires isMerged ==> pt == Cluster(xs, ys, vs, i)
    requires Scan(xs, ys, i, before).subjects == (if isMerged then [i] else []) + Scan(xs, ys, i + 1, after).subjects
    requires Scan(xs, ys, i, before).used == Scan(xs, ys, i + 1, after).used
    ensures isMerged ==> ScanSoFar(xs, ys, vs, total, i + 1, after, subjects + [i], merged + [pt])
    ensures !isMerged ==> ScanSoFar(xs, ys, vs, total, i + 1, after, subjects, merged)
  {
    var rest := Scan(xs, ys, i + 1, after);
    if isMerged {
      AdvanceScanMerged(xs, ys, vs, total, i, after, subjects, merged, rest, pt);
    } else {
      assert [] + rest.subjects == rest.subjects;
    }
  }

  lemma AdvanceScanMerged(xs: seq<real>, ys: seq<real>, vs: seq<real>, total: ScanState, i: nat,
                          after: seq<bool>, subjects: seq<nat>, merged: seq<Point>, rest: ScanState, pt: Point)
    requires |xs| == |ys| == |vs| == |after| && i < |xs|
    requires forall t :: t in subjects ==> t < |xs|
    requires rest == Scan(xs, ys, i + 1, after)
    requires total.subjects == subjects + ([i] + rest.subjects) && total.used == rest.used
    requires merged == ClusterPoints(xs, ys, vs, subjects) && pt == Cluster(xs, ys, vs, i)
    ensures ScanSoFar(xs, ys, vs, total, i + 1, after, subjects + [i], merged + [pt])
  {
    assert subjects + ([i] + rest.subjects) == (subjects + [i]) + rest.subjects;
    ClusterPointsSnoc(xs, ys, vs, subjects, i);
    BelowSnoc(subjects, i, |xs|);
  }

  lemma BelowSnoc(subjects: seq<nat>, i: nat, n: nat)
    requires i < n && forall t :: t in subjects ==> t < n
    ensures forall t :: t in subjects + [i] ==> t < n
  {
    assert forall t :: t in subjects + [i] ==> t in subjects || t == i;
  }

  /** The outer loop of `intensity` (lines 222-248). The zip iterator's
      position p and the counter i are kept apart: they coincide until the
      scan meets a used index, after which i never moves again (the
      `continue` at line 224). The loop emits the merged point of every
      subject of the scan, in order, and leaves `used` as the scan does. */
  method MergeAll(xCoords: seq<real>, yCoords: seq<real>, values: seq<real>, used: array<bool>)
    returns (newX: seq<real>, newY: seq<real>, newValue: seq<real>,
             ghost subjects: seq<nat>, ghost merged: seq<Point>)
    requires |xCoords| == |yCoords| == |values| == used.Length
    modifies used
    ensures Scan(xCoords, yCoords, 0, old(used[..])) == ScanState(subjects, used[..])
    ensures merged == ClusterPoints(xCoords, yCoords, values, subjects)
    ensures newX == Xs(merged) && newY == Ys(merged) && newValue == Values(merged)
  {
    var n := used.Length;
    newX, newY, newValue := [], [], [];
    subjects, merged := [], [];
    var i := 0;
    var p := 0;
    ghost var total := Scan(xCoords, yCoords, 0, used[..]);
    while p < n
      invariant 0 <= i <= p <= n
      invariant i == p || (i < n && used[i])
      invariant ScanSoFar(xCoords, yCoords, values, total, i, used[..], subjects, merged)
      invariant newX == Xs(merged) && newY == Ys(merged) && newValue == Values(merged)
    {
      if used[i] {
        p := p + 1;
        continue;
      }
      newX, newY, newValue, subjects, merged :=
        VisitSubject(xCoords, yCoords, values, used, i, newX, newY, newValue, total, subjects, merged);
      i := i + 1;
      p := p + 1;
    }
    assert Scan(xCoords, yCoords, i, used[..]) == ScanState([], used[..]);
    assert subjects + [] == subjects;
  }

  /** `intensity` (lines 209-256): the merged points of the scan, then every
      point left unused. */
  method Intensity(xCoords: seq<real>, yCoords: seq<real>, values: seq<real>)
    returns (newX: seq<real>, newY: seq<real>, newValue: seq<real>)
    requires |xCoords| == |yCoords| == |values|
    ensures Points(newX, newY, newValue) == Unzip(Intensified(xCoords, yCoords, values))
  {
    var n := |xCoords|;
    var used := new bool[n](_ => false);
    assert used[..] == NoneUsed(n);
    ghost var subjects, merged;
    newX, newY, newValue, subjects, merged := MergeAll(xCoords, yCoords, values, used);
    IntensifiedSplit(xCoords, yCoords, values, subjects, used[..]);
    newX, newY, newValue := AppendUnused(xCoords, yCoords, values, used, newX, newY, newValue, merged);
  }

  /** One more index of the final loop: an unused point adds its own
      coordinates and value to the three lists, a used one nothing. */
  lemma AppendUnusedStep(xs: seq<real>, ys: seq<real>, vs: seq<real>, used: seq<bool>, merged: seq<Point>, q: nat)
    requires |xs| == |ys| == |vs| == |used| && q < |used|
    ensures var before := merged + UnusedPoints(xs, ys, vs, used, q);
            var after := merged + UnusedPoints(xs, ys, vs, used, q + 1);
            if used[q] then after == before
            else Xs(after) == Xs(before) + [xs[q]] && Ys(after) == Ys(before) + [ys[q]]
                 && Values(after) == Values(before) + [vs[q]]
  {
    if !used[q] {
      var before := merged + UnusedPoints(xs, ys, vs, used, q);
      var pt := Point(xs[q], ys[q], vs[q]);
      assert merged + UnusedPoints(xs, ys, vs, used, q + 1) == before + [pt];
      UnzipSnoc(before, pt);
    }
  }

  /** The final loop of `intensity` (lines 250-254): every point whose
      `used` entry is clear is appended unchanged, in input order. */
  method AppendUnused(xCoords: seq<real>, yCoords: seq<real>, values: seq<real>, used: array<bool>,
                      x0: seq<real>, y0: seq<real>, value0: seq<real>, ghost merged: seq<Point>)
    returns (newX: seq<real>, newY: seq<real>, newValue: seq<real>)
    requires |xCoords| == |yCoords| == |values| == used.Length
    requires x0 == Xs(merged) && y0 == Ys(merged) && value0 == Values(merged)
    ensures newX == Xs(merged + UnusedPoints(xCoords, yCoords, values, used[..], used.Length))
    ensures newY == Ys(merged + UnusedPoints(xCoords, yCoords, values, used[..], used.Length))
    ensures newValue == Values(merged + UnusedPoints(xCoords, yCoords, values, used[..], used.Length))
  {
    var n := used.Length;
    ghost var u := used[..];
    newX, newY, newValue := x0, y0, value0;
    var q := 0;
    assert merged + UnusedPoints(xCoords, yCoords, values, u, 0) == merged;
    while q < n
      invariant 0 <= q <= n
      invariant newX == Xs(merged + UnusedPoints(xCoords, yCoords, values, u, q))
      invariant newY == Ys(merged + UnusedPoints(xCoords, yCoords, values, u, q))
      invariant newValue == Values(merged + UnusedPoints(xCoords, yCoords, values, u, q))
    {
      AppendUnusedStep(xCoords, yCoords, values, u, merged, q);
      if !used[q] {
        newX, newY, newValue := newX + [xCoords[q]], newY + [yCoords[q]], newValue + [values[q]];
      }
      q := q + 1;
    }
  }

  /** `calc_dist` against the test of the source: (5, 5) and (1, 2) are 5
      apart, so the squared distance is 25. */
  lemma CalcDistExample()
    ensures CalcDist(5.0, 5.0, 1.0, 2.0) == 25.0
  {
  }

  /** The neighbours of i are exactly the other indices within merge distance. */
  lemma {:induction false} NeighboursUpToComplete(xs: seq<real>, ys: seq<real>, i: nat, k: nat)
    requires |xs| == |ys| && i < |xs| && k <= |xs|
    ensures forall j :: 0 <= j < |xs| ==>
              (j in NeighboursUpTo(xs, ys, i, k) <==> j < k && j != i && Near(xs, ys, i, j))
  {
    if k > 0 {
      NeighboursUpToComplete(xs, ys, i, k - 1);
    }
  }

  lemma NeighboursComplete(xs: seq<real>, ys: seq<real>, i: nat, j: nat)
    requires |xs| == |ys| && i < |xs| && j < |xs|
    ensures j in Neighbours(xs, ys, i) <==> j != i && Near(xs, ys, i, j)
  {
    NeighboursUpToComplete(xs, ys, i, |xs|);
  }

  /** The indices below k left unused are exactly those whose entry is clear. */
  lemma {:induction false} UnusedUpToComplete(used: seq<bool>, k: nat)
    requires k <= |used|
    ensures forall j :: 0 <= j < |used| ==> (j in UnusedUpTo(used, k) <==> j < k && !used[j])
  {
    if k > 0 {
      UnusedUpToComplete(used, k - 1);
    }
  }

  /** The tail of the output: the points at the unused indices, unchanged and
      in input order. */
  lemma {:induction false} UnusedPointsAreUnusedIndices(xs: seq<real>, ys: seq<real>, vs: seq<real>, used: seq<bool>, k: nat)
    requires |xs| == |ys| == |vs| == |used| && k <= |used|
    ensures UnusedPoints(xs, ys, vs, used, k) == PointsAt(xs, ys, vs, UnusedUpTo(used, k))
  {
    if k > 0 {
      UnusedPointsAreUnusedIndices(xs, ys, vs, used, k - 1);
      var idx := UnusedUpTo(used, k - 1);
      if !used[k - 1] {
        assert (idx + [k - 1])[..|idx|] == idx;
      }
    }
  }

  /** The number of clear entries below k. */
  function CountFree(used: seq<bool>, k: nat): (c: nat)
    requires k <= |used|
    ensures c <= k
  {
    if k == 0 then 0 else CountFree(used, k - 1) + (if used[k - 1] then 0 else 1)
  }

  lemma {:induction false} UnusedPointsCount(xs: seq<real>, ys: seq<real>, vs: seq<real>, used: seq<bool>, k: nat)
    requires |xs| == |ys| == |vs| == |used| && k <= |used|
    ensures |UnusedPoints(xs, ys, vs, used, k)| == CountFree(used, k)
  {
    if k > 0 {
      UnusedPointsCount(xs, ys, vs, used, k - 1);
    }
  }

  /** Setting more entries never frees any; setting a clear entry below k
      takes one free entry away. */
  lemma {:induction false} CountFreeMonotone(used: seq<bool>, more: seq<bool>, k: nat, m: int)
    requires |used| == |more| && k <= |used|
    requires forall j :: 0 <= j < |used| && used[j] ==> more[j]
    ensures CountFree(more, k) <= CountFree(used, k)
    ensures 0 <= m < k && !used[m] && more[m] ==> CountFree(more, k) < CountFree(used, k)
  {
    if k > 0 {
      CountFreeMonotone(used, more, k - 1, m);
    }
  }

  /** Each subject the scan merges uses up at least one free entry: its own. */
  lemma {:induction false} ScanCount(xs: seq<real>, ys: seq<real>, i: nat, used: seq<bool>)
    requires |xs| == |ys| == |used| && i <= |xs|
    ensures var s := Scan(xs, ys, i, used);
            |s.subjects| + CountFree(s.used, |used|) <= CountFree(used, |used|)
    decreases |xs| - i
  {
    if i == |xs| || used[i] {
    } else {
      var nb := Neighbours(xs, ys, i);
      if |nb| == 0 {
        ScanCount(xs, ys, i + 1, used);
      } else {
        var next := MarkAll(used, nb)[i := true];
        ScanCount(xs, ys, i + 1, next);
        CountFreeMonotone(used, next, |used|, i);
      }
    }
  }

  /** `intensity` never returns more points than it was given. */
  lemma IntensifiedLength(xs: seq<real>, ys: seq<real>, vs: seq<real>)
    requires |xs| == |ys| == |vs|
    ensures |Intensified(xs, ys, vs)| <= |xs|
  {
    var s := Scan(xs, ys, 0, NoneUsed(|xs|));
    ScanCount(xs, ys, 0, NoneUsed(|xs|));
    UnusedPointsCount(xs, ys, vs, s.used, |xs|);
  }

  lemma IncreasingCons(i: nat, s: seq<nat>)
    requires Increasing(s) && forall t :: t in s ==> i < t
    ensures Increasing([i] + s)
  {
    forall a, b | 0 <= a < b < |[i] + s|
      ensures ([i] + s)[a] < ([i] + s)[b]
    {
      assert ([i] + s)[b] == s[b - 1];
      if a > 0 {
        assert ([i] + s)[a] == s[a - 1];
      } else {
        assert s[b - 1] in s;
      }
    }
  }

  /** The subjects of the scan come in increasing order. */
  lemma {:induction false} ScanIncreasing(xs: seq<real>, ys: seq<real>, i: nat, used: seq<bool>)
    requires |xs| == |ys| == |used| && i <= |xs|
    ensures Increasing(Scan(xs, ys, i, used).subjects)
    decreases |xs| - i
  {
    if i < |xs| && !used[i] {
      var nb := Neighbours(xs, ys, i);
      if |nb| == 0 {
        ScanIncreasing(xs, ys, i + 1, used);
      } else {
        ScanIncreasing(xs, ys, i + 1, MarkAll(used, nb)[i := true]);
        MergeIncreasing(xs, ys, i, used);
      }
    }
  }

  lemma MergeIncreasing(xs: seq<real>, ys: seq<real>, i: nat, used: seq<bool>)
    requires |xs| == |ys| == |used| && i < |xs| && !used[i] && |Neighbours(xs, ys, i)| > 0
    requires Increasing(Scan(xs, ys, i + 1, MarkAll(used, Neighbours(xs, ys, i))[i := true]).subjects)
    ensures Increasing(Scan(xs, ys, i, used).subjects)
  {
    var rest := Scan(xs, ys, i + 1, MarkAll(used, Neighbours(xs, ys, i))[i := true]).subjects;
    IncreasingCons(i, rest);
  }

  /** The shape of the scan from subject i: it runs up to a stop index that is
      either the end of the input or an index that was already used when the
      scan reached it, and nothing after the stop is ever a subject. Before the
      stop, the subjects are exactly the indices with neighbours. */
  lemma {:induction false} ScanShape(xs: seq<real>, ys: seq<real>, i: nat, used: seq<bool>) returns (stop: nat)
    requires |xs| == |ys| == |used| && i <= |xs|
    ensures i <= stop <= |xs|
    ensures stop < |xs| ==> Scan(xs, ys, i, used).used[stop]
    ensures forall t :: t in Scan(xs, ys, i, used).subjects <==>
              i <= t < stop && |Neighbours(xs, ys, t)| > 0
    decreases |xs| - i
  {
    if i == |xs| || used[i] {
      stop := i;
    } else {
      var nb := Neighbours(xs, ys, i);
      ScanStep(xs, ys, i, used);
      if |nb| == 0 {
        stop := ScanShape(xs, ys, i + 1, used);
      } else {
        var next := MarkAll(used, nb)[i := true];
        stop := ScanShape(xs, ys, i + 1, next);
        var rest := Scan(xs, ys, i + 1, next);
        assert forall t :: t in [i] + rest.subjects <==> t == i || t in rest.subjects;
      }
    }
  }

  /** A subject i in front of further subjects takes itself, its neighbours
      and what the further subjects take. */
  lemma AbsorbedCons(xs: seq<real>, ys: seq<real>, i: nat, subjects: seq<nat>, k: nat)
    requires |xs| == |ys| && i < |xs| && forall t :: t in subjects ==> t < |xs|
    ensures Absorbed(xs, ys, [i] + subjects, k)
        <==> k == i || k in Neighbours(xs, ys, i) || Absorbed(xs, ys, subjects, k)
  {
    assert forall t :: t in [i] + subjects <==> t == i || t in subjects;
  }

  /** The entries the scan leaves set are exactly those set before it, the
      subjects and the neighbours found by their searches (lines 233-237 and
      243): every other point is emitted unchanged by the final loop. */
  lemma {:induction false} ScanUsed(xs: seq<real>, ys: seq<real>, i: nat, used: seq<bool>)
    requires |xs| == |ys| == |used| && i <= |xs|
    ensures var s := Scan(xs, ys, i, used);
            forall k :: 0 <= k < |used| ==> (s.used[k] <==> used[k] || Absorbed(xs, ys, s.subjects, k))
    decreases |xs| - i
  {
    if i == |xs| || used[i] {
    } else {
      var nb := Neighbours(xs, ys, i);
      ScanStep(xs, ys, i, used);
      if |nb| == 0 {
        ScanUsed(xs, ys, i + 1, used);
      } else {
        var next := MarkAll(used, nb)[i := true];
        ScanUsed(xs, ys, i + 1, next);
        var rest := Scan(xs, ys, i + 1, next);
        forall k | 0 <= k < |used|
          ensures rest.used[k] <==> used[k] || Absorbed(xs, ys, [i] + rest.subjects, k)
        {
          AbsorbedCons(xs, ys, i, rest.subjects, k);
        }
      }
    }
  }

  /** Empty input, empty output. */
  lemma IntensifiedEmpty()
    ensures Intensified([], [], []) == []
  {
  }

  /** A single point has no neighbour (i != j at line 230) and comes back
      unchanged. */
  lemma IntensifiedSingle(x: real, y: real, v: real)
    ensures Intensified([x], [y], [v]) == [Point(x, y, v)]
  {
    assert NeighboursUpTo([x], [y], 0, 0) == [];
    assert Neighbours([x], [y], 0) == [];
    assert NoneUsed(1) == [false];
    assert Scan([x], [y], 0, [false]) == ScanState([], [false]);
    assert UnusedPoints([x], [y], [v], [false], 0) == [];
  }

  /** Marking a single index sets just that entry. */
  lemma MarkOne(used: seq<bool>, j: nat)
    requires j < |used|
    ensures MarkAll(used, [j]) == used[j := true]
  {
    assert [j][..0] == [];
  }

  /** A subject with a single neighbour j merges into the midpoint of the
      two, carrying the sum of their values. */
  lemma ClusterOfPair(xs: seq<real>, ys: seq<real>, vs: seq<real>, i: nat, j: nat)
    requires |xs| == |ys| == |vs| && i < |xs| && j < |xs|
    requires Neighbours(xs, ys, i) == [j]
    ensures Cluster(xs, ys, vs, i) == Point((xs[i] + xs[j]) / 2.0, (ys[i] + ys[j]) / 2.0, vs[i] + vs[j])
  {
    SelectOne(xs, j);
    SelectOne(ys, j);
    SelectOne(vs, j);
    SumOne(xs[j]);
    SumOne(ys[j]);
    SumOne(vs[j]);
  }

  lemma SelectOne(s: seq<real>, j: nat)
    requires j < |s|
    ensures Select(s, [j]) == [s[j]]
  {
    assert [j][..0] == [];
  }

  lemma ClusterPointsOne(xs: seq<real>, ys: seq<real>, vs: seq<real>, s0: nat)
    requires |xs| == |ys| == |vs| && s0 < |xs|
    ensures ClusterPoints(xs, ys, vs, [s0]) == [Cluster(xs, ys, vs, s0)]
  {
    assert [s0][..0] == [];
  }

  lemma ClusterPointsTwo(xs: seq<real>, ys: seq<real>, vs: seq<real>, s0: nat, s1: nat)
    requires |xs| == |ys| == |vs| && s0 < |xs| && s1 < |xs|
    ensures ClusterPoints(xs, ys, vs, [s0, s1]) == [Cluster(xs, ys, vs, s0), Cluster(xs, ys, vs, s1)]
  {
    assert [s0, s1][..1] == [s0];
    ClusterPointsOne(xs, ys, vs, s0);
  }

  lemma SumOne(x: real)
    ensures Sum([x]) == x
  {
    assert [x][..0] == [];
  }

  lemma ClosePairNeighbours(xs: seq<real>, ys: seq<real>)
    requires xs == [0.0, 3.0] && ys == [0.0, 4.0]
    ensures Neighbours(xs, ys, 0) == [1]
  {
    assert NeighboursUpTo(xs, ys, 0, 1) == [];
    assert Near(xs, ys, 0, 1);
  }

  lemma ClosePairScan(xs: seq<real>, ys: seq<real>)
    requires |xs| == |ys| == 2 && Neighbours(xs, ys, 0) == [1]
    ensures Scan(xs, ys, 0, NoneUsed(2)) == ScanState([0], [true, true])
  {
    var u0, u1 := [false, false], [true, true];
    assert NoneUsed(2) == u0;
    MarkOne(u0, 1);
    assert u0[1 := true][0 := true] == u1;
    assert Scan(xs, ys, 1, u1) == ScanState([], u1);
    ScanStep(xs, ys, 0, u0);
  }

  lemma ClosePairCluster(xs: seq<real>, ys: seq<real>, vs: seq<real>)
    requires xs == [0.0, 3.0] && ys == [0.0, 4.0] && vs == [10.0, 20.0]
    requires Neighbours(xs, ys, 0) == [1]
    ensures ClusterPoints(xs, ys, vs, [0]) == [Point(1.5, 2.0, 30.0)]
  {
    ClusterOfPair(xs, ys, vs, 0, 1);
    ClusterPointsOne(xs, ys, vs, 0);
  }

  /** (0, 0) and (3, 4) are 5 apart and merge into their midpoint carrying
      the sum of the values. */
  lemma IntensifiedClosePair()
    ensures Intensified([0.0, 3.0], [0.0, 4.0], [10.0, 20.0]) == [Point(1.5, 2.0, 30.0)]
  {
    ClosePairOutcome([0.0, 3.0], [0.0, 4.0], [10.0, 20.0]);
  }

  lemma ClosePairOutcome(xs: seq<real>, ys: seq<real>, vs: seq<real>)
    requires xs == [0.0, 3.0] && ys == [0.0, 4.0] && vs == [10.0, 20.0]
    ensures Intensified(xs, ys, vs) == [Point(1.5, 2.0, 30.0)]
  {
    ClosePairNeighbours(xs, ys);
    ClosePairScan(xs, ys);
    IntensifiedSplit(xs, ys, vs, [0], [true, true]);
    ClosePairCluster(xs, ys, vs);
    UnusedPointsNext(xs, ys, vs, [true, true], 0);
    UnusedPointsNext(xs, ys, vs, [true, true], 1);
    assert [Point(1.5, 2.0, 30.0)] + [] == [Point(1.5, 2.0, 30.0)];
  }

  /** One step of the final loop: index k adds its point when unused. */
  lemma UnusedPointsNext(xs: seq<real>, ys: seq<real>, vs: seq<real>, used: seq<bool>, k: nat)
    requires |xs| == |ys| == |vs| == |used| && k < |used|
    ensures UnusedPoints(xs, ys, vs, used, k + 1)
         == UnusedPoints(xs, ys, vs, used, k) + if used[k] then [] else [Point(xs[k], ys[k], vs[k])]
  {
  }

  lemma FarPairNeighbours(xs: seq<real>, ys: seq<real>)
    requires xs == [0.0, 100.0] && ys == [0.0, 100.0]
    ensures Neighbours(xs, ys, 0) == [] && Neighbours(xs, ys, 1) == []
  {
    assert !Near(xs, ys, 0, 1) && !Near(xs, ys, 1, 0);
    assert NeighboursUpTo(xs, ys, 0, 1) == [];
    assert NeighboursUpTo(xs, ys, 1, 1) == [];
    assert NeighboursUpTo(xs, ys, 1, 2) == [];
  }

  lemma FarPairScan(xs: seq<real>, ys: seq<real>)
    requires |xs| == |ys| == 2 && Neighbours(xs, ys, 0) == [] && Neighbours(xs, ys, 1) == []
    ensures Scan(xs, ys, 0, NoneUsed(2)) == ScanState([], [false, false])
  {
    var u := [false, false];
    assert NoneUsed(2) == u;
    assert Scan(xs, ys, 2, u) == ScanState([], u);
    ScanStep(xs, ys, 1, u);
    ScanStep(xs, ys, 0, u);
  }

  lemma FarPairRest(xs: seq<real>, ys: seq<real>, vs: seq<real>)
    requires |xs| == |ys| == |vs| == 2
    ensures UnusedPoints(xs, ys, vs, [false, false], 2) == [Point(xs[0], ys[0], vs[0]), Point(xs[1], ys[1], vs[1])]
  {
    var u := [false, false];
    UnusedPointsNext(xs, ys, vs, u, 0);
    UnusedPointsNext(xs, ys, vs, u, 1);
  }

  /** (0, 0) and (100, 100) are too far apart: both come back unchanged. */
  lemma IntensifiedFarPair(a: real, b: real)
    ensures Intensified([0.0, 100.0], [0.0, 100.0], [a, b]) == [Point(0.0, 0.0, a), Point(100.0, 100.0, b)]
  {
    FarPairOutcome([0.0, 100.0], [0.0, 100.0], [a, b], a, b);
  }

  lemma FarPairOutcome(xs: seq<real>, ys: seq<real>, vs: seq<real>, a: real, b: real)
    requires xs == [0.0, 100.0] && ys == [0.0, 100.0] && vs == [a, b]
    ensures Intensified(xs, ys, vs) == [Point(0.0, 0.0, a), Point(100.0, 100.0, b)]
  {
    FarPairNeighbours(xs, ys);
    FarPairScan(xs, ys);
    IntensifiedSplit(xs, ys, vs, [], [false, false]);
    FarPairRest(xs, ys, vs);
    assert [] + [Point(0.0, 0.0, a), Point(100.0, 100.0, b)] == [Point(0.0, 0.0, a), Point(100.0, 100.0, b)];
  }

  lemma TwoClustersNear(xs: seq<real>, ys: seq<real>)
    requires xs == [0.0, 100.0, 50.0] && ys == [0.0, 0.0, 0.0]
    ensures !Near(xs, ys, 0, 1) && Near(xs, ys, 0, 2) && !Near(xs, ys, 1, 0) && Near(xs, ys, 1, 2)
  {
  }

  lemma TwoClustersNeighbours(xs: seq<real>, ys: seq<real>)
    requires xs == [0.0, 100.0, 50.0] && ys == [0.0, 0.0, 0.0]
    ensures Neighbours(xs, ys, 0) == [2] && Neighbours(xs, ys, 1) == [2]
  {
    TwoClustersNear(xs, ys);
    assert NeighboursUpTo(xs, ys, 0, 1) == [];
    assert NeighboursUpTo(xs, ys, 0, 2) == [];
    assert NeighboursUpTo(xs, ys, 1, 1) == [];
    assert NeighboursUpTo(xs, ys, 1, 2) == [];
  }

  lemma TwoClustersScan(xs: seq<real>, ys: seq<real>)
    requires |xs| == |ys| == 3
    requires Neighbours(xs, ys, 0) == [2] && Neighbours(xs, ys, 1) == [2]
    ensures Scan(xs, ys, 0, NoneUsed(3)) == ScanState([0, 1], [true, true, true])
  {
    var u0, u1, u2 := [false, false, false], [true, false, true], [true, true, true];
    assert NoneUsed(3) == u0;
    MarkOne(u0, 2);
    MarkOne(u1, 2);
    assert u0[2 := true][0 := true] == u1 && u1[2 := true][1 := true] == u2;
    assert Scan(xs, ys, 2, u2) == ScanState([], u2);
    ScanStep(xs, ys, 1, u1);
    ScanStep(xs, ys, 0, u0);
  }

  lemma TwoClustersPoints(xs: seq<real>, ys: seq<real>, vs: seq<real>, a: real, b: real, c: real)
    requires xs == [0.0, 100.0, 50.0] && ys == [0.0, 0.0, 0.0] && vs == [a, b, c]
    requires Neighbours(xs, ys, 0) == [2] && Neighbours(xs, ys, 1) == [2]
    ensures ClusterPoints(xs, ys, vs, [0, 1]) == [Point(25.0, 0.0, a + c), Point(75.0, 0.0, b + c)]
  {
    ClusterOfPair(xs, ys, vs, 0, 2);
    ClusterOfPair(xs, ys, vs, 1, 2);
    ClusterPointsTwo(xs, ys, vs, 0, 1);
  }

  lemma TwoClustersSums(a: real, b: real, c: real)
    ensures Sum(Values([Point(25.0, 0.0, a + c), Point(75.0, 0.0, b + c)])) == Sum([a, b, c]) + c
  {
    var r := [Point(25.0, 0.0, a + c), Point(75.0, 0.0, b + c)];
    assert Values(r) == [a + c, b + c] by {
      assert r[..1] == [Point(25.0, 0.0, a + c)];
    }
    SumSnoc([], a + c);
    SumSnoc([a + c], b + c);
    assert [] + [a + c] == [a + c] && [a + c] + [b + c] == [a + c, b + c];
    SumSnoc([], a);
    SumSnoc([a], b);
    SumSnoc([a, b], c);
    assert [] + [a] == [a] && [a] + [b] == [a, b] && [a, b] + [c] == [a, b, c];
  }

  /** The inner loop ignores `used[j]`: (50, 0) lies within merge distance of
      both (0, 0) and (100, 0), so it is absorbed into both clusters and its
      value is counted twice. The values are not conserved. */
  lemma IntensifiedAbsorbsTwice(a: real, b: real, c: real)
    ensures Intensified([0.0, 100.0, 50.0], [0.0, 0.0, 0.0], [a, b, c])
         == [Point(25.0, 0.0, a + c), Point(75.0, 0.0, b + c)]
    ensures c != 0.0 ==> Sum(Values(Intensified([0.0, 100.0, 50.0], [0.0, 0.0, 0.0], [a, b, c]))) != Sum([a, b, c])
  {
    TwoClustersOutcome([0.0, 100.0, 50.0], [0.0, 0.0, 0.0], [a, b, c], a, b, c);
    TwoClustersSums(a, b, c);
  }

  lemma TwoClustersOutcome(xs: seq<real>, ys: seq<real>, vs: seq<real>, a: real, b: real, c: real)
    requires xs == [0.0, 100.0, 50.0] && ys == [0.0, 0.0, 0.0] && vs == [a, b, c]
    ensures Intensified(xs, ys, vs) == [Point(25.0, 0.0, a + c), Point(75.0, 0.0, b + c)]
  {
    TwoClustersNeighbours(xs, ys);
    TwoClustersScan(xs, ys);
    IntensifiedSplit(xs, ys, vs, [0, 1], [true, true, true]);
    TwoClustersPoints(xs, ys, vs, a, b, c);
    var u := [true, true, true];
    UnusedPointsNext(xs, ys, vs, u, 0);
    UnusedPointsNext(xs, ys, vs, u, 1);
    UnusedPointsNext(xs, ys, vs, u, 2);
    var r := [Point(25.0, 0.0, a + c), Point(75.0, 0.0, b + c)];
    assert r + [] == r;
  }

  lemma StuckNear(xs: seq<real>, ys: seq<real>)
    requires xs == [0.0, 10.0, 500.0, 510.0] && ys == [0.0, 0.0, 0.0, 0.0]
    ensures Near(xs, ys, 0, 1) && !Near(xs, ys, 0, 2) && !Near(xs, ys, 0, 3)
    ensures !Near(xs, ys, 2, 0) && !Near(xs, ys, 2, 1) && Near(xs, ys, 2, 3)
  {
  }

  lemma StuckNeighbours(xs: seq<real>, ys: seq<real>)
    requires xs == [0.0, 10.0, 500.0, 510.0] && ys == [0.0, 0.0, 0.0, 0.0]
    ensures Neighbours(xs, ys, 0) == [1] && Neighbours(xs, ys, 2) == [3]
  {
    StuckNear(xs, ys);
    assert NeighboursUpTo(xs, ys, 0, 1) == [];
    assert NeighboursUpTo(xs, ys, 0, 2) == [1];
    assert NeighboursUpTo(xs, ys, 0, 3) == [1];
    assert NeighboursUpTo(xs, ys, 2, 1) == [];
    assert NeighboursUpTo(xs, ys, 2, 2) == [];
    assert NeighboursUpTo(xs, ys, 2, 3) == [];
  }

  lemma StuckScan(xs: seq<real>, ys: seq<real>)
    requires |xs| == |ys| == 4 && Neighbours(xs, ys, 0) == [1]
    ensures Scan(xs, ys, 0, NoneUsed(4)) == ScanState([0], [true, true, false, false])
  {
    var u0, u1 := [false, false, false, false], [true, true, false, false];
    assert NoneUsed(4) == u0;
    MarkOne(u0, 1);
    assert u0[1 := true][0 := true] == u1;
    assert Scan(xs, ys, 1, u1) == ScanState([], u1);
    ScanStep(xs, ys, 0, u0);
  }

  lemma StuckRest(xs: seq<real>, ys: seq<real>, vs: seq<real>)
    requires |xs| == |ys| == |vs| == 4
    ensures UnusedPoints(xs, ys, vs, [true, true, false, false], 4) == [Point(xs[2], ys[2], vs[2]), Point(xs[3], ys[3], vs[3])]
  {
    var u := [true, true, false, false];
    UnusedPointsNext(xs, ys, vs, u, 0);
    UnusedPointsNext(xs, ys, vs, u, 1);
    UnusedPointsNext(xs, ys, vs, u, 2);
    UnusedPointsNext(xs, ys, vs, u, 3);
  }

  lemma StuckPoints(xs: seq<real>, ys: seq<real>, vs: seq<real>, a: real, b: real, c: real, d: real)
    requires xs == [0.0, 10.0, 500.0, 510.0] && ys == [0.0, 0.0, 0.0, 0.0] && vs == [a, b, c, d]
    requires Neighbours(xs, ys, 0) == [1]
    ensures ClusterPoints(xs, ys, vs, [0]) == [Point(5.0, 0.0, a + b)]
    ensures UnusedPoints(xs, ys, vs, [true, true, false, false], 4) == [Point(500.0, 0.0, c), Point(510.0, 0.0, d)]
  {
    ClusterOfPair(xs, ys, vs, 0, 1);
    ClusterPointsOne(xs, ys, vs, 0);
    StuckRest(xs, ys, vs);
  }

  /** After merging (0, 0) with (10, 0) the scan meets index 1, which that
      merge marked used, and never moves on: (500, 0) and (510, 0) are only
      10 apart and each other's neighbours, yet both come back unchanged. */
  lemma IntensifiedStopsAtUsed(a: real, b: real, c: real, d: real)
    ensures |Neighbours([0.0, 10.0, 500.0, 510.0], [0.0, 0.0, 0.0, 0.0], 2)| > 0
    ensures Intensified([0.0, 10.0, 500.0, 510.0], [0.0, 0.0, 0.0, 0.0], [a, b, c, d])
         == [Point(5.0, 0.0, a + b), Point(500.0, 0.0, c), Point(510.0, 0.0, d)]
  {
    StuckOutcome([0.0, 10.0, 500.0, 510.0], [0.0, 0.0, 0.0, 0.0], [a, b, c, d], a, b, c, d);
  }

  lemma StuckOutcome(xs: seq<real>, ys: seq<real>, vs: seq<real>, a: real, b: real, c: real, d: real)
    requires xs == [0.0, 10.0, 500.0, 510.0] && ys == [0.0, 0.0, 0.0, 0.0] && vs == [a, b, c, d]
    ensures |Neighbours(xs, ys, 2)| > 0
    ensures Intensified(xs, ys, vs) == [Point(5.0, 0.0, a + b), Point(500.0, 0.0, c), Point(510.0, 0.0, d)]
  {
    StuckNeighbours(xs, ys);
    StuckScan(xs, ys);
    IntensifiedSplit(xs, ys, vs, [0], [true, true, false, false]);
    StuckPoints(xs, ys, vs, a, b, c, d);
    assert [Point(5.0, 0.0, a + b)] + [Point(500.0, 0.0, c), Point(510.0, 0.0, d)]
        == [Point(5.0, 0.0, a + b), Point(500.0, 0.0, c), Point(510.0, 0.0, d)];
  }

  lemma {:induction false} ClusterPointsAt(xs: seq<real>, ys: seq<real>, vs: seq<real>, subjects: seq<nat>, m: nat)
    requires |xs| == |ys| == |vs|
    requires forall t :: t in subjects ==> t < |xs|
    requires m < |subjects|
    ensures subjects[m] < |xs| && ClusterPoints(xs, ys, vs, subjects)[m] == Cluster(xs, ys, vs, subjects[m])
  {
    assert subjects[m] in subjects;
    var init := subjects[..|subjects| - 1];
    if m < |init| {
      assert forall t :: t in init ==> t in subjects;
      ClusterPointsAt(xs, ys, vs, init, m);
      assert init[m] == subjects[m];
    }
  }

  /** The output of `intensity` as a whole: first one merged point per
      subject, in subject order, each at the mean position of the subject and
      its neighbours with the sum of their values; the subjects are exactly
      the indices before the stop that have neighbours. Then the points at the
      indices left unused, unchanged and in input order. */
  lemma IntensifiedShape(xs: seq<real>, ys: seq<real>, vs: seq<real>) returns (subjects: seq<nat>, stop: nat)
    requires |xs| == |ys| == |vs|
    ensures subjects == Scan(xs, ys, 0, NoneUsed(|xs|)).subjects
    ensures stop <= |xs| && (stop < |xs| ==> Scan(xs, ys, 0, NoneUsed(|xs|)).used[stop])
    ensures forall t: nat :: t in subjects <==> t < stop && |Neighbours(xs, ys, t)| > 0
    ensures Increasing(subjects)
    ensures |subjects| <= |Intensified(xs, ys, vs)|
    ensures forall m :: 0 <= m < |subjects| ==> subjects[m] in subjects && Intensified(xs, ys, vs)[m] == Cluster(xs, ys, vs, subjects[m])
    ensures Intensified(xs, ys, vs)[|subjects|..]
         == PointsAt(xs, ys, vs, Unused(Scan(xs, ys, 0, NoneUsed(|xs|)).used))
    ensures forall k :: 0 <= k < |xs| ==>
              (k in Unused(Scan(xs, ys, 0, NoneUsed(|xs|)).used) <==> !Absorbed(xs, ys, subjects, k))
  {
    var none := NoneUsed(|xs|);
    var s := Scan(xs, ys, 0, none);
    subjects := s.subjects;
    stop := ScanShape(xs, ys, 0, none);
    ScanIncreasing(xs, ys, 0, none);
    var merged := ClusterPoints(xs, ys, vs, subjects);
    var rest := UnusedPoints(xs, ys, vs, s.used, |xs|);
    IntensifiedSplit(xs, ys, vs, subjects, s.used);
    MergedPrefix(xs, ys, vs, subjects, rest);
    UnusedPointsAreUnusedIndices(xs, ys, vs, s.used, |xs|);
    ScanUsed(xs, ys, 0, none);
    UnusedUpToComplete(s.used, |xs|);
  }

  lemma MergedPrefix(xs: seq<real>, ys: seq<real>, vs: seq<real>, subjects: seq<nat>, rest: seq<Point>)
    requires |xs| == |ys| == |vs|
    requires forall t :: t in subjects ==> t < |xs|
    ensures var r := ClusterPoints(xs, ys, vs, subjects) + rest;
            && (forall m :: 0 <= m < |subjects| ==> subjects[m] in subjects && r[m] == Cluster(xs, ys, vs, subjects[m]))
            && r[|subjects|..] == rest
  {
    var merged := ClusterPoints(xs, ys, vs, subjects);
    forall m | 0 <= m < |subjects|
      ensures subjects[m] in subjects && (merged + rest)[m] == Cluster(xs, ys, vs, subjects[m])
    {
      ClusterPointsAt(xs, ys, vs, subjects, m);
    }
    assert (merged + rest)[|merged|..] == rest;
  }
}
