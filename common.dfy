/** Shared vocabulary of the event tracker model: optional values, the
    errors the pipeline can raise, the point set handed to the renderer and
    an insertion-ordered dictionary. */
module Common {

  /** Python's `None` or a value. */
  datatype Option<+T> = None | Some(value: T)

  /** A value or the exception that aborted the computation. */
  datatype Result<+R> = Success(value: R) | Failure(error: Error)

  /** The exceptions the core can raise. */
  datatype Error =
    | TooManyCategories   // TooManyCatError
    | ZeroDivision        // ZeroDivisionError in the value normalisation

  /** One point to plot: longitude, latitude and marker value. */
  datatype Point = Point(x: real, y: real, value: real)

  /** The per-category point set: the dictionary with keys "x", "y" and
      "value" holding three parallel lists. */
  datatype Points = Points(x: seq<real>, y: seq<real>, value: seq<real>)

  /** An insertion-ordered dictionary with string keys: `keys` lists the keys
      in insertion order and `entries` holds the values. */
  datatype OrderedMap<V> = OrderedMap(keys: seq<string>, entries: map<string, V>)
  {
    ghost predicate Valid() {
      Distinct(keys) && entries.Keys == set c | c in keys
    }
  }

  function EmptyMap<V>(): (m: OrderedMap<V>)
    ensures m.Valid() && m.keys == []
  {
    OrderedMap([], map[])
  }

  ghost predicate Distinct<T>(s: seq<T>) {
    forall a, b :: 0 <= a < b < |s| ==> s[a] != s[b]
  }

  ghost predicate Increasing(s: seq<nat>) {
    forall a, b :: 0 <= a < b < |s| ==> s[a] < s[b]
  }

  /** Python's built-in `sum` over a list of numbers. */
  function Sum(s: seq<real>): real
  {
    if s == [] then 0.0 else Sum(s[..|s| - 1]) + s[|s| - 1]
  }

  lemma SumSnoc(s: seq<real>, x: real)
    ensures Sum(s + [x]) == Sum(s) + x
  {
    assert (s + [x])[..|s|] == s;
  }

  function Xs(pts: seq<Point>): (r: seq<real>)
    ensures |r| == |pts|
  {
    if pts == [] then [] else Xs(pts[..|pts| - 1]) + [pts[|pts| - 1].x]
  }

  function Ys(pts: seq<Point>): (r: seq<real>)
    ensures |r| == |pts|
  {
    if pts == [] then [] else Ys(pts[..|pts| - 1]) + [pts[|pts| - 1].y]
  }

  function Values(pts: seq<Point>): (r: seq<real>)
    ensures |r| == |pts|
  {
    if pts == [] then [] else Values(pts[..|pts| - 1]) + [pts[|pts| - 1].value]
  }

  /** Splits a list of points into the three parallel lists. */
  function Unzip(pts: seq<Point>): Points
  {
    Points(Xs(pts), Ys(pts), Values(pts))
  }

  lemma UnzipSnoc(pts: seq<Point>, c: Point)
    ensures Xs(pts + [c]) == Xs(pts) + [c.x]
    ensures Ys(pts + [c]) == Ys(pts) + [c.y]
    ensures Values(pts + [c]) == Values(pts) + [c.value]
  {
    assert (pts + [c])[..|pts|] == pts;
  }
}
