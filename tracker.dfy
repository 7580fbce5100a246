/** The event tracker (`EventTracker`): its events, their classification by
    category, and the per-category point sets handed to the renderer
    (`get_coords`, lines 278-319). */
module Tracker {
  import opened Common
  import opened Events
  import opened Classification
  import opened Normalisation
  import Intensity

  /** The longitudes, latitudes and magnitudes of a list of events, each the
      concatenation of the events' own lists in event order. */
  datatype Readings = Readings(x: seq<real>, y: seq<real>, value: seq<Option<real>>)
  {
    /** The three lists describe the same geometries. */
    predicate Aligned() {
      |x| == |y| == |value|
    }
  }

  /** How many readings `zip(event.x, event.y, event.value)` yields: as
      many as the shortest of the three lists holds. */
  function ZipLength(e: Event): (m: nat)
    reads e
    ensures m <= |e.x| && m <= |e.y| && m <= |e.value|
    ensures m == |e.x| || m == |e.y| || m == |e.value|
  {
    if |e.x| <= |e.y| && |e.x| <= |e.value| then |e.x|
    else if |e.y| <= |e.value| then |e.y|
    else |e.value|
  }

  /** The readings of the events, flattened in event order (lines 303-307):
      each event contributes the readings its three lists zip to. */
  function Flatten(evs: seq<Event>): (r: Readings)
    reads evs
    ensures r.Aligned()
  {
    if evs == [] then Readings([], [], [])
    else
      var init := Flatten(evs[..|evs| - 1]);
      var last := evs[|evs| - 1];
      assert forall e :: e in evs[..|evs| - 1] ==> e in evs;
      var m := ZipLength(last);
      Readings(init.x + last.x[..m], init.y + last.y[..m], init.value + last.value[..m])
  }

  /** Flattening distributes over concatenation: the readings of two runs of
      events are those of the first followed by those of the second. */
  lemma {:induction false} FlattenAppend(a: seq<Event>, b: seq<Event>)
    ensures Flatten(a + b).x == Flatten(a).x + Flatten(b).x
    ensures Flatten(a + b).y == Flatten(a).y + Flatten(b).y
    ensures Flatten(a + b).value == Flatten(a).value + Flatten(b).value
    decreases |b|
  {
    if b != [] {
      var init := b[..|b| - 1];
      assert (a + b)[..|a + b| - 1] == a + init;
      FlattenAppend(a, init);
    } else {
      assert a + b == a;
    }
  }

  /** A single well-formed event's readings are its own lists. */
  lemma FlattenSingle(e: Event)
    requires e.WellFormed()
    ensures Flatten([e]) == Readings(e.x, e.y, e.value)
  {
    assert [e][..0] == [];
    assert e.x[..|e.x|] == e.x && e.y[..|e.y|] == e.y && e.value[..|e.value|] == e.value;
  }

  /** Flattening reads nothing but the events' own fields. */
  twostate lemma FlattenUnchanged(evs: seq<Event>)
    requires unchanged(evs)
    ensures old(Flatten(evs)) == Flatten(evs)
  {
  }

  /** The events held in the lists of a classification. */
  ghost function Objects(g: OrderedMap<seq<Event>>): (r: set<Event>)
    ensures forall c, e :: c in g.entries && e in g.entries[c] ==> e in r
  {
    set c, e | c in g.entries && e in g.entries[c] :: e
  }

  /** The flattened readings of every category of a classification. */
  ghost function ReadingsOf(g: OrderedMap<seq<Event>>): (data: map<string, Readings>)
    reads Objects(g)
    ensures data.Keys == g.entries.Keys
    ensures forall c :: c in data ==> data[c] == Flatten(g.entries[c])
    ensures AllAligned(data)
  {
    assert forall c, e :: c in g.entries && e in g.entries[c] ==> e in Objects(g);
    map c | c in g.entries :: Flatten(g.entries[c])
  }

  ghost predicate AllAligned(data: map<string, Readings>) {
    forall c :: c in data ==> data[c].Aligned()
  }

  /** The readings of a classification depend on nothing but its events'
      fields. */
  twostate lemma ReadingsUnchanged(g: OrderedMap<seq<Event>>)
    requires unchanged(Objects(g))
    ensures old(ReadingsOf(g)) == ReadingsOf(g)
  {
    forall c | c in g.entries
      ensures old(Flatten(g.entries[c])) == Flatten(g.entries[c])
    {
      FlattenUnchanged(g.entries[c]);
    }
  }

  /** The point set of one category: its flattened readings with normalised
      values, merged by `intensity` when asked to (lines 298-317). */
  function CategoryPoints(readings: Readings, intensify: bool): Result<Points>
    requires readings.Aligned()
  {
    var normalised := Normalised(readings.value);
    if normalised.Failure? then Failure(normalised.error)
    else if intensify then Success(Unzip(Intensity.Intensified(readings.x, readings.y, normalised.value)))
    else Success(Points(readings.x, readings.y, normalised.value))
  }

  /** A category fails exactly when its values cannot be normalised, with
      ZeroDivisionError; otherwise its three lists have one entry per point
      and at most as many points as it has readings. */
  lemma CategoryPointsOutcome(readings: Readings, intensify: bool)
    requires readings.Aligned()
    ensures CategoryPoints(readings, intensify).Success? <==> Normalised(readings.value).Success?
    ensures CategoryPoints(readings, intensify).Failure? ==> CategoryPoints(readings, intensify).error == ZeroDivision
    ensures var r := CategoryPoints(readings, intensify);
            r.Success? ==> |r.value.x| == |r.value.y| == |r.value.value| <= |readings.x|
  {
    var normalised := Normalised(readings.value);
    if normalised.Success? && intensify {
      Intensity.IntensifiedLength(readings.x, readings.y, normalised.value);
    }
  }

  /** The categories whose selector is set, in classification order. */
  function Selected(keys: seq<string>, checked: seq<bool>): (r: seq<string>)
    requires |keys| <= |checked|
    ensures |r| <= |keys|
    ensures forall c :: c in r ==> c in keys
    ensures forall j :: 0 <= j < |keys| && checked[j] ==> keys[j] in r
    ensures Distinct(keys) ==> Distinct(r)
    ensures Distinct(keys) ==> forall j :: 0 <= j < |keys| && !checked[j] ==> keys[j] !in r
  {
    if keys == [] then []
    else
      var n := |keys| - 1;
      var init := Selected(keys[..n], checked);
      assert forall c :: c in keys <==> c in keys[..n] || c == keys[n];
      assert Distinct(keys) ==> Distinct(keys[..n]) && keys[n] !in keys[..n];
      assert forall j :: 0 <= j < n ==> keys[..n][j] == keys[j];
      if checked[n] then init + [keys[n]] else init
  }

  /** The selected categories of a prefix of the keys come first: the
      classification order is kept. */
  lemma {:induction false} SelectedPrefix(keys: seq<string>, checked: seq<bool>, k: nat)
    requires k <= |keys| <= |checked|
    ensures Selected(keys[..k], checked) <= Selected(keys, checked)
    decreases |keys|
  {
    if k < |keys| {
      var init := keys[..|keys| - 1];
      assert keys[..k] == init[..k];
      SelectedPrefix(init, checked, k);
    } else {
      assert keys[..k] == keys;
    }
  }

  /** A selected key at position k comes right after the selected keys
      before it. */
  lemma SelectedAt(keys: seq<string>, checked: seq<bool>, k: nat)
    requires k < |keys| <= |checked| && checked[k]
    ensures |Selected(keys[..k], checked)| < |Selected(keys, checked)|
    ensures Selected(keys, checked)[|Selected(keys[..k], checked)|] == keys[k]
  {
    var pre := keys[..k + 1];
    assert pre[..|pre| - 1] == keys[..k];
    assert pre[|pre| - 1] == keys[k];
    assert Selected(pre, checked) == Selected(keys[..k], checked) + [keys[k]];
    SelectedPrefix(keys, checked, k + 1);
  }

  /** The point set, or the error, of each category of `keys`. */
  ghost function PointSets(keys: seq<string>, data: map<string, Readings>, intensify: bool)
    : (sets: map<string, Result<Points>>)
    requires forall c :: c in keys ==> c in data
    requires AllAligned(data)
    ensures forall c :: c in keys ==> c in sets
  {
    if keys == [] then map[]
    else
      var n := |keys| - 1;
      assert forall c :: c in keys[..n] ==> c in keys;
      PointSets(keys[..n], data, intensify)[keys[n] := CategoryPoints(data[keys[n]], intensify)]
  }

  /** The outcome of a category is the point set of its readings. */
  lemma {:induction false} PointSetsAt(keys: seq<string>, data: map<string, Readings>, intensify: bool, c: string)
    requires forall c :: c in keys ==> c in data
    requires AllAligned(data)
    requires c in keys
    ensures PointSets(keys, data, intensify)[c] == CategoryPoints(data[c], intensify)
  {
    var n := |keys| - 1;
    if c != keys[n] {
      assert c in keys[..n];
      assert forall c :: c in keys[..n] ==> c in keys;
      PointSetsAt(keys[..n], data, intensify, c);
    }
  }

  /** `sets` holds, for every category of `keys`, the outcome of its
      readings in `data`. */
  ghost predicate OutcomesOf(keys: seq<string>, data: map<string, Readings>, intensify: bool,
                             sets: map<string, Result<Points>>)
  {
    && (forall c :: c in keys ==> c in sets && c in data && data[c].Aligned())
    && forall c {:trigger CategoryPoints(data[c], intensify)} ::
         c in keys ==> sets[c] == CategoryPoints(data[c], intensify)
  }

  lemma PointSetsOutcomes(keys: seq<string>, data: map<string, Readings>, intensify: bool)
    requires forall c :: c in keys ==> c in data
    requires AllAligned(data)
    ensures OutcomesOf(keys, data, intensify, PointSets(keys, data, intensify))
  {
    forall c | c in keys
      ensures PointSets(keys, data, intensify)[c] == CategoryPoints(data[c], intensify)
    {
      PointSetsAt(keys, data, intensify, c);
    }
  }

  /** The outcome of every category of a classification. */
  ghost function Outcomes(g: OrderedMap<seq<Event>>, intensify: bool): (sets: map<string, Result<Points>>)
    reads Objects(g)
    requires g.Valid()
    ensures forall c :: c in g.keys ==> c in sets
  {
    PointSets(g.keys, ReadingsOf(g), intensify)
  }

  /** What `get_coords` has built after the first n categories, given the
      outcome `sets` of every category: the point sets of the selected ones
      in order, or the error of the first selected one that fails. */
  function CoordsUpTo(keys: seq<string>, sets: map<string, Result<Points>>, checked: seq<bool>, n: nat)
    : (r: Result<OrderedMap<Points>>)
    requires forall c :: c in keys ==> c in sets
    requires n <= |keys| <= |checked|
  {
    if n == 0 then Success(EmptyMap())
    else
      var prev := CoordsUpTo(keys, sets, checked, n - 1);
      var category := keys[n - 1];
      if prev.Failure? || !checked[n - 1] then prev
      else
        match sets[category]
        case Failure(e) => Failure(e)
        case Success(points) => Success(OrderedMap(prev.value.keys + [category], prev.value.entries[category := points]))
  }

  /** What `get_coords` returns for the classification g. */
  ghost function Coords(g: OrderedMap<seq<Event>>, checked: seq<bool>, intensify: bool): Result<OrderedMap<Points>>
    reads Objects(g)
    requires g.Valid()
    requires |g.keys| <= |checked|
  {
    CoordsUpTo(g.keys, Outcomes(g, intensify), checked, |g.keys|)
  }

  /** Once a category has failed, the result stays that failure. */
  lemma {:induction false} CoordsFailureSticks(keys: seq<string>, sets: map<string, Result<Points>>, checked: seq<bool>, n: nat, m: nat)
    requires forall c :: c in keys ==> c in sets
    requires n <= m <= |keys| <= |checked|
    requires CoordsUpTo(keys, sets, checked, n).Failure?
    ensures CoordsUpTo(keys, sets, checked, m) == CoordsUpTo(keys, sets, checked, n)
    decreases m - n
  {
    if n < m {
      CoordsFailureSticks(keys, sets, checked, n, m - 1);
    }
  }

  /** The keys of the result are the selected categories, in classification
      order. */
  lemma {:induction false} CoordsKeys(keys: seq<string>, sets: map<string, Result<Points>>, checked: seq<bool>, n: nat)
    requires forall c :: c in keys ==> c in sets
    requires n <= |keys| <= |checked|
    ensures var r := CoordsUpTo(keys, sets, checked, n);
            r.Success? ==> r.value.keys == Selected(keys[..n], checked)
  {
    if n > 0 {
      CoordsKeys(keys, sets, checked, n - 1);
      assert keys[..n][..n - 1] == keys[..n - 1];
    }
  }

  /** The result holds one entry per selected category, each the point set
      of that category, and is a valid ordered dictionary. */
  lemma {:induction false} CoordsShape(keys: seq<string>, sets: map<string, Result<Points>>, checked: seq<bool>, n: nat)
    requires forall c :: c in keys ==> c in sets
    requires Distinct(keys)
    requires n <= |keys| <= |checked|
    ensures var r := CoordsUpTo(keys, sets, checked, n);
            r.Success? ==>
              && r.value.Valid()
              && r.value.keys == Selected(keys[..n], checked)
              && forall c :: c in r.value.keys ==> sets[c] == Success(r.value.entries[c])
  {
    CoordsKeys(keys, sets, checked, n);
    if n > 0 {
      CoordsShape(keys, sets, checked, n - 1);
      var r := CoordsUpTo(keys, sets, checked, n);
      var prev := CoordsUpTo(keys, sets, checked, n - 1);
      var c := keys[n - 1];
      if r.Success? && checked[n - 1] {
        assert prev.Success?;
        assert c !in prev.value.keys by {
          assert Selected(keys[..n - 1], checked) == prev.value.keys;
          assert c !in keys[..n - 1];
        }
        assert r.value == OrderedMap(prev.value.keys + [c], prev.value.entries[c := sets[c].value]);
      }
    }
  }

  /** The first n categories contain a selected one that fails. */
  ghost predicate SomeSelectedFails(keys: seq<string>, sets: map<string, Result<Points>>, checked: seq<bool>, n: nat)
    requires forall c :: c in keys ==> c in sets
    requires n <= |keys| <= |checked|
  {
    exists j :: 0 <= j < n && checked[j] && sets[keys[j]].Failure?
  }

  /** The result is a failure exactly when a selected category fails, and
      then it is the error of the first such category. */
  lemma {:induction false} CoordsFails(keys: seq<string>, sets: map<string, Result<Points>>, checked: seq<bool>, n: nat)
    requires forall c :: c in keys ==> c in sets
    requires n <= |keys| <= |checked|
    ensures CoordsUpTo(keys, sets, checked, n).Failure? <==> SomeSelectedFails(keys, sets, checked, n)
    ensures CoordsUpTo(keys, sets, checked, n).Failure? ==>
              exists j :: 0 <= j < n && checked[j] && sets[keys[j]] == Failure(CoordsUpTo(keys, sets, checked, n).error)
                          && !SomeSelectedFails(keys, sets, checked, j)
  {
    if n > 0 {
      CoordsFails(keys, sets, checked, n - 1);
      var fails := checked[n - 1] && sets[keys[n - 1]].Failure?;
      assert SomeSelectedFails(keys, sets, checked, n) <==> SomeSelectedFails(keys, sets, checked, n - 1) || fails;
      if CoordsUpTo(keys, sets, checked, n).Failure? && CoordsUpTo(keys, sets, checked, n - 1).Success? {
        assert checked[n - 1] && sets[keys[n - 1]] == Failure(CoordsUpTo(keys, sets, checked, n).error);
      }
    }
  }

  /** Over the readings of the categories: the result fails exactly when a
      selected category's values cannot be normalised, with ZeroDivisionError. */
  lemma PointSetsFail(keys: seq<string>, data: map<string, Readings>, intensify: bool, checked: seq<bool>)
    requires forall c :: c in keys ==> c in data
    requires AllAligned(data)
    requires |keys| <= |checked|
    ensures var r := CoordsUpTo(keys, PointSets(keys, data, intensify), checked, |keys|);
            && (r.Failure? <==> exists j :: 0 <= j < |keys| && checked[j] && Normalised(data[keys[j]].value).Failure?)
            && (r.Failure? ==> r.error == ZeroDivision)
  {
    var sets := PointSets(keys, data, intensify);
    CoordsFails(keys, sets, checked, |keys|);
    forall j | 0 <= j < |keys|
      ensures sets[keys[j]].Failure? <==> Normalised(data[keys[j]].value).Failure?
      ensures sets[keys[j]].Failure? ==> sets[keys[j]].error == ZeroDivision
    {
      PointSetsAt(keys, data, intensify, keys[j]);
      CategoryPointsOutcome(data[keys[j]], intensify);
    }
  }

  /** `get_coords` fails exactly when the values of a selected category
      cannot be normalised, and the error is then ZeroDivisionError. */
  lemma GetCoordsFails(g: OrderedMap<seq<Event>>, checked: seq<bool>, intensify: bool)
    requires g.Valid() && |g.keys| <= |checked|
    ensures Coords(g, checked, intensify).Failure? <==>
              exists j :: 0 <= j < |g.keys| && checked[j] && Normalised(Flatten(g.entries[g.keys[j]]).value).Failure?
    ensures Coords(g, checked, intensify).Failure? ==> Coords(g, checked, intensify).error == ZeroDivision
  {
    var data := ReadingsOf(g);
    PointSetsFail(g.keys, data, intensify, checked);
    assert forall j :: 0 <= j < |g.keys| ==> data[g.keys[j]] == Flatten(g.entries[g.keys[j]]);
  }

  /** The result holds one entry per selected category, in classification
      order; without merging, each entry's lists are the concatenation of
      its events' coordinates and the normalised concatenation of their
      values. */
  lemma CoordsWithoutIntensity(g: OrderedMap<seq<Event>>, checked: seq<bool>, c: string)
    requires g.Valid() && |g.keys| <= |checked|
    requires Coords(g, checked, false).Success?
    ensures Coords(g, checked, false).value.Valid()
    ensures Coords(g, checked, false).value.keys == Selected(g.keys, checked)
    ensures c in Coords(g, checked, false).value.keys ==>
              && Normalised(Flatten(g.entries[c]).value).Success?
              && Coords(g, checked, false).value.entries[c]
                 == Points(Flatten(g.entries[c]).x, Flatten(g.entries[c]).y, Normalised(Flatten(g.entries[c]).value).value)
  {
    CoordsShape(g.keys, Outcomes(g, false), checked, |g.keys|);
    assert g.keys[..|g.keys|] == g.keys;
    if c in Coords(g, checked, false).value.keys {
      PointSetsAt(g.keys, ReadingsOf(g), false, c);
    }
  }

  /** The loop of lines 303-307 for one category: every event's readings
      appended in event order. */
  method FlattenCategory(evs: seq<Event>) returns (xList: seq<real>, yList: seq<real>, valueList: seq<Option<real>>)
    ensures Readings(xList, yList, valueList) == Flatten(evs)
  {
    xList, yList, valueList := [], [], [];
    var m := 0;
    while m < |evs|
      invariant 0 <= m <= |evs|
      invariant Readings(xList, yList, valueList) == Flatten(evs[..m])
    {
      var event := evs[m];
      assert event in evs;
      ghost var before := Flatten(evs[..m]);
      var zipped := ZipLength(event);
      var k := 0;
      while k < zipped
        invariant 0 <= k <= zipped
        invariant xList == before.x + event.x[..k] && yList == before.y + event.y[..k]
        invariant valueList == before.value + event.value[..k]
      {
        assert event.x[..k + 1] == event.x[..k] + [event.x[k]];
        assert event.y[..k + 1] == event.y[..k] + [event.y[k]];
        assert event.value[..k + 1] == event.value[..k] + [event.value[k]];
        xList, yList, valueList := xList + [event.x[k]], yList + [event.y[k]], valueList + [event.value[k]];
        k := k + 1;
      }
      assert evs[..m + 1][..m] == evs[..m];
      m := m + 1;
    }
    assert evs[..m] == evs;
  }

  /** The body of `get_coords` for one selected category (lines 298-313):
      flatten its events' readings, normalise the values and, when asked
      to, merge close points. */
  method CategoryCoords(events: seq<Event>, intensify: bool) returns (r: Result<Points>)
    ensures r == CategoryPoints(old(Flatten(events)), intensify)
  {
    var xList, yList, valueList := FlattenCategory(events);
    var normalised := NormaliseEventsValues(valueList);
    if normalised.Failure? {
      return Failure(normalised.error);
    }
    var normalisedValues := normalised.value;
    if intensify {
      xList, yList, normalisedValues := Intensity.Intensity(xList, yList, normalisedValues);
    }
    return Success(Points(xList, yList, normalisedValues));
  }

  /** One turn of the loop of `get_coords` (lines 294-317): an unselected
      category is passed over; a selected one has its point set added, or
      its error ends the loop. `data` holds the readings of every category
      and `sets` their outcomes. */
  method VisitCategory(g: OrderedMap<seq<Event>>, checked: seq<bool>, intensify: bool, n: nat,
                       allCoords: OrderedMap<Points>, ghost data: map<string, Readings>,
                       ghost sets: map<string, Result<Points>>)
    returns (r: Result<OrderedMap<Points>>)
    requires OutcomesOf(g.keys, data, intensify, sets)
    requires n < |g.keys| <= |checked|
    requires g.keys[n] in g.entries && Flatten(g.entries[g.keys[n]]) == data[g.keys[n]]
    requires CoordsUpTo(g.keys, sets, checked, n) == Success(allCoords)
    ensures r == CoordsUpTo(g.keys, sets, checked, n + 1)
    ensures r.Failure? ==> r == CoordsUpTo(g.keys, sets, checked, |g.keys|)
  {
    if !checked[n] {
      return Success(allCoords);
    }
    var category := g.keys[n];
    assert sets[category] == CategoryPoints(data[category], intensify);
    var points := CategoryCoords(g.entries[category], intensify);
    if points.Failure? {
      CoordsFailureSticks(g.keys, sets, checked, n + 1, |g.keys|);
      return Failure(points.error);
    }
    return Success(OrderedMap(allCoords.keys + [category], allCoords.entries[category := points.value]));
  }

  /** The loop of `get_coords` (lines 292-319) over the classification g. */
  method CollectCoords(g: OrderedMap<seq<Event>>, checked: seq<bool>, intensify: bool,
                       ghost data: map<string, Readings>, ghost sets: map<string, Result<Points>>)
    returns (r: Result<OrderedMap<Points>>)
    requires |g.keys| <= |checked|
    requires forall c :: c in g.keys ==> c in g.entries && c in data
    requires forall c :: c in g.keys ==> Flatten(g.entries[c]) == data[c]
    requires OutcomesOf(g.keys, data, intensify, sets)
    ensures r == CoordsUpTo(g.keys, sets, checked, |g.keys|)
  {
    var allCoords: OrderedMap<Points> := EmptyMap();
    var n := 0;
    while n < |g.keys|
      invariant 0 <= n <= |g.keys|
      invariant CoordsUpTo(g.keys, sets, checked, n) == Success(allCoords)
    {
      FlattenUnchanged(g.entries[g.keys[n]]);
      var step := VisitCategory(g, checked, intensify, n, allCoords, data, sets);
      if step.Failure? {
        return step;
      }
      allCoords := step.value;
      n := n + 1;
    }
    return Success(allCoords);
  }

  class EventTracker {
    var events: seq<Event>
    var classifiedEvents: OrderedMap<seq<Event>>

    /** The tracker over a given event list, before classification. */
    constructor(events: seq<Event>)
      ensures this.events == events && classifiedEvents == EmptyMap()
    {
      this.events := events;
      classifiedEvents := EmptyMap();
    }

    /** `get_classified_events` (lines 166-182). */
    method GetClassifiedEvents() returns (r: Result<OrderedMap<seq<Event>>>)
      ensures r == Classified(events)
    {
      var eventsDict: OrderedMap<seq<Event>> := EmptyMap();
      var k := 0;
      while k < |events|
        invariant 0 <= k <= |events|
        invariant eventsDict == Grouped(events[..k])
      {
        var event := events[k];
        assert events[..k + 1][..k] == events[..k];
        if event.category !in eventsDict.entries {
          eventsDict := OrderedMap(eventsDict.keys + [event.category], eventsDict.entries[event.category := [event]]);
        } else {
          eventsDict := OrderedMap(eventsDict.keys,
                                   eventsDict.entries[event.category := eventsDict.entries[event.category] + [event]]);
        }
        k := k + 1;
      }
      assert events[..k] == events;
      if |eventsDict.keys| >= TooManyCategoryCount {
        return Failure(TooManyCategories);
      }
      return Success(eventsDict);
    }

    /** `get_coords` (lines 278-319): for each category whose selector is
        set, flatten its events' readings, normalise the values and, when
        asked to, merge close points. */
    method GetCoords(checked: seq<bool>, intensify: bool) returns (r: Result<OrderedMap<Points>>)
      requires classifiedEvents.Valid()
      requires |checked| >= |classifiedEvents.keys|
      ensures r == Coords(classifiedEvents, checked, intensify)
    {
      var g := classifiedEvents;
      ghost var data := ReadingsOf(g);
      ghost var sets := PointSets(g.keys, data, intensify);
      PointSetsOutcomes(g.keys, data, intensify);
      r := CollectCoords(g, checked, intensify, data, sets);
      ReadingsUnchanged(g);
    }
  }

  /** `EventTracker.__init__` (lines 116-121) over an event list given in
      place of the fetched one: the TooManyCatError of the classification
      aborts the construction. */
  method NewTracker(events: seq<Event>) returns (r: Result<EventTracker>)
    ensures r.Success? <==> Classified(events).Success?
    ensures r.Failure? ==> r.error == TooManyCategories
    ensures r.Success? ==> fresh(r.value) && r.value.events == events
    ensures r.Success? ==> r.value.classifiedEvents == Classified(events).value
  {
    var tracker := new EventTracker(events);
    var classified := tracker.GetClassifiedEvents();
    if classified.Failure? {
      return Failure(classified.error);
    }
    tracker.classifiedEvents := classified.value;
    return Success(tracker);
  }
}
