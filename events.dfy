/** Single events and their construction from the records of the event
    feed (`Event` and `EventTracker.create_events`). */
module Events {
  import opened Common

  /** One geometry of a raw record: a point's coordinates (longitude first,
      then latitude) and its magnitude, which may be null. */
  datatype Geometry = Geometry(coordinates: seq<real>, magnitudeValue: Option<real>)

  /** A category reference of a raw record; only its id is read. */
  datatype CategoryRef = CategoryRef(id: string)

  /** A raw event record: its categories and its geometries in time order. */
  datatype RawEvent = RawEvent(categories: seq<CategoryRef>, geometry: seq<Geometry>)

  /** An event: its category id and the longitudes, latitudes and magnitudes
      of its geometries as three parallel lists. All four are properties with
      setters that overwrite them (lines 47-101). */
  class Event {
    var category: string
    var x: seq<real>
    var y: seq<real>
    var value: seq<Option<real>>

    /** The three lists describe the same geometries. */
    ghost predicate WellFormed()
      reads this
    {
      |x| == |y| == |value|
    }

    constructor(category: string, x: seq<real>, y: seq<real>, value: seq<Option<real>>)
      ensures this.category == category && this.x == x && this.y == y && this.value == value
    {
      this.category := category;
      this.x := x;
      this.y := y;
      this.value := value;
    }

    method SetX(val: seq<real>)
      modifies this
      ensures x == val
      ensures category == old(category) && y == old(y) && value == old(value)
    {
      x := val;
    }

    method SetY(val: seq<real>)
      modifies this
      ensures y == val
      ensures category == old(category) && x == old(x) && value == old(value)
    {
      y := val;
    }

    method SetValue(val: seq<Option<real>>)
      modifies this
      ensures value == val
      ensures category == old(category) && x == old(x) && y == old(y)
    {
      value := val;
    }

    method SetCategory(val: string)
      modifies this
      ensures category == val
      ensures x == old(x) && y == old(y) && value == old(value)
    {
      category := val;
    }
  }

  /** A record the construction can read: it names a category and every
      geometry is a point with at least two coordinates. */
  predicate Readable(record: RawEvent) {
    |record.categories| > 0 && forall g :: g in record.geometry ==> |g.coordinates| >= 2
  }

  /** The longitudes of a record's geometries, in geometry order. */
  function Longitudes(geometry: seq<Geometry>): (r: seq<real>)
    requires forall g :: g in geometry ==> |g.coordinates| >= 2
    ensures |r| == |geometry|
    ensures forall k :: 0 <= k < |r| ==> r[k] == geometry[k].coordinates[0]
  {
    if geometry == [] then []
    else
      assert forall g :: g in geometry[..|geometry| - 1] ==> g in geometry;
      Longitudes(geometry[..|geometry| - 1]) + [geometry[|geometry| - 1].coordinates[0]]
  }

  /** The latitudes of a record's geometries, in geometry order. */
  function Latitudes(geometry: seq<Geometry>): (r: seq<real>)
    requires forall g :: g in geometry ==> |g.coordinates| >= 2
    ensures |r| == |geometry|
    ensures forall k :: 0 <= k < |r| ==> r[k] == geometry[k].coordinates[1]
  {
    if geometry == [] then []
    else
      assert forall g :: g in geometry[..|geometry| - 1] ==> g in geometry;
      Latitudes(geometry[..|geometry| - 1]) + [geometry[|geometry| - 1].coordinates[1]]
  }

  /** The magnitudes of a record's geometries, in geometry order. */
  function Magnitudes(geometry: seq<Geometry>): (r: seq<Option<real>>)
    ensures |r| == |geometry|
    ensures forall k :: 0 <= k < |r| ==> r[k] == geometry[k].magnitudeValue
  {
    if geometry == [] then []
    else Magnitudes(geometry[..|geometry| - 1]) + [geometry[|geometry| - 1].magnitudeValue]
  }

  /** The event holds the record's first category id and one entry per
      geometry in each of its lists, in geometry order. */
  ghost predicate BuiltFrom(event: Event, record: RawEvent)
    reads event
  {
    && Readable(record)
    && event.category == record.categories[0].id
    && event.x == Longitudes(record.geometry)
    && event.y == Latitudes(record.geometry)
    && event.value == Magnitudes(record.geometry)
  }

  /** The event built from one record (lines 155-162). */
  method CreateEvent(record: RawEvent) returns (event: Event)
    requires Readable(record)
    ensures fresh(event)
    ensures BuiltFrom(event, record)
  {
    var x, y, value := [], [], [];
    var k := 0;
    while k < |record.geometry|
      invariant 0 <= k <= |record.geometry|
      invariant x == Longitudes(record.geometry[..k]) && y == Latitudes(record.geometry[..k])
      invariant value == Magnitudes(record.geometry[..k])
    {
      var geo := record.geometry[k];
      assert record.geometry[..k + 1][..k] == record.geometry[..k];
      x := x + [geo.coordinates[0]];
      y := y + [geo.coordinates[1]];
      value := value + [geo.magnitudeValue];
      k := k + 1;
    }
    assert record.geometry[..k] == record.geometry;
    event := new Event(record.categories[0].id, x, y, value);
  }

  /** `create_events` (lines 146-164): one new event per record, in record
      order, each well formed. */
  method CreateEvents(eventsData: seq<RawEvent>) returns (events: seq<Event>)
    requires forall k :: 0 <= k < |eventsData| ==> Readable(eventsData[k])
    ensures |events| == |eventsData|
    ensures forall k :: 0 <= k < |events| ==> fresh(events[k])
    ensures forall a, b :: 0 <= a < b < |events| ==> events[a] != events[b]
    ensures forall k :: 0 <= k < |eventsData| ==> BuiltFrom(events[k], eventsData[k])
    ensures forall k :: 0 <= k < |eventsData| ==> events[k].WellFormed()
  {
    events := [];
    var k := 0;
    while k < |eventsData|
      invariant 0 <= k <= |eventsData| && |events| == k
      invariant forall m :: 0 <= m < k ==> fresh(events[m])
      invariant forall a, b :: 0 <= a < b < k ==> events[a] != events[b]
      invariant forall m :: 0 <= m < k ==> BuiltFrom(events[m], eventsData[m])
    {
      var event := CreateEvent(eventsData[k]);
      events := events + [event];
      k := k + 1;
    }
  }
}
