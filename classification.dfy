/** The grouping of events by category (`EventTracker.get_classified_events`,
    lines 166-182), stated over the events the tracker holds. */
module Classification {
  import opened Common
  import opened Events

  /** A classification with this many categories or more is refused
      (line 179). */
  const TooManyCategoryCount: nat := 9

  /** The categories of the events, in event order. */
  function CategoriesOf(evs: seq<Event>): (cs: seq<string>)
    reads evs
    ensures |cs| == |evs|
    ensures forall k :: 0 <= k < |evs| ==> cs[k] == evs[k].category
  {
    if evs == [] then [] else CategoriesOf(evs[..|evs| - 1]) + [evs[|evs| - 1].category]
  }

  /** The position of the first occurrence of c. */
  function FirstIndex(cs: seq<string>, c: string): (k: nat)
    requires c in cs
    ensures k < |cs| && cs[k] == c && forall m :: 0 <= m < k ==> cs[m] != c
  {
    if cs[0] == c then 0 else 1 + FirstIndex(cs[1..], c)
  }

  /** The distinct categories in the order they are first met. */
  function FirstSeen(cs: seq<string>): (keys: seq<string>)
    ensures Distinct(keys)
    ensures forall c :: c in keys <==> c in cs
  {
    if cs == [] then []
    else
      var init := FirstSeen(cs[..|cs| - 1]);
      assert forall c :: c in cs <==> c in cs[..|cs| - 1] || c == cs[|cs| - 1];
      if cs[|cs| - 1] in init then init else init + [cs[|cs| - 1]]
  }

  /** The events of category c, in arrival order. */
  function Bucket(evs: seq<Event>, c: string): (b: seq<Event>)
    reads evs
    ensures |b| == multiset(CategoriesOf(evs))[c]
    ensures forall e :: e in b ==> e in evs && e.category == c
  {
    if evs == [] then []
    else
      var init := Bucket(evs[..|evs| - 1], c);
      var last := evs[|evs| - 1];
      assert CategoriesOf(evs) == CategoriesOf(evs[..|evs| - 1]) + [last.category];
      assert forall e :: e in evs[..|evs| - 1] ==> e in evs;
      if last.category == c then init + [last] else init
  }

  /** The dictionary built by the loop of lines 173-177 over the events:
      a category met for the first time is added with a one-event list,
      one met before gets the event appended to its list. */
  function Grouped(evs: seq<Event>): (g: OrderedMap<seq<Event>>)
    reads evs
  {
    if evs == [] then EmptyMap()
    else
      var g := Grouped(evs[..|evs| - 1]);
      var last := evs[|evs| - 1];
      if last.category !in g.entries then
        OrderedMap(g.keys + [last.category], g.entries[last.category := [last]])
      else
        OrderedMap(g.keys, g.entries[last.category := g.entries[last.category] + [last]])
  }

  /** What `get_classified_events` returns: the grouping, or TooManyCatError
      when it holds 9 categories or more. The check comes after the grouping. */
  function Classified(evs: seq<Event>): Result<OrderedMap<seq<Event>>>
    reads evs
  {
    var g := Grouped(evs);
    if |g.keys| >= TooManyCategoryCount then Failure(TooManyCategories) else Success(g)
  }

  /** The keys of the grouping are the distinct categories in first-seen
      order, and it is a valid ordered dictionary. */
  lemma {:induction false} GroupedKeys(evs: seq<Event>)
    ensures Grouped(evs).Valid()
    ensures Grouped(evs).keys == FirstSeen(CategoriesOf(evs))
  {
    if evs != [] {
      var init := evs[..|evs| - 1];
      var last := evs[|evs| - 1];
      GroupedKeys(init);
      assert CategoriesOf(evs)[..|evs| - 1] == CategoriesOf(init);
      var g := Grouped(init);
      assert last.category in g.entries <==> last.category in g.keys;
      if last.category !in g.entries {
        var keys := g.keys + [last.category];
        assert Distinct(keys);
      }
    }
  }

  /** The list of each category holds exactly the events of that category,
      in arrival order. */
  lemma {:induction false} GroupedBuckets(evs: seq<Event>)
    ensures forall c :: c in Grouped(evs).entries ==> Grouped(evs).entries[c] == Bucket(evs, c)
  {
    if evs != [] {
      var init := evs[..|evs| - 1];
      var last := evs[|evs| - 1];
      GroupedBuckets(init);
      var g := Grouped(init);
      forall c | c in Grouped(evs).entries
        ensures Grouped(evs).entries[c] == Bucket(evs, c)
      {
        if c != last.category {
          assert c in g.entries;
          assert Bucket(evs, c) == Bucket(init, c);
        } else if c !in g.entries {
          assert Bucket(init, c) == [] by {
            GroupedKeys(init);
            assert c !in CategoriesOf(init);
            assert multiset(CategoriesOf(init))[c] == 0;
          }
        }
      }
    }
  }

  /** A list without repetitions has as many entries as it has distinct ones. */
  lemma {:induction false} DistinctCount(s: seq<string>)
    requires Distinct(s)
    ensures |set c | c in s| == |s|
  {
    if s != [] {
      var init := s[..|s| - 1];
      assert Distinct(init);
      DistinctCount(init);
      assert (set c | c in s) == (set c | c in init) + {s[|s| - 1]};
      assert s[|s| - 1] !in (set c | c in init);
    }
  }

  /** The keys come in the order of the categories' first occurrences. */
  lemma {:induction false} FirstSeenOrder(cs: seq<string>)
    ensures forall a, b :: 0 <= a < b < |FirstSeen(cs)| ==>
              FirstIndex(cs, FirstSeen(cs)[a]) < FirstIndex(cs, FirstSeen(cs)[b])
  {
    if cs != [] {
      var init := cs[..|cs| - 1];
      var last := cs[|cs| - 1];
      FirstSeenOrder(init);
      var keys := FirstSeen(init);
      forall c | c in init
        ensures FirstIndex(cs, c) == FirstIndex(init, c)
      {
        var k := FirstIndex(init, c);
        assert cs[k] == c;
        var m := FirstIndex(cs, c);
        assert m <= k;
      }
      assert forall c :: c in keys ==> c in init && c in cs;
      assert last in cs;
      if last !in keys {
        forall a | 0 <= a < |keys|
          ensures FirstIndex(cs, keys[a]) < FirstIndex(cs, last)
        {
          assert keys[a] in init;
          assert FirstIndex(cs, last) == |cs| - 1;
        }
        var r := keys + [last];
        assert forall a :: 0 <= a < |keys| ==> r[a] == keys[a];
      }
    }
  }

  /** The number of categories is the number of distinct categories of the
      events (test_natural_events_tracker.py:72-75). */
  lemma GroupedKeyCount(evs: seq<Event>)
    ensures |Grouped(evs).keys| == |set c | c in CategoriesOf(evs)|
  {
    GroupedKeys(evs);
    DistinctCount(Grouped(evs).keys);
    assert (set c | c in Grouped(evs).keys) == (set c | c in CategoriesOf(evs));
  }

  /** TooManyCatError is raised exactly when the events have nine distinct
      categories or more. */
  lemma ClassifiedFails(evs: seq<Event>)
    ensures Classified(evs).Failure? <==> |set c | c in CategoriesOf(evs)| >= TooManyCategoryCount
  {
    GroupedKeyCount(evs);
  }

  /** No events, empty dictionary (test_natural_events_tracker.py:66-69). */
  lemma ClassifiedEmpty()
    ensures Classified([]) == Success(EmptyMap())
  {
  }

  /** Nine events of nine different categories are refused
      (test_natural_events_tracker.py:86-90). */
  lemma ClassifiedNineCategories(evs: seq<Event>)
    requires |evs| == 9 && forall a, b :: 0 <= a < b < 9 ==> evs[a].category != evs[b].category
    ensures Classified(evs) == Failure(TooManyCategories)
  {
    assert Distinct(CategoriesOf(evs));
    DistinctCount(CategoriesOf(evs));
    ClassifiedFails(evs);
  }

  /** The sum of the list lengths over the given keys. */
  function TotalSize(keys: seq<string>, entries: map<string, seq<Event>>): nat
    requires forall c :: c in keys ==> c in entries
  {
    if keys == [] then 0
    else
      assert forall c :: c in keys[..|keys| - 1] ==> c in keys;
      TotalSize(keys[..|keys| - 1], entries) + |entries[keys[|keys| - 1]]|
  }

  lemma {:induction false} TotalSizeUpdate(keys: seq<string>, entries: map<string, seq<Event>>, c: string, b: seq<Event>)
    requires forall k :: k in keys ==> k in entries
    requires Distinct(keys)
    ensures c !in keys ==> TotalSize(keys, entries[c := b]) == TotalSize(keys, entries)
    ensures c in keys ==> TotalSize(keys, entries[c := b]) == TotalSize(keys, entries) - |entries[c]| + |b|
  {
    if keys != [] {
      var init := keys[..|keys| - 1];
      assert forall k :: k in init ==> k in keys;
      assert Distinct(init);
      TotalSizeUpdate(init, entries, c, b);
      assert keys[|keys| - 1] !in init;
      assert c in keys <==> c in init || c == keys[|keys| - 1];
    }
  }

  lemma TotalSizeSnoc(keys: seq<string>, entries: map<string, seq<Event>>, c: string)
    requires forall k :: k in keys ==> k in entries
    requires c in entries
    ensures TotalSize(keys + [c], entries) == TotalSize(keys, entries) + |entries[c]|
  {
    assert (keys + [c])[..|keys|] == keys;
  }

  /** Every event lands in exactly one list: the list lengths add up to the
      number of events (test_natural_events_tracker.py:43-50). */
  lemma {:induction false} GroupedPartition(evs: seq<Event>)
    ensures Grouped(evs).Valid()
    ensures TotalSize(Grouped(evs).keys, Grouped(evs).entries) == |evs|
  {
    GroupedKeys(evs);
    if evs != [] {
      var init := evs[..|evs| - 1];
      var last := evs[|evs| - 1];
      GroupedPartition(init);
      var g := Grouped(init);
      assert last.category in g.entries <==> last.category in g.keys;
      if last.category !in g.entries {
        TotalSizeUpdate(g.keys, g.entries, last.category, [last]);
        TotalSizeSnoc(g.keys, g.entries[last.category := [last]], last.category);
      } else {
        TotalSizeUpdate(g.keys, g.entries, last.category, g.entries[last.category] + [last]);
      }
    }
  }
}
