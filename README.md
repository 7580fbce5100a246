# Natural events tracker: a Dafny model of its core

The tracker reads natural-event records (storms, wildfires, volcanoes, ...).
Each record has a category and a list of point geometries with optional
magnitudes. The tracker turns every record into an `Event` and groups the
events by category, refusing nine categories or more (`TooManyCatError`).
For each category the user selects, it builds the point set handed to the
map renderer:

- the readings of the category's events, flattened in event order;
- the magnitudes rescaled into marker sizes between 20 and 420, with nulls
  getting 250;
- optionally, nearby points merged by a single greedy pass (`intensity`).

The model covers `natural_events_tracker.py`: the `Event` class, the
`EventTracker` constructor and the methods `create_events`,
`get_classified_events`, `get_radius_for_category`, `calc_dist`,
`intensity`, `normalise_events_values` and `get_coords`.

The modules follow the program:

- `Common`: optional values, results with the two exceptions of the core,
  points and point sets, and an insertion-ordered dictionary (Python's
  `dict`).
- `Events`: the `Event` class with its four setters, the raw record, and
  `create_events`.
- `Classification`: the grouping of `get_classified_events`, as functions
  over the events.
- `Normalisation`: `get_radius_for_category`, including the in-place sort
  of the collected values, and `normalise_events_values`.
- `Intensity`: `calc_dist` and `intensity`. The two loops are methods over a
  `used` array, proved against `Intensified`. `Intensified` is defined by a
  recursive scan that follows the code's control flow exactly.
- `Tracker`: the `EventTracker` class, the flattening of a category's events,
  and `get_coords` as a loop over the classification, proved against
  `Coords`.

Every loop of the source is a Dafny method with invariants. Its contract
ties the result to a specification function, and lemmas state the
properties of those functions.

### Behaviour of the code worth knowing

The model follows the code in each of these cases:

- **The largest value does not always get size 420.** The distance to the
  minimum is truncated with `int()` before it is scaled (line 271). Only the
  minimum is guaranteed size 20. The maximum gets 420 when the width of the
  range is a whole number (`NormalisedMaxWholeWidth`). Over the range
  (0, 0.5), the maximum gets 20 (`NormalisedTopTruncated`).
- **A range of zero width raises `ZeroDivisionError`.** This happens when a
  category has at least two non-null values and all of them are equal. The
  model returns it as a failure (`NormalisedFails`), and the failure
  propagates out of `get_coords` (`GetCoordsFails`).
- **Merging does not conserve the summed value.** The neighbour search never
  looks at `used[j]` (lines 227-237), so one point can be absorbed by
  several subjects (`IntensifiedAbsorbsTwice`).
- **The merge pass stops at the first used index.** The `continue` at
  line 224 skips `i += 1`, so once the outer loop meets an index marked used
  it never advances again. No later index is ever a subject. Every later
  point that no earlier subject absorbed is emitted unchanged, even when it
  has neighbours (`IntensifiedStopsAtUsed`, `IntensifiedShape`).
- **Lists of unequal length are cut short.** An event's lists may have
  different lengths: the `Event` constructor accepts any lists. `get_coords`
  zips them, which keeps only as many readings as the shortest list holds
  (`ZipLength`, `Flatten`).

## Model

| member | source | states |
|---|---|---|
| Events.Event.constructor | natural_events_tracker.py:65-69 | the new event holds exactly the given category and lists |
| Events.Event.SetX | natural_events_tracker.py:75-77 | the longitudes are replaced; category, latitudes and values are unchanged |
| Events.Event.SetY | natural_events_tracker.py:83-85 | the latitudes are replaced; the other three fields are unchanged |
| Events.Event.SetValue | natural_events_tracker.py:91-93 | the magnitudes are replaced; the other three fields are unchanged |
| Events.Event.SetCategory | natural_events_tracker.py:99-101 | the category is replaced; the three lists are unchanged |
| Events.Longitudes | natural_events_tracker.py:158-159 | one entry per geometry, in geometry order, each the geometry's first coordinate |
| Events.Latitudes | natural_events_tracker.py:158-160 | one entry per geometry, in geometry order, each the geometry's second coordinate |
| Events.Magnitudes | natural_events_tracker.py:158-161 | one entry per geometry, in geometry order, each the geometry's magnitude or null |
| Events.CreateEvent | natural_events_tracker.py:155-162 | a fresh event with the record's first category id and one longitude, latitude and magnitude per geometry, in order |
| Events.CreateEvents | natural_events_tracker.py:146-164 | one fresh, distinct, well-formed event per record, in record order, each built from its record |
| Classification.FirstSeen | natural_events_tracker.py:172-177 | the distinct categories: no repetitions, and exactly the categories that occur |
| Classification.Bucket | natural_events_tracker.py:173-177 | the events of one category: as many as the category occurs, all from the input and of that category |
| Classification.GroupedKeys | natural_events_tracker.py:172-177 | the dictionary is valid and its keys are the distinct categories in first-seen order |
| Classification.GroupedBuckets | natural_events_tracker.py:172-177 | each category's list is exactly its events, in arrival order |
| Classification.FirstSeenOrder | natural_events_tracker.py:172-177 | a key that comes earlier first occurs earlier in the events |
| Classification.GroupedPartition | test_natural_events_tracker.py:43-50 | the list lengths add up to the number of events: every event is in exactly one list |
| Classification.GroupedKeyCount | test_natural_events_tracker.py:72-75 | the number of keys is the number of distinct categories |
| Classification.ClassifiedFails | natural_events_tracker.py:179-180 | the classification fails exactly when there are nine distinct categories or more |
| Classification.ClassifiedEmpty | test_natural_events_tracker.py:66-69 | no events give the empty dictionary |
| Classification.ClassifiedNineCategories | test_natural_events_tracker.py:86-90 | nine events with pairwise different categories raise TooManyCatError |
| Normalisation.NonNull | natural_events_tracker.py:190-193 | the non-null values: exactly the values present in the list, and one entry fewer than the list for each null |
| Normalisation.NonNullCounts | natural_events_tracker.py:190-193 | each value is kept as many times as it occurs in the list |
| Normalisation.NonNullPrefix | natural_events_tracker.py:190-193 | the values of a prefix of the list come first in the result: the order of the list is kept |
| Normalisation.NonNullAt | natural_events_tracker.py:190-193 | a non-null entry at position k is appended right after the values of the entries before it |
| Normalisation.Radius | natural_events_tracker.py:184-199 | None exactly when fewer than two values are non-null; otherwise two values of the list, the first no larger than the second |
| Normalisation.RadiusBounds | natural_events_tracker.py:184-199 | every non-null value lies between the two ends of the range |
| Normalisation.SortInPlace | natural_events_tracker.py:194 | the array ends sorted and is a permutation of its old contents |
| Normalisation.SortedEnds | natural_events_tracker.py:194-198 | the first and last entries of the sorted values are their minimum and maximum |
| Normalisation.GetRadiusForCategory | natural_events_tracker.py:184-199 | the loop, sort and test compute Radius |
| Normalisation.Trunc | natural_events_tracker.py:271 | `int()` on a real truncates toward zero: the floor for non-negative arguments, and at most 1 above a negative argument |
| Normalisation.NormaliseEntry | natural_events_tracker.py:269-275 | fails with ZeroDivisionError exactly for a non-null value over a zero-width range; a null value or a missing range gives 250 |
| Normalisation.NormaliseAll | natural_events_tracker.py:266-276 | on success one size per entry, each that entry's size; fails with ZeroDivisionError exactly when some entry does |
| Normalisation.Normalised | natural_events_tracker.py:258-276 | on success as many sizes as values |
| Normalisation.NormalisedNulls | natural_events_tracker.py:274-275 | every null value gets 250 |
| Normalisation.NormaliseAllStep | natural_events_tracker.py:268-275 | one more entry appends its size, or its error ends the list |
| Normalisation.NormaliseAllFailsAt | natural_events_tracker.py:270-272 | one failing entry makes the whole list fail with ZeroDivisionError |
| Normalisation.NormaliseEventsValues | natural_events_tracker.py:258-276 | the loop returns Normalised, including its ZeroDivisionError |
| Normalisation.NormalisedWithoutRange | natural_events_tracker.py:267-275 | with fewer than two non-null values every entry gets 250 |
| Normalisation.NormalisedFails | natural_events_tracker.py:267-272 | ZeroDivisionError exactly when at least two values are non-null and all non-null values are equal |
| Normalisation.EntryBounds | natural_events_tracker.py:270-272 | a value inside a proper range gets a size in [20, 420]; the minimum gets 20, and the maximum gets 420 when the width is whole |
| Normalisation.NormalisedBounds | test_natural_events_tracker.py:97-98 | every size is between 20 and 420 |
| Normalisation.NormalisedMin | natural_events_tracker.py:270-272 | the smallest value gets 20 |
| Normalisation.NormalisedMaxWholeWidth | natural_events_tracker.py:270-272 | the largest value gets 420 when the width of the range is a whole number |
| Normalisation.ExampleRadius | natural_events_tracker.py:184-199 | the range of [1, 2, 3, None, 5] is (1, 5) |
| Normalisation.ExampleSizes | natural_events_tracker.py:266-276 | over the range (1, 5) the list [1, 2, 3, None, 5] gets [20, 120, 220, 250, 420] |
| Normalisation.NormalisedExample | test_natural_events_tracker.py:95-98 | [1, 2, 3, None, 5] is normalised to [20, 120, 220, 250, 420] |
| Normalisation.NormalisedTopTruncated | natural_events_tracker.py:270-272 | [0, 0.5] is normalised to [20, 20]: the maximum does not reach 420 |
| Intensity.CalcDist | natural_events_tracker.py:201-207 | the squared distance, which is never negative |
| Intensity.CalcDistExample | test_natural_events_tracker.py:101-104 | (5, 5) and (1, 2) are 5 apart, so the squared distance is 25 |
| Intensity.NeighboursUpTo | natural_events_tracker.py:227-237 | the neighbours found so far: increasing indices other than i, each within merge distance of i |
| Intensity.NeighboursUpToComplete | natural_events_tracker.py:227-237 | an index below k is a neighbour exactly when it is not i and lies within merge distance |
| Intensity.NeighboursComplete | natural_events_tracker.py:227-237 | j is a neighbour of i exactly when j differs from i and lies within merge distance |
| Intensity.MarkAll | natural_events_tracker.py:237 | an entry is set exactly when it was set before or its index is listed |
| Intensity.Scan | natural_events_tracker.py:222-248 | the scan keeps the length of `used`, and every subject lies between the start and the end |
| Intensity.ScanStep | natural_events_tracker.py:222-248 | at an unused subject the scan moves on, emitting the subject when it has neighbours and marking them and it used |
| Intensity.NoneUsed | natural_events_tracker.py:220 | `used` starts with every entry clear |
| Intensity.UnusedUpTo | natural_events_tracker.py:250-254 | increasing indices below k, each with a clear entry |
| Intensity.UnusedUpToComplete | natural_events_tracker.py:250-251 | an index is listed exactly when it is below k and its entry is clear |
| Intensity.ClusterPoints | natural_events_tracker.py:240-246 | one merged point per subject |
| Intensity.PointsAt | natural_events_tracker.py:250-254 | the points at the given indices, unchanged, in index order |
| Intensity.UnusedPoints | natural_events_tracker.py:250-254 | at most one point per index below k |
| Intensity.UnusedPointsAreUnusedIndices | natural_events_tracker.py:250-254 | the trailing points are exactly the points at the unused indices, unchanged and in input order |
| Intensity.UnusedPointsCount | natural_events_tracker.py:250-254 | there are as many trailing points as clear entries |
| Intensity.Select | natural_events_tracker.py:233-235 | the neighbour lists: entry m is the entry of the input at the m-th neighbour index, one entry per index |
| Intensity.CollectNeighbours | natural_events_tracker.py:225-238 | the inner loop collects the neighbours' coordinates and values in index order and marks exactly the neighbours used |
| Intensity.MergeSubject | natural_events_tracker.py:225-247 | merges exactly when there are neighbours; the merged point is the mean position with the summed value; `used` advances as the scan does |
| Intensity.VisitSubject | natural_events_tracker.py:225-248 | one outer pass keeps the ghost account of the scan and the output lists in step with the merged points |
| Intensity.AdvanceScan | natural_events_tracker.py:222-248 | after one pass the account of the scan holds at the next subject, with the subject appended when it merged |
| Intensity.MergeAll | natural_events_tracker.py:219-248 | the outer loop emits the merged points of the scan's subjects, in order, and leaves `used` as the scan does |
| Intensity.IntensifiedSplit | natural_events_tracker.py:209-256 | the output is the merged points of the scan followed by the points it left unused |
| Intensity.AppendUnusedStep | natural_events_tracker.py:250-254 | one step of the final loop appends the point at an unused index and nothing otherwise |
| Intensity.AppendUnused | natural_events_tracker.py:250-254 | the final loop appends every point whose entry is clear, in input order |
| Intensity.Intensity | natural_events_tracker.py:209-256 | the method returns the three lists of Intensified |
| Intensity.ScanCount | natural_events_tracker.py:222-248 | each merged subject uses up at least one clear entry |
| Intensity.IntensifiedLength | natural_events_tracker.py:209-256 | never more points out than in |
| Intensity.ScanIncreasing | natural_events_tracker.py:222-248 | the subjects come in increasing index order |
| Intensity.AbsorbedCons | natural_events_tracker.py:233-243 | a subject in front of further subjects takes itself, its neighbours and what the further subjects take |
| Intensity.ScanUsed | natural_events_tracker.py:222-248 | an entry is set after the scan exactly when it was set before, is a subject, or was found by a subject's neighbour search |
| Intensity.ScanShape | natural_events_tracker.py:222-248 | the scan runs to a stop that is the end or a used index; the subjects are exactly the indices before the stop that have neighbours |
| Intensity.IntensifiedShape | natural_events_tracker.py:209-256 | the output is one merged point per subject, in increasing subject order, then the points at the indices that are neither a subject nor a neighbour of one, unchanged and in input order; the subjects are exactly the indices with neighbours before the stop |
| Intensity.ClusterOfPair | natural_events_tracker.py:240-243 | a subject with one neighbour merges into the midpoint, carrying the sum of the two values |
| Intensity.IntensifiedEmpty | natural_events_tracker.py:209-256 | no points in, no points out |
| Intensity.IntensifiedSingle | natural_events_tracker.py:230 | a single point has no neighbour and comes back unchanged |
| Intensity.IntensifiedClosePair | natural_events_tracker.py:209-256 | (0, 0) and (3, 4) merge into (1.5, 2) with the summed value |
| Intensity.IntensifiedFarPair | natural_events_tracker.py:209-256 | (0, 0) and (100, 100) both come back unchanged |
| Intensity.IntensifiedAbsorbsTwice | natural_events_tracker.py:227-237 | (50, 0) is absorbed by both (0, 0) and (100, 0); the summed value then differs from the input's whenever its value is non-zero |
| Intensity.IntensifiedStopsAtUsed | natural_events_tracker.py:222-224 | after the first merge the scan stops at a used index; two later points that are neighbours come back unmerged |
| Tracker.ZipLength | natural_events_tracker.py:304 | `zip` yields as many readings as the shortest of the three lists holds |
| Tracker.Flatten | natural_events_tracker.py:303-307 | the flattened readings have three lists of one length |
| Tracker.FlattenAppend | natural_events_tracker.py:303-307 | the readings of two runs of events are those of the first followed by those of the second |
| Tracker.FlattenSingle | natural_events_tracker.py:303-307 | a single well-formed event contributes exactly its own lists |
| Tracker.FlattenCategory | natural_events_tracker.py:303-307 | the nested loop computes Flatten |
| Tracker.CategoryPointsOutcome | natural_events_tracker.py:308-313 | a category succeeds exactly when its values normalise; it fails with ZeroDivisionError; its lists have one length, at most the number of readings |
| Tracker.CategoryCoords | natural_events_tracker.py:298-313 | one category's readings, normalised and, if asked, merged, are CategoryPoints of its readings |
| Tracker.Selected | natural_events_tracker.py:294-297 | the selected keys: only keys, every key whose selector is set, none whose selector is clear, without repetitions |
| Tracker.SelectedPrefix | natural_events_tracker.py:294-297 | the selected keys of a prefix of the classification come first: classification order is kept |
| Tracker.SelectedAt | natural_events_tracker.py:294-297 | a selected key at position k comes right after the selected keys before it |
| Tracker.CoordsFailureSticks | natural_events_tracker.py:294-319 | once a category has failed, the result stays that failure |
| Tracker.CoordsKeys | natural_events_tracker.py:294-318 | the keys of the result are the selected categories, in classification order |
| Tracker.CoordsShape | natural_events_tracker.py:292-319 | the result is a valid dictionary over the selected categories, each entry that category's point set |
| Tracker.CoordsFails | natural_events_tracker.py:294-319 | the result fails exactly when a selected category fails, with the error of the first selected category that fails |
| Tracker.PointSetsFail | natural_events_tracker.py:294-319 | over the readings, the result fails exactly when a selected category's values cannot be normalised, with ZeroDivisionError |
| Tracker.GetCoordsFails | natural_events_tracker.py:278-319 | `get_coords` fails exactly when a selected category's values cannot be normalised, with ZeroDivisionError |
| Tracker.CoordsWithoutIntensity | natural_events_tracker.py:298-318 | without merging, each selected category's entry is its concatenated coordinates and normalised values |
| Tracker.VisitCategory | natural_events_tracker.py:294-318 | one turn of the loop passes over an unselected category, adds a selected one's point set, or ends with its error |
| Tracker.CollectCoords | natural_events_tracker.py:292-319 | the loop over the classification computes Coords |
| Tracker.EventTracker.constructor | natural_events_tracker.py:116-120 | the tracker holds the given events and no classification yet |
| Tracker.EventTracker.GetClassifiedEvents | natural_events_tracker.py:166-182 | the loop and the category test compute Classified |
| Tracker.EventTracker.GetCoords | natural_events_tracker.py:278-319 | the method returns Coords of the tracker's classification |
| Tracker.NewTracker | natural_events_tracker.py:116-121 | construction succeeds exactly when the classification does; it fails with TooManyCatError; on success the tracker holds the events and their classification |

## Left out

- Fetching the events (`get_events` and `get_data`, lines 123-144) is left
  out because it is HTTP I/O. `NewTracker` takes the event list as a
  parameter, and `GetDataError` is not modelled.
- The rendering methods (lines 321-446) are left out: map drawing, legend
  images and colours.
- `main.py`, the desktop form, is not part of this model.
- Intensity.CalcDist: models the squared distance without the square root.
  Reals have no `sqrt`, and `d < 60` holds exactly when `d * d < 3600` for
  a non-negative `d`.
- Floating-point rounding, infinities and NaN are not modelled: coordinates
  and magnitudes are mathematical reals.
- Magnitudes that Python holds as `int` rather than `float` are not
  distinguished.
- `used` is a list of booleans rather than of the integers 0 and 1.
- Events.CreateEvents: requires every record to name a category and every
  geometry to have at least two coordinates. Python raises `IndexError` or
  `KeyError` on other records, and those exceptions are not modelled.
  Geometries whose coordinates are nested lists (polygons) are not
  modelled either.
- Tracker.EventTracker.GetCoords: requires at least one selector per
  category. A shorter list makes Python raise `IndexError`, which is not
  modelled.
- Intensity.Intensity: requires the three lists to have equal length. The
  `zip` calls at lines 222, 227 and 250 would cut longer lists to the
  shortest one, and that case is not modelled. `get_coords` always passes
  lists of equal length, because `Flatten` keeps the three lists aligned and
  normalisation keeps the length of the value list.
