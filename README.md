# Transport station explorer: query engine and sidebar session

This project models the logic of a web map that explores transport stations
over region and province boundaries. It has two parts.

- **The query engine** is the map component. Here it is the class
  `Explorer.StationExplorer`.
  - It owns the station layer: station records from the feed become point features.
  - It runs spatial and attribute queries over the stations and shows the matches on a results layer.
  - It tallies the matched stations by transport type (`fclass`) for the chart.
  - It publishes the sorted, distinct option lists for the selectors.
  - It resolves a region or province name to the first boundary carrying that name.
  - It arms click listeners for a proximity search around a clicked point.
  - It runs an untyped query when a drawn polygon is completed, and clears everything back to the full dataset.
- **The session** is the sidebar. Here it is the class `Sidebar.Session`.
  - It holds four shared fields: the boundary `filter` (region and province names), the radius text, the selected transport type and the region/province mode.
  - It also holds the sidebar's own alert flag.
  - Its handlers overwrite these fields and forward requests to the map.

Geometry stays abstract. A `Geometry` value is a point, line, polygon or a
symbolic `Buffer(center, meters)`. The test "geometry intersects point" is a
function value that the map is constructed with, so every query property holds
for any intersection test. Each asynchronous layer query and its continuation
is one atomic step.

The radius text is parsed by `Numbers.ParseFloat`, which models JavaScript's
`parseFloat`:
- it skips leading white space and reads an optional sign, digits, an optional
  fraction and an optional exponent;
- it ignores anything after the longest numeric prefix;
- it gives `None` where `parseFloat` gives NaN.

The two radius guards differ:
- the sidebar refuses a blank radius or one that parses to a value of zero or less;
- the map additionally refuses NaN;
- `Sidebar.GuardsCompared` proves that the map's guard is the stronger one, and that the
  radii only the map refuses are exactly the non-blank texts with no numeric prefix
  (`Sidebar.UnparsableRadiusReachesMap` gives one).

On such a radius the sidebar has already cleared the boundary names and the
selected type before the map shows its alert; `Sidebar.Session.ProximityClick`
states both effects.

Each activation of a proximity search registers one more click listener, and
no listener removes any other. `armed` is therefore a sequence. A click runs
every armed listener in registration order, and each one removes itself. The
display left behind is that of the last listener. With one activation this is
the single-shot behaviour. Clearing the map does not disarm listeners: the code
of `clearFilter` (frontend/src/components/MapContainer.js:215-235) never
touches the click handler, so a proximity search armed before a clear still
runs on the next click.

`Sidebar.Session` carries a ghost `focus`: the control that last took focus.
It lets the model state the exclusion invariant `Exclusive()`:
- only the current mode's boundary name can be set;
- a boundary selection and a proximity setting (radius or type) are never both present;
- the focused control is on screen and agrees with what its focus handler cleared.

Every handler preserves `Exclusive()` when it is fired from the control the
user is on.

## Model

| member | source | states |
|---|---|---|
| Stations.ToFeature | frontend/src/components/MapContainer.js:502-517 | a record becomes a point at (longitude, latitude) whose attributes give back the record's osm_id, code, fclass and name unchanged |
| Stations.ToFeatures | frontend/src/components/MapContainer.js:504 | the feed gives one feature per record |
| Stations.ToFeaturesRoundTrip | frontend/src/components/MapContainer.js:502-517 | the i-th feature converts back to exactly the i-th record |
| Stations.Select | frontend/src/components/MapContainer.js:76-84 | a feature is matched iff it is in the layer, intersects the geometry and, when a type filter is present, has that fclass; the matches are never more than the layer |
| Stations.SelectSnoc | frontend/src/components/MapContainer.js:84-87 | the matches keep the layer's order and multiplicity: one more station at the end adds it at the end exactly when it matches |
| Stations.SelectAll | frontend/src/components/MapContainer.js:78-84 | with a geometry every station intersects and no type filter, the query returns the whole layer in order |
| Stations.Tally | frontend/src/components/MapContainer.js:94-100 | the tally has a key for exactly the fclass values that occur (null gives no key), each counting the features of that class; it is the tally used everywhere |
| Stations.CountOfPositive | frontend/src/components/MapContainer.js:97-98 | every class that occurs is counted at least once |
| Stations.CountOfAbsent | frontend/src/components/MapContainer.js:97-98 | a class that does not occur counts zero |
| Stations.CountsOfSnoc | frontend/src/components/MapContainer.js:95-99 | one more feature adds one to its class's count, or adds nothing when its fclass is null |
| Stations.TotalRemove | frontend/src/components/MapContainer.js:94-100 | a tally's total is one key's count plus the total of the rest |
| Stations.TotalBump | frontend/src/components/MapContainer.js:98 | incrementing or creating a key raises the total by one |
| Stations.TallyTotal | frontend/src/components/MapContainer.js:225-231 | the counts add up to the number of features whose fclass is not null |
| Stations.SelectCountBound | frontend/src/components/MapContainer.js:84-100 | a query's count for a class never exceeds the whole dataset's count for it |
| Stations.TypedTallyKeys | frontend/src/components/MapContainer.js:158-159 | a query filtered by a type tallies at most that one type |
| Stations.TypeValues | frontend/src/components/MapContainer.js:545-547 | the transport-type values are exactly the non-null fclass values of the layer |
| Strings.LessIrreflexive | frontend/src/components/MapContainer.js:297 | the string order used by the sort is irreflexive |
| Strings.LessTransitive | frontend/src/components/MapContainer.js:297 | the string order is transitive |
| Strings.LessTotal | frontend/src/components/MapContainer.js:297 | any two different strings are ordered one way or the other |
| Strings.Dedup | frontend/src/components/MapContainer.js:297 | the value set has no duplicates and holds exactly the input values |
| Strings.Insert | frontend/src/components/MapContainer.js:297 | inserting into a sorted list adds exactly that one element |
| Strings.Sort | frontend/src/components/MapContainer.js:297 | the sort is a permutation of its input |
| Strings.InsertAscending | frontend/src/components/MapContainer.js:297 | inserting a new value into a strictly ascending list keeps it strictly ascending |
| Strings.SortAscending | frontend/src/components/MapContainer.js:297 | a list without duplicates sorts to a strictly ascending list |
| Strings.OptionList | frontend/src/components/MapContainer.js:296-297 | an option list is strictly ascending and holds exactly the distinct input values |
| Strings.AscendingUnique | frontend/src/components/MapContainer.js:309 | two strictly ascending lists with the same members are equal |
| Strings.TailMembers | frontend/src/components/MapContainer.js:297 | the rest of a strictly ascending list holds every member except its head |
| Strings.OptionListDeterminedBySet | frontend/src/components/MapContainer.js:545-548 | the option list depends only on the set of values, not on their order or repetition |
| Boundaries.FirstMatch | frontend/src/components/MapContainer.js:111-113 | a boundary is found iff one carries the name, and it is the first one that does |
| Boundaries.BoundaryTarget | frontend/src/components/MapContainer.js:106-130 | an empty selected name (region in region mode, province otherwise) gives no query; otherwise the geometry of the first boundary of that name, and no query when none matches |
| Boundaries.TargetIgnoresOtherMode | frontend/src/components/MapContainer.js:107-119 | the name of the mode not selected has no effect |
| Numbers.SkipWhiteSpace | frontend/src/components/MapContainer.js:134 | the parse skips exactly the leading white space and line terminators |
| Numbers.DigitsEnd | frontend/src/components/MapContainer.js:134 | a digit run ends at the first non-digit |
| Numbers.NatString | frontend/src/components/MapContainer.js:134 | a decimal literal is a non-empty digit string |
| Numbers.NatStringValue | frontend/src/components/MapContainer.js:134 | a decimal literal's digits denote its value |
| Numbers.DigitsEndAt | frontend/src/components/MapContainer.js:134 | a digit run that is followed by a non-digit ends there |
| Numbers.ParseDigits | frontend/src/components/MapContainer.js:134 | any non-empty digit run followed by non-numeric text parses to the digits' value |
| Numbers.ParseNatString | frontend/src/components/MapContainer.js:134 | a decimal literal followed by non-numeric text parses to its value, the trailing text ignored |
| Numbers.ParseNegativeNatString | frontend/src/components/Sidebar.js:193 | a minus sign before a literal parses to the negated value |
| Numbers.DigitsValueBound | frontend/src/components/MapContainer.js:134 | a run of n digits denotes less than ten to the n |
| Numbers.FractionRange | frontend/src/components/MapContainer.js:134 | the digits after a decimal point denote a number in [0, 1) |
| Numbers.ParseDecimal | frontend/src/components/MapContainer.js:134 | integer digits, a point and fraction digits, followed by non-numeric text, parse to the integer plus the fraction |
| Numbers.ParseDigitsExponent | frontend/src/components/MapContainer.js:134 | any digit run, an `e` and an exponent digit run, followed by non-numeric text, parse to the mantissa digits' value scaled by ten to the exponent digits' value |
| Numbers.ParseExponent | frontend/src/components/MapContainer.js:134 | integer digits, an `e` and exponent digits, followed by non-numeric text, parse to the integer scaled by ten to the exponent |
| Explorer.RadiusValue | frontend/src/components/MapContainer.js:134-135 | an accepted radius is a positive number |
| Explorer.RadiusRejections | frontend/src/components/MapContainer.js:135-137 | a blank radius, a negative one and zero are refused |
| Explorer.RadiusAccepted | frontend/src/components/MapContainer.js:134-135 | a positive whole radius is accepted with its value |
| Explorer.RadiusAcceptsDecimal | frontend/src/components/MapContainer.js:134-135 | a positive decimal radius such as 2.5 is accepted with its value |
| Explorer.TypedClickQuery | frontend/src/components/MapContainer.js:158-159 | with no type selected a click runs the untyped query; with a type it keeps exactly the stations in the area of that type, and the chart holds only that type |
| Explorer.BoundaryOptions | frontend/src/components/MapContainer.js:296-297 | a name is offered in a boundary selector exactly when a boundary of that layer carries it |
| Explorer.StationExplorer.constructor | frontend/src/components/MapContainer.js:290-311 | the map starts without stations, with empty results and chart, no hint, no listener, and the region and province option lists built from the boundary names |
| Explorer.StationExplorer.LoadStations | frontend/src/components/MapContainer.js:502-559 | the layer holds the converted records, the type options are the sorted distinct classes and the chart is the whole dataset's tally |
| Explorer.StationExplorer.DisplayQueryResults | frontend/src/components/MapContainer.js:57-73 | the results layer is emptied and then holds one marker per feature, in order |
| Explorer.StationExplorer.ApplySpatialQuery | frontend/src/components/MapContainer.js:76-103 | without stations nothing changes; otherwise the station layer is hidden, the results show the matches and the chart is their tally, with data, hint and listeners untouched |
| Explorer.StationExplorer.ApplyFilter | frontend/src/components/MapContainer.js:106-130 | it queries exactly the boundary target with no type filter, and changes nothing when there is none |
| Explorer.StationExplorer.ActivateProximitySearch | frontend/src/components/MapContainer.js:132-141 | a blank, NaN or non-positive radius alerts and changes nothing; otherwise the hint is shown and one listener capturing the radius and the type is armed |
| Explorer.StationExplorer.FireListener | frontend/src/components/MapContainer.js:142-161 | the oldest armed listener hides the hint, shows the buffer of radius times 1000 meters around the click, queries it filtered by the captured type exactly when one was selected, and removes itself |
| Explorer.StationExplorer.MapClick | frontend/src/components/MapContainer.js:142-162 | a click runs every armed listener and disarms them all, leaving the last one's query on display; with nothing armed a click changes nothing |
| Explorer.StationExplorer.SketchCreate | frontend/src/components/MapContainer.js:443-446 | a completed polygon is queried with no type filter; any other sketch event changes nothing |
| Explorer.StationExplorer.ClearFilter | frontend/src/components/MapContainer.js:215-235 | the station layer is visible again, the results are empty and the chart is the whole dataset's tally; listeners and hint are untouched |
| Sidebar.ControlOf | frontend/src/components/Sidebar.js:33-38 | only the radius input edits the radius field |
| Sidebar.GuardsCompared | frontend/src/components/Sidebar.js:193 | whatever the sidebar refuses the map refuses too; only non-blank radii with no numeric prefix pass the sidebar and are refused by the map |
| Sidebar.UnparsableRadiusReachesMap | frontend/src/components/Sidebar.js:193 | a radius with no numeric prefix passes the sidebar's guard and is refused by the map |
| Sidebar.NonPositiveRadiusRefused | frontend/src/components/Sidebar.js:193-196 | a blank, negative or zero radius is refused by the sidebar |
| Sidebar.PositiveRadiusPasses | frontend/src/components/Sidebar.js:193 | a positive whole radius passes both guards with its value |
| Sidebar.Session.constructor | frontend/src/App.js:8-20 | the session starts with an empty filter, blank radius and type, region mode and no alert |
| Sidebar.Session.HandleInputChange | frontend/src/components/Sidebar.js:33-40 | the radius field changes only the radius; a selector changes only its own key of the filter |
| Sidebar.Session.HandleCheckboxChange | frontend/src/components/Sidebar.js:42-45 | the mode becomes the checked value and both boundary names are reset |
| Sidebar.Session.HandleFclassChange | frontend/src/components/Sidebar.js:47-49 | only the selected type changes |
| Sidebar.Session.HandleClearAll | frontend/src/components/Sidebar.js:51-59 | filter, radius and type are reset, region mode is set, and the map, when mounted, is cleared |
| Sidebar.Session.FocusBoundarySelector | frontend/src/components/Sidebar.js:107-110 | focusing a boundary selector clears the radius and the type |
| Sidebar.Session.FocusProximityInput | frontend/src/components/Sidebar.js:160-162 | focusing the radius input or the type selector clears both boundary names |
| Sidebar.Session.ApplyFilterClick | frontend/src/components/Sidebar.js:144-146 | the filter and the mode reach the map unchanged and the session is untouched |
| Sidebar.Session.ProximityClick | frontend/src/components/Sidebar.js:192-200 | a refused radius shows the alert and changes nothing else; otherwise the filter and type are cleared and the map is activated with the radius and type as they were at the press |
| Sidebar.Session.AlertTimeout | frontend/src/components/Sidebar.js:195 | the alert is hidden |

## Left out

- Rendering is not modelled, because it is user interface over libraries whose code is not part of this model. This covers:
  - the map view, web map, layer renderers and widgets (basemap gallery, layer list, editor, search, home, legend);
  - the graphic symbols;
  - the chart.js setup and the sidebar's markup.
- Zooming to the matches (`goTo`) is left out: it only moves the view.
- The separate point, line and polygon draw tools (`activateDrawPoint`, `activateDrawLine`, `activateDrawPolygon`) are left out: they only create sketches and destroy them on completion.
- The feed's network fetch, its Blob and URL wrapping, and fetch failures are left out. `LoadStations` receives the decoded records as a parameter.
- The backend (main.py) and the application wiring (App.js) are not part of this model, except App.js's initial values, which the session constructor uses.
- Asynchronous interleaving is left out. Each layer query and its continuation is one atomic step, so a stale result overtaking a newer query is not modelled.
- Explorer.StationExplorer.ActivateProximitySearch: does not model React's one-render-old handle. App.js:45 reads `mapContainerRef.current` while rendering, and `useImperativeHandle` (frontend/src/components/MapContainer.js:238-246) has no dependency list, so the sidebar calls the map functions of the previous render. The radius is read through a ref and is current, but the type a listener captures (line 158) is the one of the previous render: after "enter a radius, choose a type, press Activate" the listener can use the type from before the last change. The model passes the session's type as it is at the press.
- The sidebar always reaches the mounted map: the null handle of the first render is modelled only as "no map".
- The Sketch widget (frontend/src/components/MapContainer.js:432-436) draws onto the query-results layer, so in the source a drawn shape stays on that layer when the stations are not loaded or the shape is not a polygon. The model's results layer never holds drawn shapes.
- Numbers.ParseFloat: does not model `Infinity` or the double-precision rounding of the parsed value. Values are exact reals.
- Strings.Less: orders strings by Unicode code point rather than by UTF-16 code unit. The two orders differ only for characters outside the Basic Multilingual Plane.
- Stations.Tally: each class is a map key. Names that a plain JavaScript object would inherit (such as `constructor`) are not given special treatment, and the key order of the chart labels is not modelled.
- Quoting is not modelled: a type or boundary name containing a quote would break the generated where clause. The model compares names directly.
- Boundary features with a null name do not occur in the model.
- The distance meaning of the buffer (a station within the radius of the click) is not stated. Geometry is abstract, so only membership through the intersection test is proved.

