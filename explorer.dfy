/**
 * The map side of the station explorer: the mutable state behind the map
 * (station layer, its visibility, the query-results layer, the published
 * chart and option lists, the proximity hint and the armed click
 * listeners) and the actions the sidebar calls on it. Each layer query and
 * its `.then` continuation run as one step.
 */
module Explorer {
  import opened Options
  import opened Geo
  import opened Strings
  import opened Numbers
  import opened Stations
  import opened Boundaries

  /** An armed single-shot click listener, with the radius and type it captured at activation. */
  datatype ClickHandler = ClickHandler(radiusKm: real, fclass: string)

  /** What the query-results graphics layer holds. */
  datatype Graphic = StationMarker(feature: Feature) | BufferFill(area: Geometry)

  /** The Sketch widget's `create` event. */
  datatype CreateState = Start | Active | Complete | Cancel
  datatype CreateEvent = CreateEvent(state: CreateState, geometry: Geometry)

  /** The radius check of `activateProximitySearch`: the parsed radius, or `None` when it alerts. */
  function RadiusValue(text: string): (r: Option<real>)
    ensures r.Some? ==> r.value > 0.0
  {
    var v := ParseFloat(text);
    if text == "" || v.None? || v.value <= 0.0 then None else v
  }

  /** A blank, negative or zero radius is refused. */
  lemma RadiusRejections(n: nat)
    ensures RadiusValue("") == None
    ensures RadiusValue("-" + NatString(n)) == None
    ensures RadiusValue(NatString(0)) == None
  {
    ParseNegativeNatString(n);
    ParseNatString(0, "");
    assert NatString(0) + "" == NatString(0);
  }

  /** A positive whole number of kilometres, as the number input gives it, is accepted as is. */
  lemma RadiusAccepted(n: nat)
    requires n > 0
    ensures RadiusValue(NatString(n)) == Some(n as real)
  {
    ParseNatString(n, "");
    assert NatString(n) + "" == NatString(n);
  }

  /** A decimal radius such as `2.5` is accepted with its value when that value is positive. */
  lemma RadiusAcceptsDecimal(n: nat, f: string)
    requires f != [] && AllDigits(f) && (n > 0 || DigitsValue(f) > 0)
    ensures RadiusValue(NatString(n) + "." + f) == Some(n as real + FractionValue(f))
  {
    ParseDecimal(n, f, "");
    assert NatString(n) + "." + f + "" == NatString(n) + "." + f;
    FractionRange(f);
  }

  /** The attribute filter a click builds: `fclass = '<type>'` when a type is selected. */
  function TypeWhere(selectedFclass: string): (w: Option<string>)
    ensures w.Some? <==> selectedFclass != ""
    ensures w.Some? ==> w.value == selectedFclass
  {
    if selectedFclass != "" then Some(selectedFclass) else None
  }

  /**
   * A click's query: with no type selected it is the untyped query; with a
   * type selected it keeps exactly the stations in the area that have that
   * type, and the chart then holds at most that one type.
   */
  lemma TypedClickQuery(fs: seq<Feature>, g: Geometry, t: string, intersects: Intersects)
    ensures t == "" ==> Select(fs, g, TypeWhere(t), intersects) == Select(fs, g, None, intersects)
    ensures t != "" ==> forall f :: f in Select(fs, g, TypeWhere(t), intersects)
                         <==> f in fs && intersects(g, f.location) && Class(f) == Some(t)
    ensures t != "" ==> CountsOf(Select(fs, g, TypeWhere(t), intersects)).Keys <= {t}
  {
    if t != "" {
      TypedTallyKeys(fs, g, t, intersects);
    }
  }

  /** A name is offered in a boundary selector exactly when some boundary of that layer carries it. */
  lemma BoundaryOptions(bs: seq<Boundary>, x: string)
    ensures x in OptionList(Names(bs)) <==> exists b :: b in bs && b.name == x
  {
    var names := Names(bs);
    if x in names {
      var i :| 0 <= i < |names| && names[i] == x;
      assert bs[i] in bs;
    }
    if exists b :: b in bs && b.name == x {
      var b :| b in bs && b.name == x;
      var i :| 0 <= i < |bs| && bs[i] == b;
      assert names[i] == x;
    }
  }

  function Markers(fs: seq<Feature>): seq<Graphic> {
    seq(|fs|, i requires 0 <= i < |fs| => StationMarker(fs[i]))
  }

  /** The buffer a click queries: `radiusKm` kilometres, in meters, around the click. */
  function ClickArea(h: ClickHandler, p: Coord): Geometry {
    Buffer(p, h.radiusKm * 1000.0)
  }

  class StationExplorer {
    /** The geometry engine's intersects test. */
    const intersects: Intersects
    const regions: seq<Boundary>
    const provinces: seq<Boundary>

    /** The station layer: its features, whether it exists yet, and whether it is shown. */
    var stations: seq<Feature>
    var stationsLoaded: bool
    var stationsVisible: bool
    /** The query-results graphics layer. */
    var results: seq<Graphic>
    /** What has been published through the chart and option-list setters. */
    var chart: map<string, nat>
    const regionOptions: seq<string>
    const provinceOptions: seq<string>
    var transportOptions: seq<string>
    /** The "click on the map" hint and the click listeners still armed, oldest first. */
    var showHint: bool
    var armed: seq<ClickHandler>

    ghost predicate Valid()
      reads this
    {
      && (!stationsLoaded ==> stations == [] && transportOptions == [] && chart == map[])
      && (forall g :: g in results && g.StationMarker? ==> g.feature in stations)
      && (forall k :: k in chart ==> 1 <= chart[k] <= CountOf(stations, k))
      && (forall h :: h in armed ==> h.radiusKm > 0.0)
    }

    /** The hint is on exactly while some listener is armed. */
    ghost predicate HintShown()
      reads this
    {
      showHint <==> armed != []
    }

    /** The display after a query that matched `matched`. */
    ghost predicate Shows(matched: seq<Feature>)
      reads this
    {
      !stationsVisible && results == Markers(matched) && chart == CountsOf(matched)
    }

    /** The loaded data and the option lists are as before. */
    twostate predicate DataUnchanged()
      reads this
    {
      && stations == old(stations) && stationsLoaded == old(stationsLoaded)
      && transportOptions == old(transportOptions)
    }

    /**
     * The effect of `applySpatialQuery(target, where)` when `target` is
     * present and the station layer exists: the matched stations are shown
     * and tallied. Otherwise nothing changes.
     */
    twostate predicate QueryEffect(target: Option<Geometry>, where: Option<string>)
      reads this
    {
      if target.Some? && old(stationsLoaded) then
        && DataUnchanged()
        && Shows(Select(stations, target.value, where, intersects))
        && showHint == old(showHint) && armed == old(armed)
      else unchanged(this)
    }

    /**
     * The effect of `activateProximitySearch` on this radius text and type:
     * an alert and no change for a refused radius; otherwise the hint is on
     * and a listener capturing the parsed radius and the type is armed.
     */
    twostate predicate Activated(proximityRadius: string, selectedFclass: string, alerted: bool)
      reads this
    {
      && (alerted <==> RadiusValue(proximityRadius).None?)
      && (alerted ==> unchanged(this))
      && (!alerted ==>
            && showHint && armed == old(armed) + [ClickHandler(RadiusValue(proximityRadius).value, selectedFclass)]
            && HintShown() && DataUnchanged()
            && results == old(results) && chart == old(chart) && stationsVisible == old(stationsVisible))
    }

    /**
     * The effect of `clearFilter`: the station layer is shown again, the
     * results layer is empty and the chart holds the whole dataset's tally.
     * Armed listeners and the hint are untouched.
     */
    twostate predicate Cleared()
      reads this
    {
      && results == [] && DataUnchanged() && showHint == old(showHint) && armed == old(armed)
      && (stationsLoaded ==> stationsVisible && chart == CountsOf(stations))
      && (!stationsLoaded ==> stationsVisible == old(stationsVisible) && chart == old(chart))
    }

    /** The display a fired click listener leaves behind. */
    ghost predicate ShowsProximity(h: ClickHandler, p: Coord)
      reads this
    {
      if stationsLoaded then Shows(Select(stations, ClickArea(h, p), TypeWhere(h.fclass), intersects))
      else results == [BufferFill(ClickArea(h, p))]
    }

    /** The map after mounting, with the boundary layers loaded and their option lists published. */
    constructor (intersects: Intersects, regions: seq<Boundary>, provinces: seq<Boundary>)
      ensures Valid() && HintShown()
      ensures this.intersects == intersects && this.regions == regions && this.provinces == provinces
      ensures !stationsLoaded && results == [] && chart == map[] && !showHint && armed == []
      ensures regionOptions == OptionList(Names(regions)) && provinceOptions == OptionList(Names(provinces))
    {
      var regionList, provinceList := OptionList(Names(regions)), OptionList(Names(provinces));
      this.intersects := intersects;
      this.regions := regions;
      this.provinces := provinces;
      stations, stationsLoaded, stationsVisible := [], false, true;
      results, chart := [], map[];
      regionOptions, provinceOptions := regionList, provinceList;
      transportOptions := [];
      showHint, armed := false, [];
    }

    /**
     * The station feed arrived: the layer is built from the records, the
     * transport-type options are published and the chart shows the tally
     * of the whole dataset.
     */
    method LoadStations(data: seq<StationRecord>)
      requires Valid() && !stationsLoaded
      modifies this
      ensures Valid()
      ensures stationsLoaded && stations == ToFeatures(data) && stationsVisible
      ensures transportOptions == OptionList(TypeValues(stations))
      ensures chart == CountsOf(stations)
      ensures results == old(results) && showHint == old(showHint) && armed == old(armed)
    {
      var features := ToFeatures(data);
      var options := OptionList(TypeValues(features));
      var counts := Tally(features);
      forall k | k in counts ensures 1 <= counts[k] {
        CountOfPositive(features, k);
      }
      stations, stationsLoaded, stationsVisible := features, true, true;
      transportOptions, chart := options, counts;
    }

    /** `displayQueryResults`: the results layer is emptied and gets one marker per feature. */
    method DisplayQueryResults(features: seq<Feature>)
      modifies this`results
      ensures results == Markers(features)
    {
      results := [];
      for i := 0 to |features|
        invariant |results| == i
        invariant forall j :: 0 <= j < i ==> results[j] == StationMarker(features[j])
      {
        results := results + [StationMarker(features[i])];
      }
    }

    /** `applySpatialQuery`: query the station layer, then show and tally what matched. */
    method ApplySpatialQuery(g: Geometry, where: Option<string>)
      requires Valid()
      modifies this
      ensures Valid()
      ensures QueryEffect(Some(g), where)
    {
      if !stationsLoaded {
        return;
      }
      var matched := Select(stations, g, where, intersects);
      var counts := Tally(matched);
      forall k | k in counts ensures 1 <= counts[k] <= CountOf(stations, k) {
        CountOfPositive(matched, k);
        SelectCountBound(stations, g, where, intersects, k);
      }
      stationsVisible := false;
      DisplayQueryResults(matched);
      chart := counts;
    }

    /** `applyFilter`: resolve the selected region or province and query with its geometry. */
    method ApplyFilter(filter: BoundaryFilter, filterByRegion: bool)
      requires Valid()
      modifies this
      ensures Valid()
      ensures QueryEffect(BoundaryTarget(regions, provinces, filter, filterByRegion), None)
    {
      if filterByRegion {
        if filter.region != "" {
          var boundary := Resolve(regions, filter.region);
          if boundary.Some? {
            ApplySpatialQuery(boundary.value, None);
          }
        }
      } else {
        if filter.province != "" {
          var boundary := Resolve(provinces, filter.province);
          if boundary.Some? {
            ApplySpatialQuery(boundary.value, None);
          }
        }
      }
    }

    /**
     * `activateProximitySearch`: refuse a blank, unparsable or non-positive
     * radius with an alert; otherwise show the hint and arm one more click
     * listener that captures the radius and the selected type.
     */
    method ActivateProximitySearch(proximityRadius: string, selectedFclass: string) returns (alerted: bool)
      requires Valid()
      modifies this
      ensures Valid()
      ensures Activated(proximityRadius, selectedFclass, alerted)
    {
      var radiusValue := ParseFloat(proximityRadius);
      if proximityRadius == "" || radiusValue.None? || radiusValue.value <= 0.0 {
        alerted := true;
        return;
      }
      alerted := false;
      showHint := true;
      armed := armed + [ClickHandler(radiusValue.value, selectedFclass)];
    }

    /**
     * The oldest armed listener handles a click: hide the hint, put the
     * buffer around the click on the results layer, query the stations in
     * it, filtered by the captured type when there is one, and remove itself.
     */
    method FireListener(p: Coord)
      requires Valid() && armed != []
      modifies this
      ensures Valid() && DataUnchanged() && armed == old(armed)[1..]
      ensures !showHint && ShowsProximity(old(armed)[0], p)
      ensures !stationsLoaded ==> chart == old(chart) && stationsVisible == old(stationsVisible)
    {
      var h := armed[0];
      showHint := false;
      var area := ClickArea(h, p);
      results := [BufferFill(area)];
      ApplySpatialQuery(area, TypeWhere(h.fclass));
      armed := armed[1..];
    }

    /**
     * A click on the map: every armed listener fires once, in the order it
     * was armed, and removes itself. The last listener's query is the one
     * left on display; with no listener armed the click does nothing.
     */
    method MapClick(p: Coord)
      requires Valid()
      modifies this
      ensures Valid() && (old(HintShown()) ==> HintShown())
      ensures armed == [] && DataUnchanged()
      ensures old(armed) == [] ==> unchanged(this)
      ensures old(armed) != [] ==> !showHint && ShowsProximity(old(armed)[|old(armed)| - 1], p)
      ensures !stationsLoaded ==> chart == old(chart) && stationsVisible == old(stationsVisible)
    {
      ghost var pending := armed;
      ghost var fired := 0;
      while armed != []
        invariant Valid() && DataUnchanged()
        invariant 0 <= fired <= |pending| && armed == pending[fired..]
        invariant fired == 0 ==> unchanged(this)
        invariant fired > 0 ==> !showHint && ShowsProximity(pending[fired - 1], p)
        invariant !stationsLoaded ==> chart == old(chart) && stationsVisible == old(stationsVisible)
        decreases |armed|
      {
        FireListener(p);
        fired := fired + 1;
      }
    }

    /** The Sketch widget finished a shape: a polygon runs a query with no type filter. */
    method SketchCreate(e: CreateEvent)
      requires Valid()
      modifies this
      ensures Valid()
      ensures QueryEffect(if e.state == Complete && e.geometry.Polygon? then Some(e.geometry) else None, None)
    {
      if e.state == Complete && e.geometry.Polygon? {
        ApplySpatialQuery(e.geometry, None);
      }
    }

    /**
     * `clearFilter`: show the station layer, empty the results layer and
     * publish the tally of the whole dataset. Armed listeners and the hint
     * are left as they are.
     */
    method ClearFilter()
      requires Valid()
      modifies this
      ensures Valid() && Cleared()
    {
      if stationsLoaded {
        stationsVisible := true;
      }
      results := [];
      if stationsLoaded {
        var counts := Tally(stations);
        chart := counts;
        forall k | k in chart ensures 1 <= chart[k] {
          CountOfPositive(stations, k);
        }
      }
    }
  }
}
