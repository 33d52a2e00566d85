/**
 * The transport stations: feed records, the point features made from them,
 * the spatial-and-type selection the station layer answers, and the
 * per-category tally published to the chart.
 */
module Stations {
  import opened Options
  import opened Geo

  /** One record of the station feed; `None` is a null or missing value. */
  datatype StationRecord = StationRecord(
    longitude: real, latitude: real,
    osmId: Option<int>, code: Option<int>, fclass: Option<string>, name: Option<string>)

  datatype Attributes = Attributes(osmId: Option<int>, code: Option<int>, fclass: Option<string>, name: Option<string>)

  /** A GeoJSON point feature of the station layer. */
  datatype Feature = Feature(location: Coord, attributes: Attributes)

  /** The feed record a feature carries. */
  function ToRecord(f: Feature): StationRecord {
    StationRecord(f.location.lon, f.location.lat,
      f.attributes.osmId, f.attributes.code, f.attributes.fclass, f.attributes.name)
  }

  /** A record as a point at (longitude, latitude) with its four properties. */
  function ToFeature(rec: StationRecord): (f: Feature)
    ensures f.location == Coord(rec.longitude, rec.latitude)
    ensures ToRecord(f) == rec
  {
    Feature(Coord(rec.longitude, rec.latitude), Attributes(rec.osmId, rec.code, rec.fclass, rec.name))
  }

  function ToFeatures(data: seq<StationRecord>): (fs: seq<Feature>)
    ensures |fs| == |data|
  {
    seq(|data|, i requires 0 <= i < |data| => ToFeature(data[i]))
  }

  /** The conversion loses nothing and keeps the feed's order. */
  lemma ToFeaturesRoundTrip(data: seq<StationRecord>)
    ensures forall i :: 0 <= i < |data| ==> ToRecord(ToFeatures(data)[i]) == data[i]
  {
  }

  function Class(f: Feature): Option<string> { f.attributes.fclass }

  /** The layer query's filter: intersects the geometry and, when a type is given, has that type. */
  predicate Matches(f: Feature, g: Geometry, where: Option<string>, intersects: Intersects) {
    intersects(g, f.location) && (where.None? || Class(f) == Some(where.value))
  }

  /** The features of `fs` that match, in the layer's order. */
  function Select(fs: seq<Feature>, g: Geometry, where: Option<string>, intersects: Intersects): (r: seq<Feature>)
    decreases |fs|
    ensures |r| <= |fs|
    ensures forall f :: f in r <==> f in fs && Matches(f, g, where, intersects)
  {
    if fs == [] then []
    else
      var init, last := fs[..|fs| - 1], fs[|fs| - 1];
      assert fs == init + [last];
      var r := Select(init, g, where, intersects);
      if Matches(last, g, where, intersects) then r + [last] else r
  }

  /**
   * The selection keeps the layer's order and multiplicity: one more feature
   * at the end of the layer is one more match at the end, or none.
   */
  lemma SelectSnoc(fs: seq<Feature>, f: Feature, g: Geometry, where: Option<string>, intersects: Intersects)
    ensures Select(fs + [f], g, where, intersects)
         == Select(fs, g, where, intersects) + (if Matches(f, g, where, intersects) then [f] else [])
  {
    assert (fs + [f])[..|fs + [f]| - 1] == fs;
  }

  /** A geometry that covers every station and no type filter select the whole dataset. */
  lemma {:induction false} SelectAll(fs: seq<Feature>, g: Geometry, intersects: Intersects)
    requires forall f :: f in fs ==> intersects(g, f.location)
    ensures Select(fs, g, None, intersects) == fs
    decreases |fs|
  {
    if fs != [] {
      assert fs == fs[..|fs| - 1] + [fs[|fs| - 1]];
      SelectAll(fs[..|fs| - 1], g, intersects);
    }
  }

  /** The categories present: the non-null types. */
  function Classes(fs: seq<Feature>): set<string> {
    set f | f in fs && Class(f).Some? :: Class(f).value
  }

  /** How many features of `fs` have type `k`. */
  function CountOf(fs: seq<Feature>, k: string): nat
    decreases |fs|
  {
    if fs == [] then 0
    else CountOf(fs[..|fs| - 1], k) + (if Class(fs[|fs| - 1]) == Some(k) then 1 else 0)
  }

  /** How many features of `fs` have a non-null type. */
  function Classified(fs: seq<Feature>): nat
    decreases |fs|
  {
    if fs == [] then 0
    else Classified(fs[..|fs| - 1]) + (if Class(fs[|fs| - 1]).Some? then 1 else 0)
  }

  /** The reference tally: one key per non-null type, holding its number of features. */
  function CountsOf(fs: seq<Feature>): map<string, nat> {
    map k | k in Classes(fs) :: CountOf(fs, k)
  }

  lemma {:induction false} CountOfPositive(fs: seq<Feature>, k: string)
    requires k in Classes(fs)
    ensures CountOf(fs, k) >= 1
    decreases |fs|
  {
    var init, last := fs[..|fs| - 1], fs[|fs| - 1];
    assert fs == init + [last];
    if Class(last) != Some(k) {
      var f :| f in fs && Class(f) == Some(k);
      assert f in init;
      CountOfPositive(init, k);
    }
  }

  lemma {:induction false} CountOfAbsent(fs: seq<Feature>, k: string)
    requires k !in Classes(fs)
    ensures CountOf(fs, k) == 0
    decreases |fs|
  {
    if fs != [] {
      var init, last := fs[..|fs| - 1], fs[|fs| - 1];
      assert fs == init + [last];
      assert last in fs;
      assert forall f :: f in init ==> f in fs;
      CountOfAbsent(init, k);
    }
  }

  /** Appending one feature bumps exactly its own category, adding it when new. */
  lemma CountsOfSnoc(fs: seq<Feature>, f: Feature)
    ensures CountsOf(fs + [f]) ==
      if Class(f).None? then CountsOf(fs)
      else CountsOf(fs)[Class(f).value := if Class(f).value in CountsOf(fs) then CountsOf(fs)[Class(f).value] + 1 else 1]
  {
    var s := fs + [f];
    assert s[..|s| - 1] == fs && s[|s| - 1] == f;
    assert forall g :: g in s <==> g in fs || g == f;
    if Class(f).Some? && Class(f).value !in Classes(fs) {
      CountOfAbsent(fs, Class(f).value);
    }
  }

  /**
   * The `forEach` tally: for each feature with a non-null type, bump that
   * type's counter, starting it at 1. Features without a type add no key.
   */
  method Tally(fs: seq<Feature>) returns (counts: map<string, nat>)
    ensures counts.Keys == Classes(fs)
    ensures forall k :: k in counts ==> counts[k] == CountOf(fs, k)
    ensures counts == CountsOf(fs)
  {
    counts := map[];
    var i := 0;
    while i < |fs|
      invariant 0 <= i <= |fs|
      invariant counts == CountsOf(fs[..i])
    {
      var t := Class(fs[i]);
      if t.Some? {
        counts := counts[t.value := (if t.value in counts then counts[t.value] else 0) + 1];
      }
      CountsOfSnoc(fs[..i], fs[i]);
      assert fs[..i + 1] == fs[..i] + [fs[i]];
      i := i + 1;
    }
    assert fs[..i] == fs;
  }

  ghost function Pick(keys: set<string>): string
    requires keys != {}
  {
    var k :| k in keys; k
  }

  /** The sum of a tally's values. */
  ghost function Total(m: map<string, nat>): nat
    decreases |m|
  {
    if m == map[] then 0
    else
      var k := Pick(m.Keys);
      m[k] + Total(m - {k})
  }

  lemma {:induction false} TotalRemove(m: map<string, nat>, k: string)
    requires k in m
    ensures Total(m) == m[k] + Total(m - {k})
    decreases |m|
  {
    var p := Pick(m.Keys);
    if p != k {
      var mp, mk := m - {p}, m - {k};
      assert |mp| < |m| && |mk| < |m|;
      TotalRemove(mp, k);
      TotalRemove(mk, p);
      assert mp - {k} == mk - {p};
    }
  }

  lemma TotalBump(m: map<string, nat>, k: string)
    ensures Total(m[k := if k in m then m[k] + 1 else 1]) == Total(m) + 1
  {
    var m' := m[k := if k in m then m[k] + 1 else 1];
    TotalRemove(m', k);
    if k in m {
      TotalRemove(m, k);
      assert m' - {k} == m - {k};
    } else {
      assert m' - {k} == m;
    }
  }

  /** The tally's values add up to the number of features that have a type. */
  /** One more feature adds one to the tally's total exactly when it adds one classified feature. */
  lemma TallyTotalSnoc(fs: seq<Feature>, f: Feature)
    requires Total(CountsOf(fs)) == Classified(fs)
    ensures Total(CountsOf(fs + [f])) == Classified(fs + [f])
  {
    var s := fs + [f];
    assert s[..|s| - 1] == fs && s[|s| - 1] == f;
    assert Classified(s) == Classified(fs) + (if Class(f).Some? then 1 else 0);
    CountsOfSnoc(fs, f);
    if Class(f).Some? {
      TotalBump(CountsOf(fs), Class(f).value);
    }
  }

  lemma {:induction false} TallyTotal(fs: seq<Feature>)
    ensures Total(CountsOf(fs)) == Classified(fs)
    decreases |fs|
  {
    if fs == [] {
      assert CountsOf(fs) == map[];
    } else {
      var init, last := fs[..|fs| - 1], fs[|fs| - 1];
      assert fs == init + [last];
      TallyTotal(init);
      TallyTotalSnoc(init, last);
    }
  }

  /** A query never reports more stations of a type than the dataset has. */
  lemma {:induction false} SelectCountBound(fs: seq<Feature>, g: Geometry, where: Option<string>, intersects: Intersects, k: string)
    ensures CountOf(Select(fs, g, where, intersects), k) <= CountOf(fs, k)
    decreases |fs|
  {
    if fs != [] {
      var init, last := fs[..|fs| - 1], fs[|fs| - 1];
      var r := Select(init, g, where, intersects);
      SelectCountBound(init, g, where, intersects, k);
      if Matches(last, g, where, intersects) {
        var s := r + [last];
        assert s[..|s| - 1] == r && s[|s| - 1] == last;
      }
    }
  }

  /** With a type filter the tally has at most that one key. */
  lemma TypedTallyKeys(fs: seq<Feature>, g: Geometry, t: string, intersects: Intersects)
    ensures CountsOf(Select(fs, g, Some(t), intersects)).Keys <= {t}
  {
  }

  /** `.map(f => f.attributes?.fclass).filter(v => v !== null && v !== undefined)`. */
  function TypeValues(fs: seq<Feature>): (r: seq<string>)
    decreases |fs|
    ensures forall v :: v in r <==> v in Classes(fs)
  {
    if fs == [] then []
    else
      var init, last := fs[..|fs| - 1], fs[|fs| - 1];
      assert fs == init + [last];
      assert forall f :: f in fs <==> f in init || f == last;
      var r := TypeValues(init);
      if Class(last).Some? then r + [Class(last).value] else r
  }
}
