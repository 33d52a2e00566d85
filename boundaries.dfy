/**
 * The region and province layers and the name-to-geometry resolution done by
 * the "Apply Filter" action. A layer query `NOM_REG = '<name>'` (regions) or
 * `Nom = '<name>'` (provinces) is modelled as exact equality on the name;
 * the first matching feature, in layer order, supplies the geometry.
 */
module Boundaries {
  import opened Options
  import opened Geo

  datatype Boundary = Boundary(name: string, geometry: Geometry)

  /** The sidebar's `filter` object: the selected region and province names. */
  datatype BoundaryFilter = BoundaryFilter(region: string, province: string)

  const NoBoundary := BoundaryFilter("", "")

  /** The name attribute of each boundary, in layer order. */
  function Names(bs: seq<Boundary>): (r: seq<string>)
    ensures |r| == |bs|
    ensures forall i :: 0 <= i < |bs| ==> r[i] == bs[i].name
  {
    seq(|bs|, i requires 0 <= i < |bs| => bs[i].name)
  }

  /** The index of the first boundary named `name`, if any. */
  function FirstMatch(bs: seq<Boundary>, name: string): (r: Option<nat>)
    decreases |bs|
    ensures r.Some? <==> exists i :: 0 <= i < |bs| && bs[i].name == name
    ensures r.Some? ==> r.value < |bs| && bs[r.value].name == name
    ensures r.Some? ==> forall j :: 0 <= j < r.value ==> bs[j].name != name
  {
    if bs == [] then None
    else if bs[0].name == name then Some(0)
    else
      match FirstMatch(bs[1..], name)
      case None =>
        assert forall i :: 1 <= i < |bs| ==> bs[i] == bs[1..][i - 1];
        None
      case Some(i) =>
        assert forall j :: 1 <= j <= i ==> bs[j] == bs[1..][j - 1];
        Some(i + 1)
  }

  /** The geometry a name resolves to: the first match's, or nothing. */
  function Resolve(bs: seq<Boundary>, name: string): Option<Geometry> {
    match FirstMatch(bs, name)
    case None => None
    case Some(i) => Some(bs[i].geometry)
  }

  /** The name that `applyFilter` looks up: the region in region mode, the province otherwise. */
  function SelectedName(filter: BoundaryFilter, filterByRegion: bool): string {
    if filterByRegion then filter.region else filter.province
  }

  /**
   * The boundary geometry `applyFilter` queries the stations with, or
   * `None` when it issues no station query.
   */
  function BoundaryTarget(regions: seq<Boundary>, provinces: seq<Boundary>, filter: BoundaryFilter, filterByRegion: bool): (r: Option<Geometry>)
    ensures SelectedName(filter, filterByRegion) == "" ==> r == None
    ensures r.Some? <==>
      var layer, name := if filterByRegion then regions else provinces, SelectedName(filter, filterByRegion);
      name != "" && exists i :: 0 <= i < |layer| && layer[i].name == name
    ensures r.Some? ==>
      var layer, name := if filterByRegion then regions else provinces, SelectedName(filter, filterByRegion);
      exists i :: 0 <= i < |layer| && layer[i].name == name && r.value == layer[i].geometry
                  && forall j :: 0 <= j < i ==> layer[j].name != name
  {
    var layer, name := if filterByRegion then regions else provinces, SelectedName(filter, filterByRegion);
    if name == "" then None else Resolve(layer, name)
  }

  /** In region mode the province selection plays no part, and vice versa. */
  lemma TargetIgnoresOtherMode(regions: seq<Boundary>, provinces: seq<Boundary>, region: string, province: string, other: string)
    ensures BoundaryTarget(regions, provinces, BoundaryFilter(region, province), true)
         == BoundaryTarget(regions, provinces, BoundaryFilter(region, other), true)
    ensures BoundaryTarget(regions, provinces, BoundaryFilter(region, province), false)
         == BoundaryTarget(regions, provinces, BoundaryFilter(other, province), false)
  {
  }
}
