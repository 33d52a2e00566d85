/**
 * The sidebar's session: the four fields the application shares between
 * the sidebar and the map (the boundary `filter`, the radius text, the
 * selected transport type and the region/province mode), the sidebar's own
 * alert flag, and the handlers that overwrite them.
 */
module Sidebar {
  import opened Options
  import opened Numbers
  import opened Boundaries
  import opened Explorer

  /** The `name` of the input an edit comes from. */
  datatype Field = RegionField | ProvinceField | RadiusField

  /** The sidebar controls that carry a focus handler, and everything else. */
  datatype Control = RegionSelect | ProvinceSelect | RadiusInput | TypeSelect | Elsewhere

  /** The control whose edits carry this field name. */
  function ControlOf(name: Field): (c: Control)
    ensures c != Elsewhere
    ensures name == RadiusField <==> c == RadiusInput
  {
    match name
    case RegionField => RegionSelect
    case ProvinceField => ProvinceSelect
    case RadiusField => RadiusInput
  }

  /**
   * The proximity button's own guard: a blank radius, or one whose
   * `parseFloat` is a number no greater than zero. An unparsable radius
   * (NaN) is not refused here, since NaN <= 0 is false.
   */
  predicate SidebarRejects(proximityRadius: string) {
    var v := ParseFloat(proximityRadius);
    proximityRadius == "" || (v.Some? && v.value <= 0.0)
  }

  /**
   * The two radius guards compared: every radius the sidebar refuses is
   * refused by the map as well, and the radii only the map refuses are
   * exactly the non-blank texts with no numeric prefix.
   */
  lemma GuardsCompared(proximityRadius: string)
    ensures SidebarRejects(proximityRadius) ==> RadiusValue(proximityRadius).None?
    ensures (!SidebarRejects(proximityRadius) && RadiusValue(proximityRadius).None?)
        <==> (proximityRadius != "" && ParseFloat(proximityRadius).None?)
  {
  }

  /** A radius with no numeric prefix passes the sidebar and is caught by the map. */
  lemma UnparsableRadiusReachesMap()
    ensures !SidebarRejects("km") && RadiusValue("km").None?
  {
    assert ParseFloat("km").None?;
  }

  /** A negative or zero radius is refused by the sidebar itself. */
  lemma NonPositiveRadiusRefused(n: nat)
    ensures SidebarRejects("-" + NatString(n))
    ensures SidebarRejects(NatString(0))
    ensures SidebarRejects("")
  {
    ParseNegativeNatString(n);
    ParseNatString(0, "");
    assert NatString(0) + "" == NatString(0);
  }

  /** A positive whole radius passes both guards. */
  lemma PositiveRadiusPasses(n: nat)
    requires n > 0
    ensures !SidebarRejects(NatString(n)) && RadiusValue(NatString(n)) == Some(n as real)
  {
    ParseNatString(n, "");
    assert NatString(n) + "" == NatString(n);
    NatStringValue(n);
  }

  class Session {
    var filter: BoundaryFilter
    var proximityRadius: string
    var selectedFclass: string
    var filterByRegion: bool
    var showAlert: bool
    /** The control that last took focus; a reasoning aid, not part of the program. */
    ghost var focus: Control

    /** Whether a control is on screen: only the selector of the current mode is rendered. */
    ghost predicate Rendered(c: Control)
      reads this
    {
      match c
      case RegionSelect => filterByRegion
      case ProvinceSelect => !filterByRegion
      case _ => true
    }

    /**
     * The exclusions the handlers keep: only the current mode's boundary
     * name can be set; a boundary selection and a proximity setting are
     * never both present; and the focused control is on screen and agrees
     * with what it last cleared.
     */
    ghost predicate Exclusive()
      reads this
    {
      && (filterByRegion ==> filter.province == "")
      && (!filterByRegion ==> filter.region == "")
      && (filter != NoBoundary ==> proximityRadius == "" && selectedFclass == "")
      && Rendered(focus)
      && (focus.RadiusInput? || focus.TypeSelect? ==> filter == NoBoundary)
      && (focus.RegionSelect? || focus.ProvinceSelect? ==> proximityRadius == "" && selectedFclass == "")
    }

    /** The application's initial session. */
    constructor ()
      ensures filter == NoBoundary && proximityRadius == "" && selectedFclass == ""
      ensures filterByRegion && !showAlert && focus == Elsewhere
      ensures Exclusive()
    {
      filter := NoBoundary;
      proximityRadius, selectedFclass := "", "";
      filterByRegion, showAlert := true, false;
      focus := Elsewhere;
    }

    /**
     * `handleInputChange`: the radius field writes only the radius text;
     * a boundary selector writes only its own key of the filter.
     */
    method HandleInputChange(name: Field, value: string)
      modifies this
      ensures name == RadiusField ==> proximityRadius == value && filter == old(filter)
      ensures name == RegionField ==> filter == old(filter).(region := value) && proximityRadius == old(proximityRadius)
      ensures name == ProvinceField ==> filter == old(filter).(province := value) && proximityRadius == old(proximityRadius)
      ensures selectedFclass == old(selectedFclass) && filterByRegion == old(filterByRegion)
      ensures showAlert == old(showAlert) && focus == old(focus)
      ensures old(Exclusive()) && old(focus) == ControlOf(name) ==> Exclusive()
    {
      match name
      case RadiusField =>
        proximityRadius := value;
      case RegionField =>
        filter := filter.(region := value);
      case ProvinceField =>
        filter := filter.(province := value);
    }

    /** `handleCheckboxChange`: set the mode and forget both boundary names. */
    method HandleCheckboxChange(checked: bool)
      modifies this
      ensures filterByRegion == checked && filter == NoBoundary
      ensures proximityRadius == old(proximityRadius) && selectedFclass == old(selectedFclass)
      ensures showAlert == old(showAlert) && focus == Elsewhere
      ensures old(Exclusive()) ==> Exclusive()
    {
      filterByRegion := checked;
      filter := NoBoundary;
      focus := Elsewhere;
    }

    /** `handleFclassChange`: the type selector writes only the selected type. */
    method HandleFclassChange(value: string)
      modifies this
      ensures selectedFclass == value
      ensures filter == old(filter) && proximityRadius == old(proximityRadius)
      ensures filterByRegion == old(filterByRegion) && showAlert == old(showAlert) && focus == old(focus)
      ensures old(Exclusive()) && old(focus) == TypeSelect ==> Exclusive()
    {
      selectedFclass := value;
    }

    /**
     * `handleClearAll`: reset the four session fields to their initial
     * values and, when the map is mounted, clear the map as well.
     */
    method HandleClearAll(explorer: StationExplorer?)
      requires explorer != null ==> explorer.Valid()
      modifies this, explorer
      ensures filter == NoBoundary && proximityRadius == "" && selectedFclass == "" && filterByRegion
      ensures showAlert == old(showAlert) && focus == Elsewhere
      ensures Exclusive()
      ensures explorer != null ==> explorer.Valid() && explorer.Cleared()
    {
      filter := NoBoundary;
      proximityRadius, selectedFclass := "", "";
      filterByRegion := true;
      focus := Elsewhere;
      if explorer != null {
        explorer.ClearFilter();
      }
    }

    /** The `onFocus` of the region or province selector: forget the proximity settings. */
    method FocusBoundarySelector(c: Control)
      requires c.RegionSelect? || c.ProvinceSelect?
      modifies this
      ensures proximityRadius == "" && selectedFclass == ""
      ensures filter == old(filter) && filterByRegion == old(filterByRegion) && showAlert == old(showAlert)
      ensures focus == c
      ensures old(Exclusive()) && old(Rendered(c)) ==> Exclusive()
    {
      proximityRadius, selectedFclass := "", "";
      focus := c;
    }

    /** The `onFocus` of the radius input or the type selector: forget the boundary names. */
    method FocusProximityInput(c: Control)
      requires c.RadiusInput? || c.TypeSelect?
      modifies this
      ensures filter == NoBoundary
      ensures proximityRadius == old(proximityRadius) && selectedFclass == old(selectedFclass)
      ensures filterByRegion == old(filterByRegion) && showAlert == old(showAlert)
      ensures focus == c
      ensures old(Exclusive()) ==> Exclusive()
    {
      filter := NoBoundary;
      focus := c;
    }

    /** The Apply Filter button: hand the filter and the mode to the map as they are. */
    method ApplyFilterClick(explorer: StationExplorer?)
      requires explorer != null ==> explorer.Valid()
      modifies explorer
      ensures explorer != null ==> explorer.Valid()
      ensures explorer != null ==> explorer.QueryEffect(BoundaryTarget(explorer.regions, explorer.provinces, filter, filterByRegion), None)
    {
      if explorer != null {
        explorer.ApplyFilter(filter, filterByRegion);
      }
    }

    /**
     * The Activate Proximity Search button. A radius the sidebar refuses
     * shows the alert and changes nothing else. Otherwise the boundary
     * names and the selected type are cleared and the map is asked to arm a
     * proximity search with the radius and the type as they were at the press.
     */
    method ProximityClick(explorer: StationExplorer?) returns (mapAlerted: bool)
      requires explorer != null ==> explorer.Valid()
      modifies this, explorer
      ensures proximityRadius == old(proximityRadius) && filterByRegion == old(filterByRegion)
      ensures focus == old(focus)
      ensures SidebarRejects(old(proximityRadius)) ==>
        && showAlert && !mapAlerted
        && filter == old(filter) && selectedFclass == old(selectedFclass)
        && (explorer != null ==> unchanged(explorer))
      ensures !SidebarRejects(old(proximityRadius)) ==>
        && filter == NoBoundary && selectedFclass == "" && showAlert == old(showAlert)
        && (explorer == null ==> !mapAlerted)
        && (explorer != null ==> explorer.Valid() && explorer.Activated(old(proximityRadius), old(selectedFclass), mapAlerted))
      ensures old(Exclusive()) ==> Exclusive()
    {
      mapAlerted := false;
      if SidebarRejects(proximityRadius) {
        showAlert := true;
        return;
      }
      var radius, fclass := proximityRadius, selectedFclass;
      filter := NoBoundary;
      selectedFclass := "";
      if explorer != null {
        mapAlerted := explorer.ActivateProximitySearch(radius, fclass);
      }
    }

    /** The alert's timer ran out: hide it. */
    method AlertTimeout()
      modifies this`showAlert
      ensures !showAlert
    {
      showAlert := false;
    }
  }
}
