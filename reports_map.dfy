/**
 * The reports map (src/components/ReportsMap.tsx): which reports get a marker, where the map is
 * centred, and the bookkeeping of the marker list kept across renders. Drawing is not modelled.
 */
module ReportsMap {
  import opened Wrappers
  import opened Types
  import opened Seqs

  /** A coordinate is truthy in JavaScript when it is present and not zero. */
  predicate Truthy(x: Option<real>) {
    x.Some? && x.value != 0.0
  }

  /** India's bounding box, south-west (6.5, 68.1) to north-east (35.5, 97.4), edges included. */
  predicate InIndia(lat: real, lon: real) {
    6.5 <= lat <= 35.5 && 68.1 <= lon <= 97.4
  }

  predicate HasCoordsInIndia(r: Report) {
    Truthy(r.latitude) && Truthy(r.longitude) && InIndia(r.latitude.value, r.longitude.value)
  }

  /** `reportsWithCoords` */
  function Mappable(reports: seq<Report>): seq<Report> {
    Filter(reports, HasCoordsInIndia)
  }

  /**
   * The kept reports are an order-preserving subsequence of the input holding exactly the reports
   * with truthy coordinates inside India's bounding box.
   */
  lemma MappableSpec(reports: seq<Report>)
    ensures var kept := Mappable(reports);
      && Subsequence(kept, reports)
      && (forall i :: 0 <= i < |kept| ==>
            && kept[i] in reports
            && kept[i].latitude.Some? && kept[i].latitude.value != 0.0
            && kept[i].longitude.Some? && kept[i].longitude.value != 0.0
            && 6.5 <= kept[i].latitude.value <= 35.5 && 68.1 <= kept[i].longitude.value <= 97.4)
      && (forall i :: 0 <= i < |reports| && HasCoordsInIndia(reports[i]) ==> reports[i] in kept)
  {
    FilterIsSubsequence(reports, HasCoordsInIndia);
  }

  datatype LatLng = LatLng(lat: real, lng: real)

  const IndiaCentre := LatLng(20.5937, 78.9629)

  /** The first kept report's position, or the centre of India when nothing is kept. */
  function Centre(reports: seq<Report>): (c: LatLng)
    ensures var kept := Mappable(reports);
      && (kept == [] ==> c == IndiaCentre)
      && (kept != [] ==> c == LatLng(kept[0].latitude.value, kept[0].longitude.value))
      && InIndia(c.lat, c.lng)
  {
    var kept := Mappable(reports);
    if |kept| > 0 then LatLng(kept[0].latitude.value, kept[0].longitude.value) else IndiaCentre
  }

  /** A placed marker: its position, the report a click opens, and the status that colours it. */
  datatype Marker = Marker(position: LatLng, reportId: string, status: Status)

  function MarkerFor(r: Report): (m: Marker)
    requires HasCoordsInIndia(r)
    ensures InIndia(m.position.lat, m.position.lng) && m.reportId == r.id && m.status == r.status
  {
    Marker(LatLng(r.latitude.value, r.longitude.value), r.id, r.status)
  }

  /** The map instance and the marker list that persist across renders. */
  class MapView {
    /** Whether `map.current` holds a map. */
    var initialized: bool
    /** The view set when the map was created. */
    var view: Option<LatLng>
    /** `markers.current` */
    var markers: seq<Marker>

    constructor()
      ensures !initialized && view == None && markers == []
    {
      initialized := false;
      view := None;
      markers := [];
    }

    /**
     * The effect run when the reports change. Without a container it does nothing. Otherwise it
     * creates the map, centred by `Centre`, only if none exists yet; then it clears the marker
     * list and places one marker per kept report, in order; it fits the bounds exactly when some
     * report is kept.
     */
    method RunEffect(reports: seq<Report>, hasContainer: bool) returns (fitBounds: bool)
      modifies this
      ensures !hasContainer ==> !fitBounds && unchanged(this)
      ensures hasContainer ==>
        var kept := Mappable(reports);
        && initialized
        && view == (if old(initialized) then old(view) else Some(Centre(reports)))
        && |markers| == |kept|
        && (forall i :: 0 <= i < |kept| ==> markers[i] == MarkerFor(kept[i]))
        && (fitBounds <==> |kept| > 0)
    {
      fitBounds := false;
      if !hasContainer {
        return;
      }
      var kept := Mappable(reports);
      var centre := Centre(reports);
      if !initialized {
        initialized := true;
        view := Some(centre);
      }
      markers := [];
      var i := 0;
      while i < |kept|
        invariant 0 <= i <= |kept|
        invariant initialized
        invariant view == (if old(initialized) then old(view) else Some(centre))
        invariant |markers| == i
        invariant forall j :: 0 <= j < i ==> markers[j] == MarkerFor(kept[j])
      {
        markers := markers + [MarkerFor(kept[i])];
        i := i + 1;
      }
      fitBounds := |kept| > 0;
    }

    /** The effect's cleanup: every marker is removed. */
    method Cleanup()
      modifies this
      ensures markers == [] && initialized == old(initialized) && view == old(view)
    {
      markers := [];
    }

    /** The unmount cleanup: the map is removed, so the next effect creates it again. */
    method Unmount()
      modifies this
      ensures !initialized && markers == old(markers) && view == old(view)
    {
      initialized := false;
    }
  }

  /** Every placed marker lies inside India's bounding box and stands for a report of the input. */
  lemma MarkersInIndia(reports: seq<Report>, markers: seq<Marker>)
    requires var kept := Mappable(reports);
      |markers| == |kept| && forall i :: 0 <= i < |kept| ==> markers[i] == MarkerFor(kept[i])
    ensures forall i :: 0 <= i < |markers| ==>
      && InIndia(markers[i].position.lat, markers[i].position.lng)
      && exists j :: 0 <= j < |reports| && reports[j].id == markers[i].reportId
                     && reports[j].status == markers[i].status
  {
    var kept := Mappable(reports);
    forall i | 0 <= i < |markers|
      ensures exists j :: 0 <= j < |reports| && reports[j].id == markers[i].reportId
                          && reports[j].status == markers[i].status
    {
      assert kept[i] in reports;
      var j :| 0 <= j < |reports| && reports[j] == kept[i];
    }
  }
}
