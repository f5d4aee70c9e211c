/** The derivations of the Leaflet donations map
    (src/components/DonationsMapLeaflet.tsx): the coordinate-enrichment
    pass over the donations, the local and fallback statistics, the
    statistics request built from the viewport, the cluster-size class, the
    map centre and the statistics panel. The geocoder and the statistics
    endpoint are parameters; rendering is not modelled. */
module DonationsMap {
  import opened Common
  import opened Types
  import opened Stats
  import DonationService

  // ---------------------------------------------------------------------
  // Coordinate enrichment (`processDonations`)
  // ---------------------------------------------------------------------

  /** The enrichment of one donation: one that already has truthy
      coordinates is kept, else a non-empty location is geocoded and, when
      the lookup finds a point, its latitude and longitude are added. */
  function Enrich(d: Donation, geocode: string -> Option<LatLng>): (r: Donation)
    // only the coordinates can change
    ensures r.(latitude := d.latitude, longitude := d.longitude) == d
    // the cases in which the donation comes back unchanged
    ensures HasCoords(d) || d.location == [] || geocode(d.location).None? ==> r == d
    // otherwise the geocoded point is added
    ensures !HasCoords(d) && d.location != [] && geocode(d.location).Some? ==>
      r.latitude == Some(geocode(d.location).value.lat) && r.longitude == Some(geocode(d.location).value.lng)
  {
    if HasCoords(d) then d
    else if d.location != [] then
      match geocode(d.location)
      case Some(c) => d.(latitude := Some(c.lat), longitude := Some(c.lng))
      case None => d
    else d
  }

  /** `donations.map(...)` under `Promise.all`: one result per donation, in
      the same order. */
  function EnrichAll(ds: seq<Donation>, geocode: string -> Option<LatLng>): (r: seq<Donation>)
    ensures |r| == |ds|
    ensures forall i :: 0 <= i < |ds| ==> r[i] == Enrich(ds[i], geocode)
  {
    if ds == [] then [] else [Enrich(ds[0], geocode)] + EnrichAll(ds[1..], geocode)
  }

  /** Enriching twice gives the same list as enriching once: a donation the
      first pass left without coordinates gets the same lookup again. This
      rests on the geocoder being a pure function of the address; the real
      Nominatim lookup can answer differently on a second request. */
  lemma EnrichIdempotent(ds: seq<Donation>, geocode: string -> Option<LatLng>)
    ensures EnrichAll(EnrichAll(ds, geocode), geocode) == EnrichAll(ds, geocode)
  {
    var once := EnrichAll(ds, geocode);
    forall i | 0 <= i < |ds| ensures Enrich(once[i], geocode) == once[i] {
      var d := ds[i];
      if !HasCoords(d) && d.location != [] && geocode(d.location).Some? {
        assert once[i].location == d.location;
      }
    }
  }

  /** A donation that has coordinates keeps them, and one that ends up
      without them had no usable location: an empty one, a failed lookup,
      or a point with a zero coordinate. */
  lemma EnrichCoords(ds: seq<Donation>, geocode: string -> Option<LatLng>, i: int)
    requires 0 <= i < |ds|
    ensures HasCoords(ds[i]) ==> HasCoords(EnrichAll(ds, geocode)[i])
    ensures !HasCoords(EnrichAll(ds, geocode)[i]) ==>
      ds[i].location == []
      || geocode(ds[i].location).None?
      || geocode(ds[i].location).value.lat == 0.0
      || geocode(ds[i].location).value.lng == 0.0
  {
  }

  // ---------------------------------------------------------------------
  // Statistics
  // ---------------------------------------------------------------------

  datatype FoodTypeCount = FoodTypeCount(foodType: string, count: int)

  datatype ClusterInfo = ClusterInfo(center: LatLng, donations: seq<int>)

  /** `DonationStatistics` as the endpoint returns it. */
  datatype Snapshot = Snapshot(
    summary: Summary,
    foodTypes: seq<FoodTypeCount>,
    clusters: seq<ClusterInfo>,
    recentActivity: seq<Donation>,
    zoomLevel: real
  )

  /** `localStatistics`: the summary of the donations that have truthy
      coordinates after enrichment. */
  function LocalSummary(withCoords: seq<Donation>): (s: Summary)
    ensures s == Summarize(WithCoords(withCoords))
    ensures s.total <= |withCoords|
    ensures s.available + s.claimed == s.total
    ensures 0.0 <= s.claimRate <= 100.0
  {
    Summarize(WithCoords(withCoords))
  }

  /** The filter distributes over concatenation. */
  lemma {:induction false} WithCoordsAppend(a: seq<Donation>, b: seq<Donation>)
    ensures WithCoords(a + b) == WithCoords(a) + WithCoords(b)
  {
    if a == [] {
      assert a + b == b;
    } else {
      assert (a + b)[0] == a[0] && (a + b)[1..] == a[1..] + b;
      WithCoordsAppend(a[1..], b);
    }
  }

  /** A donation without truthy coordinates, wherever it stands in the
      list, changes neither the local nor the fallback summary: a
      latitude or longitude of 0 excludes it. */
  lemma IgnoresDonationWithoutCoords(a: seq<Donation>, d: Donation, b: seq<Donation>)
    requires !HasCoords(d)
    ensures LocalSummary(a + [d] + b) == LocalSummary(a + b)
  {
    WithCoordsAppend(a + [d], b);
    WithCoordsAppend(a, [d]);
    WithCoordsAppend(a, b);
    assert [d][1..] == [];
    assert WithCoords([d]) == [];
    assert WithCoords(a + [d]) == WithCoords(a);
    assert WithCoords(a + [d] + b) == WithCoords(a + b);
  }

  /** The snapshot `fetchAndSetStatistics` stores when the request fails:
      the local summary, no food types, clusters or recent activity, and
      the map's current zoom. */
  function FallbackSnapshot(withCoords: seq<Donation>, zoom: real): (s: Snapshot)
    ensures s.summary == LocalSummary(withCoords)
    ensures s.summary.available + s.summary.claimed == s.summary.total
    ensures s.summary.total == 0 ==> s.summary.claimRate == 0.0
    ensures 0.0 <= s.summary.claimRate <= 100.0
    ensures s.foodTypes == [] && s.clusters == [] && s.recentActivity == []
    ensures s.zoomLevel == zoom
  {
    Snapshot(LocalSummary(withCoords), [], [], [], zoom)
  }

  /** What `mapInstance.getBounds()` and `getZoom()` report. */
  datatype Viewport = Viewport(south: real, west: real, north: real, east: real, zoom: real)

  /** The filters of the statistics request: the viewport's south, north,
      west and east edges as the latitude and longitude bounds, and its
      zoom; every filter is defined, so every key is sent. */
  function ViewportFilters(v: Viewport): (f: DonationService.Filters)
    ensures f.latMin == Some(v.south) && f.latMax == Some(v.north)
    ensures f.lngMin == Some(v.west) && f.lngMax == Some(v.east)
    ensures f.zoom == Some(v.zoom)
  {
    DonationService.Filters(Some(v.south), Some(v.north), Some(v.west), Some(v.east), Some(v.zoom))
  }

  /** The request of a viewport carries all five keys, in their fixed
      order. */
  lemma ViewportRequestKeys(v: Viewport, show: real -> string)
    ensures |DonationService.ParamsFor(ViewportFilters(v), DonationService.KeyOrder, show)| == 5
  {
    DonationService.KeyOrderEntries(ViewportFilters(v), show);
  }

  // ---------------------------------------------------------------------
  // Cluster icons (`createCustomClusterIcon`)
  // ---------------------------------------------------------------------

  datatype ClusterSize = Small | Medium | Large {
    function Rank(): nat {
      match this
      case Small => 0
      case Medium => 1
      case Large => 2
    }

    function Name(): string {
      match this
      case Small => "small"
      case Medium => "medium"
      case Large => "large"
    }
  }

  /** The class of a cluster of `count` markers. */
  function ClusterSizeOf(count: nat): (c: ClusterSize)
    ensures c == Small <==> count < 5
    ensures c == Medium <==> 5 <= count < 15
    ensures c == Large <==> 15 <= count
  {
    if count < 5 then Small else if count < 15 then Medium else Large
  }

  const ClusterBase: string := "custom-marker-cluster "
  const SizeClassPrefix: string := "marker-cluster-"
  const ClusterPrefix: string := ClusterBase + SizeClassPrefix

  /** The icon's `className`: a fixed prefix, then the size word that the
      count's thresholds select. */
  function ClusterClassName(count: nat): (s: string)
    ensures |s| > |ClusterPrefix| && s[..|ClusterPrefix|] == ClusterPrefix
    ensures s[|ClusterPrefix|..] == "small" <==> count < 5
    ensures s[|ClusterPrefix|..] == "medium" <==> 5 <= count && count < 15
    ensures s[|ClusterPrefix|..] == "large" <==> 15 <= count
  {
    var size := ClusterSizeOf(count).Name();
    var s := ClusterBase + (SizeClassPrefix + size);
    assert s == ClusterPrefix + size;
    assert s[|ClusterPrefix|..] == size;
    SizeNamesDistinct();
    s
  }

  /** The three size words are pairwise different. */
  lemma SizeNamesDistinct()
    ensures Small.Name() != Medium.Name() && Small.Name() != Large.Name() && Medium.Name() != Large.Name()
  {
    assert |Medium.Name()| == 6 && |Small.Name()| == 5 && |Large.Name()| == 5;
    assert Small.Name()[0] == 's' && Large.Name()[0] == 'l';
  }

  /** Two clusters share a class name exactly when they share a size
      class, so the three styles never collide. */
  lemma ClusterClassNamesDistinct(a: nat, b: nat)
    ensures ClusterClassName(a) == ClusterClassName(b) <==> ClusterSizeOf(a) == ClusterSizeOf(b)
  {
    if ClusterClassName(a) == ClusterClassName(b) {
      assert ClusterClassName(a)[|ClusterPrefix|..] == ClusterClassName(b)[|ClusterPrefix|..];
    }
  }

  /** A larger cluster never gets a smaller class. */
  lemma ClusterSizeMonotone(a: nat, b: nat)
    requires a <= b
    ensures ClusterSizeOf(a).Rank() <= ClusterSizeOf(b).Rank()
  {
  }

  // ---------------------------------------------------------------------
  // Map centre and initial zoom
  // ---------------------------------------------------------------------

  /** `ds.find(d => d.latitude && d.longitude)` */
  function FirstWithCoords(ds: seq<Donation>): (r: Option<nat>)
    ensures r.Some? ==>
      r.value < |ds| && HasCoords(ds[r.value]) && forall j :: 0 <= j < r.value ==> !HasCoords(ds[j])
    ensures r.None? ==> forall j :: 0 <= j < |ds| ==> !HasCoords(ds[j])
  {
    if ds == [] then None
    else if HasCoords(ds[0]) then Some(0)
    else match FirstWithCoords(ds[1..])
      case Some(i) => Some(i + 1)
      case None => None
  }

  const Boston: LatLng := LatLng(42.3601, -71.0589)

  /** `getMapCenter`: the user's location, else the first donation of the
      `donations` prop (not the enriched list) with truthy coordinates,
      else Boston. */
  function MapCenter(userLocation: Option<LatLng>, ds: seq<Donation>): (c: LatLng)
    ensures userLocation.Some? ==> c == userLocation.value
    ensures userLocation.None? && (exists d :: d in ds && HasCoords(d)) ==>
      exists i :: 0 <= i < |ds| && HasCoords(ds[i]) && (forall j :: 0 <= j < i ==> !HasCoords(ds[j]))
        && c == LatLng(ds[i].latitude.value, ds[i].longitude.value)
    ensures userLocation.None? && (forall d :: d in ds ==> !HasCoords(d)) ==> c == Boston
  {
    if userLocation.Some? then userLocation.value
    else match FirstWithCoords(ds)
      case Some(i) => LatLng(ds[i].latitude.value, ds[i].longitude.value)
      case None => Boston
  }

  /** `zoom={userLocation ? 12 : 10}` */
  function InitialZoom(userLocation: Option<LatLng>): (z: real)
    ensures z == (if userLocation.Some? then 12.0 else 10.0)
  {
    if userLocation.Some? then 12.0 else 10.0
  }

  /** The map opens at the closer zoom exactly when it is centred on the
      user; otherwise it opens at zoom 10 on a donation or on Boston. */
  lemma ZoomMatchesCenter(userLocation: Option<LatLng>, ds: seq<Donation>)
    ensures InitialZoom(userLocation) == 12.0 <==> userLocation.Some?
    ensures InitialZoom(userLocation) == 12.0 ==> MapCenter(userLocation, ds) == userLocation.value
    ensures InitialZoom(userLocation) != 12.0 ==>
      InitialZoom(userLocation) == 10.0
      && (MapCenter(userLocation, ds) == Boston
          || exists i :: 0 <= i < |ds| && HasCoords(ds[i])
               && MapCenter(userLocation, ds) == LatLng(ds[i].latitude.value, ds[i].longitude.value))
  {
    if userLocation.None? {
      match FirstWithCoords(ds)
      case Some(i) =>
        assert HasCoords(ds[i]) && MapCenter(userLocation, ds) == LatLng(ds[i].latitude.value, ds[i].longitude.value);
      case None =>
    }
  }

  // ---------------------------------------------------------------------
  // Statistics panel
  // ---------------------------------------------------------------------

  /** `remote || local` on a count: falsy only when both operands are;
      a truthy remote count is shown, a falsy one gives way to the local
      count. */
  function OrCount(remote: Option<nat>, local: nat): (n: nat)
    ensures n == 0 <==> (remote.None? || remote.value == 0) && local == 0
    ensures remote.Some? && remote.value != 0 ==> n == remote.value
    ensures remote.None? || remote.value == 0 ==> n == local
  {
    if remote.Some? && remote.value != 0 then remote.value else local
  }

  /** `remote || local` on a rate, with the same reading. */
  function OrRate(remote: Option<real>, local: real): (x: real)
    ensures x == 0.0 <==> (remote.None? || remote.value == 0.0) && local == 0.0
    ensures remote.Some? && remote.value != 0.0 ==> x == remote.value
    ensures remote.None? || remote.value == 0.0 ==> x == local
  {
    if remote.Some? && remote.value != 0.0 then remote.value else local
  }

  /** Every field that is 0 in the remote summary is 0 locally too, so
      replacing falsy remote fields by local ones changes nothing. */
  predicate ZerosAgree(remote: Summary, local: Summary) {
    (remote.total == 0 ==> local.total == 0)
    && (remote.available == 0 ==> local.available == 0)
    && (remote.claimed == 0 ==> local.claimed == 0)
    && (remote.claimRate == 0.0 ==> local.claimRate == 0.0)
  }

  /** The panel values as written: each of the four values is chosen on
      its own, the remote one when it is truthy, else the local one. The
      result is the intended panel exactly when every falsy remote field
      is falsy locally too. */
  function PanelAsWritten(remote: Option<Summary>, local: Summary): (s: Summary)
    ensures remote.None? ==> s == local
    ensures remote.Some? ==>
      s.total == OrCount(Some(remote.value.total), local.total)
      && s.available == OrCount(Some(remote.value.available), local.available)
      && s.claimed == OrCount(Some(remote.value.claimed), local.claimed)
      && s.claimRate == OrRate(Some(remote.value.claimRate), local.claimRate)
    ensures s == Panel(remote, local) <==> remote.None? || ZerosAgree(remote.value, local)
  {
    var r := if remote.Some? then Some(remote.value) else None;
    Summary(
      OrCount(if r.Some? then Some(r.value.total) else None, local.total),
      OrCount(if r.Some? then Some(r.value.available) else None, local.available),
      OrCount(if r.Some? then Some(r.value.claimed) else None, local.claimed),
      OrRate(if r.Some? then Some(r.value.claimRate) else None, local.claimRate))
  }

  /** The mixed values can disagree with each other: a remote summary of
      five available donations over a local one of three, two of them
      claimed, shows Total 5, Available 5, Claimed 2. */
  lemma PanelAsWrittenMixes()
    ensures var remote := Summary(5, 5, 0, 0.0);
      var local := Summary(3, 1, 2, 200.0 / 3.0);
      var shown := PanelAsWritten(Some(remote), local);
      remote.available + remote.claimed == remote.total
      && local.available + local.claimed == local.total
      && shown == Summary(5, 5, 2, 200.0 / 3.0)
      && shown.available + shown.claimed != shown.total
  {
  }

  /** The panel values as intended: the remote summary whole when there
      is one, else the local summary. */
  function Panel(remote: Option<Summary>, local: Summary): (s: Summary)
    ensures remote.Some? ==> s == remote.value
    ensures remote.None? ==> s == local
    // the panel never mixes sources, so it is as consistent as they are
    ensures Consistent(local) && (remote.Some? ==> Consistent(remote.value)) ==> Consistent(s)
  {
    if remote.Some? then remote.value else local
  }

  /** The shown summary is one of the two sources, so it is as
      consistent as they are. */
  lemma PanelConsistent(remote: Option<Summary>, local: Summary)
    requires remote.Some? ==> remote.value.available + remote.value.claimed == remote.value.total
    requires local.available + local.claimed == local.total
    ensures var s := Panel(remote, local); s.available + s.claimed == s.total
  {
  }

  /** The two agree whenever no remote value is falsy. */
  lemma PanelAgrees(remote: Option<Summary>, local: Summary)
    requires remote.Some? ==>
      remote.value.total != 0 && remote.value.available != 0 && remote.value.claimed != 0 && remote.value.claimRate != 0.0
    ensures PanelAsWritten(remote, local) == Panel(remote, local)
  {
  }

  /** `statistics || localStatistics.total > 0` */
  function PanelVisible(statistics: Option<Snapshot>, local: Summary): (b: bool)
    ensures b <==> statistics.Some? || local.total > 0
  {
    statistics.Some? || local.total > 0
  }

  /** The panel is drawn exactly when the endpoint has answered or some
      enriched donation has truthy coordinates. */
  lemma PanelVisibleIff(statistics: Option<Snapshot>, withCoords: seq<Donation>)
    ensures PanelVisible(statistics, LocalSummary(withCoords)) <==>
      statistics.Some? || exists d :: d in withCoords && HasCoords(d)
  {
    var w := WithCoords(withCoords);
    if w != [] {
      assert w[0] in w;
    }
  }

  // ---------------------------------------------------------------------
  // Component state
  // ---------------------------------------------------------------------

  /** The state of one `DonationsMapLeaflet`: its props and the state
      hooks the modelled handlers change. `mapReady` stands for
      `mapInstance` being set; the live bounds and zoom of the map are
      passed to the handlers that read them. */
  class MapComponent {
    var donations: seq<Donation>
    var userLocation: Option<LatLng>
    var donationsWithCoords: seq<Donation>
    var statistics: Option<Snapshot>
    var currentZoom: real
    var mapReady: bool

    constructor(donations: seq<Donation>, userLocation: Option<LatLng>)
      ensures this.donations == donations && this.userLocation == userLocation
      ensures donationsWithCoords == [] && statistics == None
      ensures currentZoom == 10.0 && !mapReady
    {
      this.donations := donations;
      this.userLocation := userLocation;
      donationsWithCoords := [];
      statistics := None;
      currentZoom := 10.0;
      mapReady := false;
    }

    /** The effect on `donations`: the enriched list replaces
        `donationsWithCoords`. */
    method ProcessDonations(geocode: string -> Option<LatLng>)
      modifies this
      ensures donationsWithCoords == EnrichAll(donations, geocode)
      ensures donations == old(donations) && userLocation == old(userLocation)
      ensures statistics == old(statistics) && currentZoom == old(currentZoom) && mapReady == old(mapReady)
    {
      donationsWithCoords := EnrichAll(donations, geocode);
    }

    /** `onMapReady={setMapInstance}` */
    method MapReady()
      modifies this
      ensures mapReady
      ensures donations == old(donations) && userLocation == old(userLocation)
      ensures donationsWithCoords == old(donationsWithCoords)
      ensures statistics == old(statistics) && currentZoom == old(currentZoom)
    {
      mapReady := true;
    }

    /** `fetchAndSetStatistics`: nothing without a map; otherwise the
        filters of the current viewport are requested and `remote` is the
        endpoint's answer (`None` when the request throws), which is
        stored, or else the fallback snapshot. */
    method FetchAndSetStatistics(view: Viewport, remote: Option<Snapshot>)
      returns (request: Option<DonationService.Filters>)
      modifies this
      ensures !old(mapReady) ==> request == None && statistics == old(statistics)
      ensures old(mapReady) ==> request == Some(ViewportFilters(view))
      ensures old(mapReady) && remote.Some? ==> statistics == remote
      ensures old(mapReady) && remote.None? ==>
        statistics == Some(FallbackSnapshot(donationsWithCoords, view.zoom))
      ensures donations == old(donations) && userLocation == old(userLocation)
      ensures donationsWithCoords == old(donationsWithCoords)
      ensures currentZoom == old(currentZoom) && mapReady == old(mapReady)
    {
      if !mapReady {
        return None;
      }
      request := Some(ViewportFilters(view));
      match remote {
        case Some(stats) =>
          statistics := Some(stats);
        case None =>
          statistics := Some(FallbackSnapshot(donationsWithCoords, view.zoom));
      }
    }

    /** The debounced `handleMapChange`: with a map, record its zoom and
        refresh the statistics. */
    method HandleMapChange(view: Viewport, remote: Option<Snapshot>)
      returns (request: Option<DonationService.Filters>)
      modifies this
      ensures !old(mapReady) ==>
        request == None && currentZoom == old(currentZoom) && statistics == old(statistics)
      ensures old(mapReady) ==> currentZoom == view.zoom && request == Some(ViewportFilters(view))
      ensures old(mapReady) ==>
        statistics == Some(if remote.Some? then remote.value else FallbackSnapshot(donationsWithCoords, view.zoom))
      ensures donations == old(donations) && userLocation == old(userLocation)
      ensures donationsWithCoords == old(donationsWithCoords) && mapReady == old(mapReady)
    {
      if !mapReady {
        return None;
      }
      currentZoom := view.zoom;
      request := FetchAndSetStatistics(view, remote);
    }

    /** `localStatistics` */
    function Local(): Summary
      reads this
    {
      LocalSummary(donationsWithCoords)
    }

    /** The markers: the enriched donations with truthy coordinates. */
    function Markers(): (ms: seq<Donation>)
      reads this
      ensures forall d :: d in ms <==> d in donationsWithCoords && HasCoords(d)
    {
      WithCoords(donationsWithCoords)
    }

    /** The summary the panel shows, when it is visible: the per-field
        `||` of the remote and the local summary. When no remote field is
        falsy unless it is falsy locally, that is the remote summary. */
    function Shown(): (s: Option<Summary>)
      reads this
      ensures s.Some? <==> statistics.Some? || WithCoords(donationsWithCoords) != []
      ensures s.Some? ==> s.value == PanelAsWritten(if statistics.Some? then Some(statistics.value.summary) else None, Local())
      ensures s.Some? && statistics.None? ==> s.value == Local()
      ensures s.Some? && statistics.Some? && ZerosAgree(statistics.value.summary, Local()) ==>
        s.value == statistics.value.summary
    {
      if PanelVisible(statistics, Local()) then
        Some(PanelAsWritten(if statistics.Some? then Some(statistics.value.summary) else None, Local()))
      else None
    }
  }

  /** A server summary that reports no claims, shown over a local list
      with a claimed donation, takes its claimed count from the local
      list and its total from the server: the counts no longer add up. */
  lemma ShownMixes(m: MapComponent)
    requires m.statistics.Some?
    requires m.statistics.value.summary.available == m.statistics.value.summary.total > 0
    requires m.statistics.value.summary.claimed == 0
    requires m.Local().claimed > 0
    ensures m.Shown().Some?
    ensures m.Shown().value.available + m.Shown().value.claimed != m.Shown().value.total
  {
  }

  /** After a failed request the rendered panel shows exactly the local
      summary: the fallback snapshot carries the local summary, so every
      field of the per-field `||` agrees with it. */
  lemma FallbackShowsLocal(m: MapComponent, zoom: real)
    requires m.statistics == Some(FallbackSnapshot(m.donationsWithCoords, zoom))
    ensures m.Shown() == Some(m.Local())
  {
  }
}
