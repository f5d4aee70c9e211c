/** The donation detail page (src/pages/DonationDetailPage.tsx): the view
    the embedded map is given (fit both points, or centre on the
    donation), the owner permissions and the buttons they show, the
    distance guard, the distance text, and what the distance rows render.
    The distance itself (Haversine) is a parameter. */
module DonationDetail {
  import opened Common
  import opened Types

  // ---------------------------------------------------------------------
  // The map view (`MapController`)
  // ---------------------------------------------------------------------

  /** `map.fitBounds([sw, ne])` or `map.setView(center, zoom)`. */
  datatype MapView = FitBounds(sw: LatLng, ne: LatLng) | SetView(center: LatLng, zoom: int)

  function Min(a: real, b: real): real { if a <= b then a else b }
  function Max(a: real, b: real): real { if a <= b then b else a }

  predicate Inside(sw: LatLng, ne: LatLng, p: LatLng) {
    sw.lat <= p.lat <= ne.lat && sw.lng <= p.lng <= ne.lng
  }

  /** The view for a donation at (`donationLat`, `donationLng`) and the
      user's coordinates, when known. */
  function MapViewFor(donationLat: real, donationLng: real, userLat: Option<real>, userLng: Option<real>): (v: MapView)
    ensures v.FitBounds? <==> Truthy(userLat) && Truthy(userLng)
    ensures v.FitBounds? ==>
      Inside(v.sw, v.ne, LatLng(donationLat, donationLng)) && Inside(v.sw, v.ne, LatLng(userLat.value, userLng.value))
    ensures v.SetView? ==> v.center == LatLng(donationLat, donationLng) && v.zoom == 15
  {
    if Truthy(userLat) && Truthy(userLng) then
      FitBounds(LatLng(Min(donationLat, userLat.value), Min(donationLng, userLng.value)),
                LatLng(Max(donationLat, userLat.value), Max(donationLng, userLng.value)))
    else SetView(LatLng(donationLat, donationLng), 15)
  }

  /** With both user coordinates truthy the map fits a box whose south-west
      corner is below and left of its north-east corner, that holds both
      points, and that is the smallest such box: each side touches one of
      them. */
  lemma FitsBothPoints(donationLat: real, donationLng: real, userLat: real, userLng: real)
    requires userLat != 0.0 && userLng != 0.0
    ensures var v := MapViewFor(donationLat, donationLng, Some(userLat), Some(userLng));
      && v.FitBounds?
      && v.sw.lat <= v.ne.lat && v.sw.lng <= v.ne.lng
      && Inside(v.sw, v.ne, LatLng(donationLat, donationLng))
      && Inside(v.sw, v.ne, LatLng(userLat, userLng))
      && (v.sw.lat == donationLat || v.sw.lat == userLat)
      && (v.ne.lat == donationLat || v.ne.lat == userLat)
      && (v.sw.lng == donationLng || v.sw.lng == userLng)
      && (v.ne.lng == donationLng || v.ne.lng == userLng)
  {
  }

  /** A box that holds both points holds the fitted box. */
  lemma FittedBoxSmallest(donationLat: real, donationLng: real, userLat: real, userLng: real, sw: LatLng, ne: LatLng)
    requires userLat != 0.0 && userLng != 0.0
    requires Inside(sw, ne, LatLng(donationLat, donationLng)) && Inside(sw, ne, LatLng(userLat, userLng))
    ensures var v := MapViewFor(donationLat, donationLng, Some(userLat), Some(userLng));
      v.FitBounds? && Inside(sw, ne, v.sw) && Inside(sw, ne, v.ne)
  {
  }

  /** Without truthy user coordinates (none, or one of them 0) the map
      centres on the donation at zoom 15. */
  lemma CentresWithoutUser(donationLat: real, donationLng: real, userLat: Option<real>, userLng: Option<real>)
    requires !Truthy(userLat) || !Truthy(userLng)
    ensures MapViewFor(donationLat, donationLng, userLat, userLng) == SetView(LatLng(donationLat, donationLng), 15)
  {
  }

  // ---------------------------------------------------------------------
  // Permissions
  // ---------------------------------------------------------------------

  /** `user?.id === donation.donor_id`: with no user the left side is
      `undefined`, which equals a missing `donor_id`. */
  predicate IsOwner(user: Option<User>, d: Donation)
    // a donation without `donor_id` belongs to no signed-in user
    ensures user.Some? && d.donorId.None? ==> !IsOwner(user, d)
    // signed out, every donation without `donor_id` counts as owned
    ensures user.None? ==> (IsOwner(user, d) <==> d.donorId.None?)
  {
    match user
    case Some(u) => d.donorId == Some(u.id)
    case None => d.donorId.None?
  }

  /** `isOwner`: Delete is offered to the owner, claimed or not. */
  predicate CanDelete(user: Option<User>, d: Donation)
    ensures CanDelete(user, d) && user.Some? ==> d.donorId == Some(user.value.id)
  {
    IsOwner(user, d)
  }

  /** `isOwner && !donation.is_claimed`: Edit only where Delete is too,
      and never on a claimed donation. */
  predicate CanEdit(user: Option<User>, d: Donation)
    ensures CanEdit(user, d) ==> CanDelete(user, d) && !d.isClaimed
  {
    IsOwner(user, d) && !d.isClaimed
  }

  /** `!donation.is_claimed && !isOwner`: Claim never beside Edit or
      Delete, and on an unclaimed donation exactly when Edit is not. */
  predicate ClaimShown(user: Option<User>, d: Donation)
    ensures ClaimShown(user, d) ==> !CanDelete(user, d) && !CanEdit(user, d)
    ensures !d.isClaimed ==> (ClaimShown(user, d) <==> !CanEdit(user, d))
  {
    !d.isClaimed && !IsOwner(user, d)
  }

  /** The owner test, for a signed-in user, compares the user's id with
      the donation's `donor_id`; a donation without one has no owner. */
  lemma OwnerIff(u: User, d: Donation)
    ensures IsOwner(Some(u), d) <==> d.donorId.Some? && d.donorId.value == u.id
    ensures d.donorId.None? ==> !CanEdit(Some(u), d) && !CanDelete(Some(u), d)
  {
  }

  /** Of Claim, Edit and Delete: Claim never shows with Edit or Delete,
      Edit shows only where Delete does, and an unclaimed donation always
      shows either Claim or Edit. */
  lemma ButtonsExclusive(user: Option<User>, d: Donation)
    ensures !(ClaimShown(user, d) && CanEdit(user, d))
    ensures !(ClaimShown(user, d) && CanDelete(user, d))
    ensures CanEdit(user, d) ==> CanDelete(user, d)
    ensures !d.isClaimed ==> (ClaimShown(user, d) <==> !CanEdit(user, d))
    ensures d.isClaimed ==> !ClaimShown(user, d) && !CanEdit(user, d)
  {
  }

  // ---------------------------------------------------------------------
  // Distance
  // ---------------------------------------------------------------------

  /** `userLocation && donation.latitude && donation.longitude ?
      calculateDistance(...) : null`; a location object is truthy
      whatever its coordinates. */
  function DistanceTo(userLocation: Option<LatLng>, d: Donation, distance: (LatLng, LatLng) -> real): (r: Option<real>)
    ensures r.Some? <==> userLocation.Some? && HasCoords(d)
    ensures r.Some? ==> r.value == distance(userLocation.value, LatLng(d.latitude.value, d.longitude.value))
  {
    if userLocation.Some? && HasCoords(d) then
      Some(distance(userLocation.value, LatLng(d.latitude.value, d.longitude.value)))
    else None
  }

  /** `Math.round(x)`: the nearest integer, halves upward. */
  function Round(x: real): (n: int)
    ensures n as real - 0.5 <= x < n as real + 0.5
  {
    (x + 0.5).Floor
  }

  /** The unit `formatDistance` picks: feet below one mile, miles
      otherwise. */
  datatype DistanceText = Feet(feet: int) | Miles(miles: real)

  /** `formatDistance(d)`, before the text is written out (`toFixed` is
      not modelled). */
  function FormatDistance(d: real): (t: DistanceText)
    ensures t.Feet? <==> d < 1.0
    ensures t.Miles? ==> t.miles == d
  {
    if d < 1.0 then Feet(Round(d * 5280.0)) else Miles(d)
  }

  /** Below one mile the feet are within half a foot of the distance, and
      never over 5280. */
  lemma FeetInRange(d: real)
    requires 0.0 <= d < 1.0
    ensures var t := FormatDistance(d);
      t.Feet? && 0 <= t.feet <= 5280 && t.feet as real - 0.5 <= d * 5280.0 < t.feet as real + 0.5
  {
  }

  /** What a `{distance && (row)}` renders: nothing, the row, or the
      falsy value itself as text. */
  datatype Rendered = Nothing | Row(text: DistanceText) | Text(s: string)

  /** The distance rows as written: React renders nothing for `null` and
      the number itself for the falsy `0`, so a distance of exactly 0
      (user at the donation's coordinates) shows a stray `0` instead of
      the row. */
  function DistanceRowAsWritten(distance: Option<real>): (r: Rendered)
    ensures r.Row? <==> distance.Some? && distance.value != 0.0
    ensures r.Row? ==> r.text == FormatDistance(distance.value)
    ensures r.Text? <==> distance == Some(0.0)
  {
    match distance
    case None => Nothing
    case Some(d) => if d == 0.0 then Text("0") else Row(FormatDistance(d))
  }

  /** The input that shows it: a zero distance. */
  lemma ZeroDistanceStrayText()
    ensures DistanceRowAsWritten(Some(0.0)) == Text("0")
    ensures DistanceRowAsWritten(Some(0.0)) != Row(FormatDistance(0.0))
  {
  }

  /** The rows as evidently intended (`distance !== null`): the row shows
      exactly when a distance was computed. */
  function DistanceRow(distance: Option<real>): (r: Rendered)
    ensures r.Row? <==> distance.Some?
    ensures r.Row? ==> r.text == FormatDistance(distance.value)
    ensures !r.Text?
  {
    match distance
    case None => Nothing
    case Some(d) => Row(FormatDistance(d))
  }

  /** The corrected row agrees with the written one on every distance but
      0, and shows a zero distance as 0 ft. */
  lemma DistanceRowAgrees(distance: Option<real>)
    ensures distance != Some(0.0) ==> DistanceRow(distance) == DistanceRowAsWritten(distance)
    ensures DistanceRow(Some(0.0)) == Row(Feet(0))
  {
  }

  /** The distance row of a donation: shown exactly when the user's
      location is known and the donation has truthy coordinates. */
  lemma DistanceRowShown(userLocation: Option<LatLng>, d: Donation, distance: (LatLng, LatLng) -> real)
    ensures DistanceRow(DistanceTo(userLocation, d, distance)).Row? <==> userLocation.Some? && HasCoords(d)
  {
  }

  /** The rows as written: they show only when, in addition, the distance
      is not exactly 0; at distance 0 the bare text `0` shows instead. */
  lemma DistanceRowAsWrittenShown(userLocation: Option<LatLng>, d: Donation, distance: (LatLng, LatLng) -> real)
    ensures var r := DistanceRowAsWritten(DistanceTo(userLocation, d, distance));
      && (r.Row? <==> userLocation.Some? && HasCoords(d)
                      && distance(userLocation.value, LatLng(d.latitude.value, d.longitude.value)) != 0.0)
      && (r.Text? <==> userLocation.Some? && HasCoords(d)
                       && distance(userLocation.value, LatLng(d.latitude.value, d.longitude.value)) == 0.0)
  {
  }
}
