/** The records every component works over: `User` and `Donation` as the
    client receives them from the API (src/types.ts), with the fields the
    modelled logic reads. */
module Types {
  import opened Common

  /** A point as `{ lat, lng }`. */
  datatype LatLng = LatLng(lat: real, lng: real)

  datatype User = User(
    id: int,
    username: string,
    role: string,          // 'donor' | 'receiver'
    isSuperuser: bool
  )

  /** Timestamps are milliseconds since the epoch; optional fields are
      `Option`s (absent = `undefined`). */
  datatype Donation = Donation(
    id: int,
    donor: int,
    donorId: Option<int>,
    title: string,
    description: string,
    quantity: int,
    location: string,
    latitude: Option<real>,
    longitude: Option<real>,
    foodType: Option<string>,
    expiryDate: Option<string>,
    isClaimed: bool,
    createdAt: int
  )

  /** JavaScript truthiness of an optional number: present and not 0. */
  predicate Truthy(x: Option<real>) {
    x.Some? && x.value != 0.0
  }

  /** `d.latitude && d.longitude`: both coordinates present and non-zero,
      so a donation on the equator or the prime meridian counts as having
      no coordinates. */
  predicate HasCoords(d: Donation) {
    Truthy(d.latitude) && Truthy(d.longitude)
  }

  /** `donations.filter(d => d.latitude && d.longitude)` */
  function WithCoords(ds: seq<Donation>): (r: seq<Donation>)
    ensures |r| <= |ds|
    ensures forall d :: d in r <==> d in ds && HasCoords(d)
    ensures forall i :: 0 <= i < |r| ==> HasCoords(r[i])
  {
    if ds == [] then []
    else (if HasCoords(ds[0]) then [ds[0]] else []) + WithCoords(ds[1..])
  }
}
