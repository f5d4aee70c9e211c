/** The donation listing (src/pages/DonationsPage.tsx): the five filter
    predicates of `filteredAndSortedDonations`, the in-place sorts by
    creation time, and the available/claimed counters. The Haversine
    distance and the calendar test of the expiry filter are parameters. */
module DonationsPage {
  import opened Common
  import opened Types
  import opened Stats

  // ---------------------------------------------------------------------
  // Filter predicates
  // ---------------------------------------------------------------------

  /** `statusFilter`: `'all' | 'available' | 'claimed'`. */
  datatype Status = All | Available | Claimed

  /** What the page filters with, and the collaborators it calls:
      `distance` is `calculateDistance` from the user to a point, and
      `expiresWithin(filter, date)` is the calendar comparison of
      `checkExpiryFilter` for a filter other than `'all'`. */
  datatype Criteria = Criteria(
    searchTerm: string,
    status: Status,
    foodType: string,
    expiry: string,
    maxDistance: real,
    userLocation: Option<LatLng>,
    distance: (LatLng, LatLng) -> real,
    expiresWithin: (string, string) -> bool
  )

  /** Case-insensitive substring match on title, description or location. */
  predicate MatchesSearch(d: Donation, term: string) {
    var t := ToLower(term);
    Includes(ToLower(d.title), t) || Includes(ToLower(d.description), t) || Includes(ToLower(d.location), t)
  }

  predicate MatchesStatus(d: Donation, status: Status) {
    match status
    case All => true
    case Available => !d.isClaimed
    case Claimed => d.isClaimed
  }

  /** `foodTypeFilter === 'all' || donation.food_type?.toLowerCase() ===
      foodTypeFilter.toLowerCase()`: `undefined` equals no string. */
  predicate MatchesFoodType(d: Donation, filter: string) {
    filter == "all" || (d.foodType.Some? && ToLower(d.foodType.value) == ToLower(filter))
  }

  /** `checkExpiryFilter`: a donation without an expiry date, or the filter
      `'all'`, always matches. */
  predicate MatchesExpiry(d: Donation, filter: string, expiresWithin: (string, string) -> bool) {
    d.expiryDate.None? || d.expiryDate.value == [] || filter == "all"
    || expiresWithin(filter, d.expiryDate.value)
  }

  /** The distance filter applies only with a user location and truthy
      coordinates. */
  predicate MatchesDistance(d: Donation, user: Option<LatLng>, maxDistance: real, distance: (LatLng, LatLng) -> real) {
    user.Some? && HasCoords(d) ==>
      distance(user.value, LatLng(d.latitude.value, d.longitude.value)) <= maxDistance
  }

  /** The conjunction the `.filter` callback returns. */
  predicate Keep(d: Donation, c: Criteria) {
    && MatchesSearch(d, c.searchTerm)
    && MatchesStatus(d, c.status)
    && MatchesFoodType(d, c.foodType)
    && MatchesExpiry(d, c.expiry, c.expiresWithin)
    && MatchesDistance(d, c.userLocation, c.maxDistance, c.distance)
  }

  /** `donations.filter(...)`: the kept donations, in their order. */
  function FilterList(ds: seq<Donation>, c: Criteria): (r: seq<Donation>)
    ensures |r| <= |ds|
    ensures forall d :: d in r <==> d in ds && Keep(d, c)
  {
    if ds == [] then []
    else (if Keep(ds[0], c) then [ds[0]] else []) + FilterList(ds[1..], c)
  }

  /** Filtering keeps the order of the list: the result is the input with
      the rejected donations taken out. */
  lemma {:induction false} FilterListAppend(a: seq<Donation>, b: seq<Donation>, c: Criteria)
    ensures FilterList(a + b, c) == FilterList(a, c) + FilterList(b, c)
  {
    if a == [] {
      assert a + b == b;
    } else {
      assert (a + b)[0] == a[0] && (a + b)[1..] == a[1..] + b;
      FilterListAppend(a[1..], b, c);
    }
  }

  /** An empty search term matches every donation. */
  lemma EmptySearchMatchesAll(d: Donation)
    ensures MatchesSearch(d, "")
  {
    IncludesEmpty(ToLower(d.title));
  }

  /** The search ignores the case of the term. */
  lemma SearchIgnoresTermCase(d: Donation, term: string)
    ensures MatchesSearch(d, ToLower(term)) <==> MatchesSearch(d, term)
  {
    ToLowerIdempotent(term);
  }

  /** A match means the lowered term occurs at some offset of a lowered
      field. */
  lemma SearchOccurs(d: Donation, term: string)
    ensures MatchesSearch(d, term) <==>
      (exists i :: OccursAt(ToLower(d.title), ToLower(term), i))
      || (exists i :: OccursAt(ToLower(d.description), ToLower(term), i))
      || (exists i :: OccursAt(ToLower(d.location), ToLower(term), i))
  {
    assert MatchesSearch(d, term) <==>
      Includes(ToLower(d.title), ToLower(term)) || Includes(ToLower(d.description), ToLower(term))
      || Includes(ToLower(d.location), ToLower(term));
    IncludesIff(ToLower(d.title), ToLower(term));
    IncludesIff(ToLower(d.description), ToLower(term));
    IncludesIff(ToLower(d.location), ToLower(term));
  }

  /** A donation without a food type matches only the filter `'all'`. */
  lemma UntypedOnlyMatchesAll(d: Donation, filter: string)
    requires d.foodType.None?
    ensures MatchesFoodType(d, filter) <==> filter == "all"
  {
  }

  /** The distance filter rejects a donation only when the user location
      and both coordinates are there and the distance exceeds the limit. */
  lemma DistanceRejects(d: Donation, c: Criteria)
    ensures !MatchesDistance(d, c.userLocation, c.maxDistance, c.distance) <==>
      c.userLocation.Some? && HasCoords(d)
      && c.distance(c.userLocation.value, LatLng(d.latitude.value, d.longitude.value)) > c.maxDistance
  {
  }

  /** With every filter at its default (empty search, `'all'`, `'all'`,
      `'all'`) and no user location, the whole list is shown. */
  lemma DefaultsKeepAll(ds: seq<Donation>, c: Criteria)
    requires c.searchTerm == [] && c.status == All && c.foodType == "all" && c.expiry == "all"
    requires c.userLocation.None?
    ensures FilterList(ds, c) == ds
  {
    if ds != [] {
      EmptySearchMatchesAll(ds[0]);
      DefaultsKeepAll(ds[1..], c);
    }
  }

  // ---------------------------------------------------------------------
  // Sorting by creation time
  // ---------------------------------------------------------------------

  /** The two timestamp orders: `'newest'` (also every unknown `sortBy`)
      and `'oldest'`. */
  datatype Order = Newest | Oldest

  /** The comparator `(a, b) => ...` allows `x` before `y`. */
  predicate InOrder(o: Order, x: Donation, y: Donation) {
    match o
    case Newest => x.createdAt >= y.createdAt
    case Oldest => x.createdAt <= y.createdAt
  }

  predicate SortedBy(s: seq<Donation>, o: Order) {
    forall i, j :: 0 <= i < j < |s| ==> InOrder(o, s[i], s[j])
  }

  /** The donations created at `t`, in order. */
  function CreatedAt(s: seq<Donation>, t: int): (r: seq<Donation>)
    ensures |r| <= |s|
  {
    if s == [] then [] else (if s[0].createdAt == t then [s[0]] else []) + CreatedAt(s[1..], t)
  }

  lemma {:induction false} CreatedAtAppend(a: seq<Donation>, b: seq<Donation>, t: int)
    ensures CreatedAt(a + b, t) == CreatedAt(a, t) + CreatedAt(b, t)
  {
    if a == [] {
      assert a + b == b;
    } else {
      var h := if a[0].createdAt == t then [a[0]] else [];
      assert (a + b)[0] == a[0] && (a + b)[1..] == a[1..] + b;
      assert CreatedAt(a + b, t) == h + CreatedAt(a[1..] + b, t);
      CreatedAtAppend(a[1..], b, t);
      assert CreatedAt(a, t) == h + CreatedAt(a[1..], t);
    }
  }

  /** Swapping two neighbours with different timestamps leaves every
      timestamp's donations in their order. */
  lemma SwapKeepsTies(s: seq<Donation>, j: int, t: int)
    requires 0 < j < |s| && s[j - 1].createdAt != s[j].createdAt
    ensures CreatedAt(s[j - 1 := s[j]][j := s[j - 1]], t) == CreatedAt(s, t)
  {
    var s' := s[j - 1 := s[j]][j := s[j - 1]];
    var pre, post := s[..j - 1], s[j + 1..];
    assert s == pre + [s[j - 1], s[j]] + post;
    assert s' == pre + [s[j], s[j - 1]] + post;
    CreatedAtAppend(pre + [s[j - 1], s[j]], post, t);
    CreatedAtAppend(pre, [s[j - 1], s[j]], t);
    CreatedAtAppend(pre + [s[j], s[j - 1]], post, t);
    CreatedAtAppend(pre, [s[j], s[j - 1]], t);
    assert [s[j - 1], s[j]][1..] == [s[j]] && [s[j], s[j - 1]][1..] == [s[j - 1]];
    assert [s[j]][1..] == [] && [s[j - 1]][1..] == [];
  }

  /** Every timestamp's donations are the same, in the same order. */
  ghost predicate SameTies(s: seq<Donation>, s': seq<Donation>) {
    forall t :: CreatedAt(s, t) == CreatedAt(s', t)
  }

  /** Exchanges two neighbours whose timestamps are out of order. */
  method SwapDown(a: array<Donation>, j: int)
    requires 0 < j < a.Length && a[j - 1].createdAt != a[j].createdAt
    modifies a
    ensures a[..] == old(a[..])[j - 1 := old(a[j])][j := old(a[j - 1])]
    ensures multiset(a[..]) == multiset(old(a[..]))
    ensures SameTies(a[..], old(a[..]))
  {
    forall t ensures CreatedAt(a[..][j - 1 := a[j]][j := a[j - 1]], t) == CreatedAt(a[..], t) {
      SwapKeepsTies(a[..], j, t);
    }
    a[j - 1], a[j] := a[j], a[j - 1];
  }

  /** While `a[i]` moves down to `j`: the others of `a[..i + 1]` are in
      order, and the moving donation precedes those above it. */
  ghost predicate Inserting(s: seq<Donation>, i: int, j: int, o: Order)
    requires 0 <= j <= i < |s|
  {
    && (forall k, l :: 0 <= k < l <= i && k != j && l != j ==> InOrder(o, s[k], s[l]))
    && (forall l :: j < l <= i ==> InOrder(o, s[j], s[l]))
  }

  lemma InsertingStart(s: seq<Donation>, i: int, o: Order)
    requires 0 < i < |s| && SortedBy(s[..i], o)
    ensures Inserting(s, i, i, o)
  {
    forall k, l | 0 <= k < l <= i && k != i && l != i ensures InOrder(o, s[k], s[l]) {
      assert s[k] == s[..i][k] && s[l] == s[..i][l];
    }
  }

  lemma InsertingSwap(s: seq<Donation>, i: int, j: int, o: Order)
    requires 0 < j <= i < |s| && Inserting(s, i, j, o) && !InOrder(o, s[j - 1], s[j])
    ensures Inserting(s[j - 1 := s[j]][j := s[j - 1]], i, j - 1, o)
  {
  }

  lemma InsertingDone(s: seq<Donation>, i: int, j: int, o: Order)
    requires 0 <= j <= i < |s| && Inserting(s, i, j, o)
    requires j == 0 || InOrder(o, s[j - 1], s[j])
    ensures SortedBy(s[..i + 1], o)
  {
    forall k, l | 0 <= k < l <= i ensures InOrder(o, s[k], s[l]) {
      if l == j && k < j - 1 {
        assert InOrder(o, s[k], s[j - 1]);
      }
    }
  }

  /** One step of the insertion sort: moves `a[i]` down past the
      donations it must follow, so that `a[..i + 1]` is in order; it stops
      at an equal timestamp, which keeps the sort stable. */
  method InsertDown(a: array<Donation>, i: int, o: Order)
    requires 0 < i < a.Length && SortedBy(a[..i], o)
    modifies a
    ensures SortedBy(a[..i + 1], o)
    ensures multiset(a[..]) == multiset(old(a[..]))
    ensures SameTies(a[..], old(a[..]))
  {
    InsertingStart(a[..], i, o);
    var j := i;
    while j > 0 && !InOrder(o, a[j - 1], a[j])
      invariant 0 <= j <= i
      invariant Inserting(a[..], i, j, o)
      invariant multiset(a[..]) == multiset(old(a[..]))
      invariant SameTies(a[..], old(a[..]))
    {
      InsertingSwap(a[..], i, j, o);
      SwapDown(a, j);
      j := j - 1;
    }
    InsertingDone(a[..], i, j, o);
  }

  /** `a.sort(comparator)` for the two timestamp orders: a stable
      insertion sort. Afterwards the array is in order, holds the same
      donations, and donations with equal timestamps keep their relative
      order. */
  method SortByCreated(a: array<Donation>, o: Order)
    modifies a
    ensures SortedBy(a[..], o)
    ensures multiset(a[..]) == multiset(old(a[..]))
    ensures SameTies(a[..], old(a[..]))
  {
    if a.Length == 0 {
      return;
    }
    var i := 1;
    while i < a.Length
      invariant 1 <= i <= a.Length
      invariant SortedBy(a[..i], o)
      invariant multiset(a[..]) == multiset(old(a[..]))
      invariant SameTies(a[..], old(a[..]))
    {
      InsertDown(a, i, o);
      i := i + 1;
    }
    assert a[..a.Length] == a[..];
  }

  // ---------------------------------------------------------------------
  // The displayed list and the counters
  // ---------------------------------------------------------------------

  /** `sortBy`: the two timestamp orders, or one of the orders this model
      leaves out (`'expiry'`, `'distance'`, `'title'`). */
  function OrderOf(sortBy: string): (r: Option<Order>)
    ensures sortBy == "oldest" ==> r == Some(Oldest)
    ensures sortBy in {"expiry", "distance", "title"} ==> r == None
    ensures sortBy !in {"oldest", "expiry", "distance", "title"} ==> r == Some(Newest)
  {
    if sortBy == "oldest" then Some(Oldest)
    else if sortBy == "expiry" || sortBy == "distance" || sortBy == "title" then None
    else Some(Newest)
  }

  /** `filteredAndSortedDonations`: the kept donations, sorted in place
      for the timestamp orders. */
  method Displayed(ds: seq<Donation>, c: Criteria, sortBy: string) returns (r: seq<Donation>)
    ensures multiset(r) == multiset(FilterList(ds, c))
    ensures forall d :: d in r <==> d in ds && Keep(d, c)
    ensures OrderOf(sortBy).Some? ==>
      SortedBy(r, OrderOf(sortBy).value) && SameTies(r, FilterList(ds, c))
  {
    var kept := FilterList(ds, c);
    match OrderOf(sortBy) {
      case None =>
        r := kept;
      case Some(o) =>
        var a := new Donation[|kept|](i requires 0 <= i < |kept| => kept[i]);
        assert a[..] == kept;
        SortByCreated(a, o);
        r := a[..];
    }
    forall d ensures d in r <==> d in kept {
      assert d in r <==> d in multiset(r);
      assert d in kept <==> d in multiset(kept);
    }
  }

  /** The initial fetch: `data.sort(...)` newest first, stable, so
      donations with equal timestamps keep the server's order. */
  method FetchSort(a: array<Donation>)
    modifies a
    ensures SortedBy(a[..], Newest)
    ensures multiset(a[..]) == multiset(old(a[..]))
    ensures SameTies(a[..], old(a[..]))
  {
    SortByCreated(a, Newest);
  }

  /** `availableCount` and `claimedCount`, over the unfiltered list: every
      donation is counted once. */
  function Counters(ds: seq<Donation>): (r: (nat, nat))
    ensures r.0 + r.1 == |ds|
    ensures r.0 == CountAvailable(ds) && r.1 == CountClaimed(ds)
  {
    AvailablePlusClaimed(ds);
    (CountAvailable(ds), CountClaimed(ds))
  }

  /** The status filters split the list: `'available'` shows as many
      donations as the available counter, `'claimed'` as many as the
      claimed one, when no other filter rejects anything. */
  lemma {:induction false} StatusSplit(ds: seq<Donation>, c: Criteria)
    requires c.searchTerm == [] && c.foodType == "all" && c.expiry == "all" && c.userLocation.None?
    ensures c.status == Available ==> |FilterList(ds, c)| == Counters(ds).0
    ensures c.status == Claimed ==> |FilterList(ds, c)| == Counters(ds).1
    ensures c.status == All ==> |FilterList(ds, c)| == |ds|
  {
    if ds != [] {
      EmptySearchMatchesAll(ds[0]);
      StatusSplit(ds[1..], c);
    }
  }
}
