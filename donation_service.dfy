/** The query of `DonationService.getStatistics`
    (src/api/donationService.ts): the optional viewport filters become
    `URLSearchParams` entries, appended one after another in a fixed key
    order, and the request path is `/donations/statistics/?` followed by
    their serialisation. The HTTP request itself is not modelled. */
module DonationService {
  import opened Common
  import Uri

  /** `DonationFilters`: every bound is optional. */
  datatype Filters = Filters(
    latMin: Option<real>,
    latMax: Option<real>,
    lngMin: Option<real>,
    lngMax: Option<real>,
    zoom: Option<real>
  )

  /** `getStatistics()` called without an argument. */
  const NoFilters: Filters := Filters(None, None, None, None, None)

  /** The query keys `getStatistics` may send. */
  datatype Key = LatMin | LatMax | LngMin | LngMax | Zoom {
    /** The key as it appears in the query. */
    function Name(): string {
      match this
      case LatMin => "lat_min"
      case LatMax => "lat_max"
      case LngMin => "lng_min"
      case LngMax => "lng_max"
      case Zoom => "zoom"
    }
  }

  /** One `params.append(key, value)` entry. */
  datatype Param = Param(key: Key, value: string)

  /** The order of the `params.append` calls. */
  const KeyOrder: seq<Key> := [LatMin, LatMax, LngMin, LngMax, Zoom]

  /** The filter a query key stands for. */
  function FilterValue(f: Filters, key: Key): Option<real> {
    match key
    case LatMin => f.latMin
    case LatMax => f.latMax
    case LngMin => f.lngMin
    case LngMax => f.lngMax
    case Zoom => f.zoom
  }

  /** One entry per key of `keys`, in that order, for every key whose
      filter is defined (`!== undefined`: a value of 0 is defined); `show`
      is `Number.prototype.toString`. */
  function ParamsFor(f: Filters, keys: seq<Key>, show: real -> string): seq<Param> {
    if keys == [] then [] else Entry(f, keys[0], show) + ParamsFor(f, keys[1..], show)
  }

  /** The entry of one key: none when its filter is undefined. */
  function Entry(f: Filters, k: Key, show: real -> string): seq<Param> {
    match FilterValue(f, k)
    case Some(v) => [Param(k, show(v))]
    case None => []
  }

  /** `ParamsFor` over `KeyOrder`, key by key. */
  lemma KeyOrderEntries(f: Filters, show: real -> string)
    ensures ParamsFor(f, KeyOrder, show)
      == Entry(f, LatMin, show) + Entry(f, LatMax, show) + Entry(f, LngMin, show)
         + Entry(f, LngMax, show) + Entry(f, Zoom, show)
  {
    var k4: seq<Key> := [Zoom];
    var k3: seq<Key> := [LngMax, Zoom];
    var k2: seq<Key> := [LngMin, LngMax, Zoom];
    var k1: seq<Key> := [LatMax, LngMin, LngMax, Zoom];
    assert k4[1..] == [] && k3[1..] == k4 && k2[1..] == k3 && k1[1..] == k2 && KeyOrder[1..] == k1;
    assert ParamsFor(f, k4, show) == Entry(f, Zoom, show) + [];
    assert Entry(f, Zoom, show) + [] == Entry(f, Zoom, show);
    assert ParamsFor(f, k3, show) == Entry(f, LngMax, show) + ParamsFor(f, k4, show);
    assert ParamsFor(f, k2, show) == Entry(f, LngMin, show) + ParamsFor(f, k3, show);
    assert ParamsFor(f, k1, show) == Entry(f, LatMax, show) + ParamsFor(f, k2, show);
  }

  /** The successive conditional `params.append` calls of `getStatistics`. */
  method StatisticsParams(f: Filters, show: real -> string) returns (params: seq<Param>)
    ensures params == ParamsFor(f, KeyOrder, show)
  {
    KeyOrderEntries(f, show);
    params := [];
    if f.latMin.Some? { params := params + [Param(LatMin, show(f.latMin.value))]; }
    assert params == Entry(f, LatMin, show);
    if f.latMax.Some? { params := params + [Param(LatMax, show(f.latMax.value))]; }
    assert params == Entry(f, LatMin, show) + Entry(f, LatMax, show);
    if f.lngMin.Some? { params := params + [Param(LngMin, show(f.lngMin.value))]; }
    assert params == Entry(f, LatMin, show) + Entry(f, LatMax, show) + Entry(f, LngMin, show);
    if f.lngMax.Some? { params := params + [Param(LngMax, show(f.lngMax.value))]; }
    assert params == Entry(f, LatMin, show) + Entry(f, LatMax, show) + Entry(f, LngMin, show)
                     + Entry(f, LngMax, show);
    if f.zoom.Some? { params := params + [Param(Zoom, show(f.zoom.value))]; }
  }

  /** `params.toString()`: `key=value` pairs, form-encoded, joined by `&`. */
  function QueryString(params: seq<Param>): string {
    if params == [] then ""
    else
      var pair := Uri.FormEncode(params[0].key.Name()) + "=" + Uri.FormEncode(params[0].value);
      if |params| == 1 then pair else pair + "&" + QueryString(params[1..])
  }

  const StatisticsPrefix: string := "/donations/statistics/?"

  /** The path `getStatistics` requests. */
  method StatisticsPath(f: Filters, show: real -> string) returns (path: string)
    ensures path == StatisticsPrefix + QueryString(ParamsFor(f, KeyOrder, show))
  {
    var params := StatisticsParams(f, show);
    path := StatisticsPrefix + QueryString(params);
  }

  // ---------------------------------------------------------------------
  // What the parameter list promises
  // ---------------------------------------------------------------------

  predicate NoDuplicates(keys: seq<Key>) {
    forall i, j :: 0 <= i < j < |keys| ==> keys[i] != keys[j]
  }

  /** The position of `k` in `keys`. */
  function IndexOf(keys: seq<Key>, k: Key): (r: nat)
    requires k in keys
    ensures r < |keys| && keys[r] == k
    ensures forall j :: 0 <= j < r ==> keys[j] != k
  {
    if keys[0] == k then 0 else 1 + IndexOf(keys[1..], k)
  }

  /** Every entry belongs to a defined filter of its key and carries that
      filter's text. */
  lemma {:induction false} ParamsSound(f: Filters, keys: seq<Key>, show: real -> string)
    ensures forall p :: p in ParamsFor(f, keys, show) ==>
      p.key in keys && FilterValue(f, p.key).Some? && p.value == show(FilterValue(f, p.key).value)
  {
    if keys != [] {
      ParamsSound(f, keys[1..], show);
    }
  }

  /** A key has an entry exactly when its filter is defined. */
  lemma {:induction false} ParamsComplete(f: Filters, keys: seq<Key>, show: real -> string, k: Key)
    requires k in keys
    ensures (exists p :: p in ParamsFor(f, keys, show) && p.key == k) <==> FilterValue(f, k).Some?
  {
    ParamsSound(f, keys, show);
    if keys[0] != k {
      ParamsComplete(f, keys[1..], show, k);
    } else if FilterValue(f, k).Some? {
      assert ParamsFor(f, keys, show)[0].key == k;
    }
  }

  /** The keys of `r` are keys of `keys`, in strictly increasing position. */
  predicate InKeyOrder(r: seq<Param>, keys: seq<Key>) {
    forall i, j :: 0 <= i < j < |r| ==>
      r[i].key in keys && r[j].key in keys && IndexOf(keys, r[i].key) < IndexOf(keys, r[j].key)
  }

  /** Entries come in the order of `keys`; with distinct keys, no key is
      repeated. */
  lemma {:induction false} ParamsOrdered(f: Filters, keys: seq<Key>, show: real -> string)
    requires NoDuplicates(keys)
    ensures InKeyOrder(ParamsFor(f, keys, show), keys)
  {
    if keys != [] {
      var tail := keys[1..];
      assert NoDuplicates(tail) by {
        forall i, j | 0 <= i < j < |tail| ensures tail[i] != tail[j] {
          assert tail[i] == keys[i + 1] && tail[j] == keys[j + 1];
        }
      }
      ParamsOrdered(f, tail, show);
      var rest := ParamsFor(f, tail, show);
      var r := ParamsFor(f, keys, show);
      assert r == Entry(f, keys[0], show) + rest;
      forall i, j | 0 <= i < j < |r|
        ensures r[i].key in keys && r[j].key in keys && IndexOf(keys, r[i].key) < IndexOf(keys, r[j].key)
      {
        var h := |r| - |rest|;
        assert r[j] == rest[j - h];
        EntryKeyIn(f, tail, show, j - h);
        IndexOfTail(keys, r[j].key);
        if i >= h {
          assert r[i] == rest[i - h];
          EntryKeyIn(f, tail, show, i - h);
          IndexOfTail(keys, r[i].key);
        } else {
          assert r[i].key == keys[0];
        }
      }
      assert InKeyOrder(r, keys);
    } else {
      assert ParamsFor(f, keys, show) == [];
    }
  }

  /** The key of every entry is one of `keys`. */
  lemma {:induction false} EntryKeyIn(f: Filters, keys: seq<Key>, show: real -> string, n: nat)
    requires n < |ParamsFor(f, keys, show)|
    ensures ParamsFor(f, keys, show)[n].key in keys
  {
    ParamsSound(f, keys, show);
    assert ParamsFor(f, keys, show)[n] in ParamsFor(f, keys, show);
  }

  lemma IndexOfTail(keys: seq<Key>, k: Key)
    requires NoDuplicates(keys) && keys != [] && k in keys[1..]
    ensures k in keys && IndexOf(keys, k) == 1 + IndexOf(keys[1..], k)
  {
    var m := IndexOf(keys[1..], k);
    assert keys[m + 1] == k;
  }

  /** The query of `getStatistics`: keys appear in the fixed order
      `lat_min, lat_max, lng_min, lng_max, zoom`, each at most once, and a
      key appears exactly when its filter is defined, with that filter's
      text as its value. */
  lemma StatisticsParamsSpec(f: Filters, show: real -> string)
    ensures var r := ParamsFor(f, KeyOrder, show);
      && InKeyOrder(r, KeyOrder)
      && (forall i, j :: 0 <= i < j < |r| ==> r[i].key != r[j].key)
      && (forall p :: p in r ==> FilterValue(f, p.key).Some? && p.value == show(FilterValue(f, p.key).value))
      && (forall k :: k in KeyOrder ==> ((exists p :: p in r && p.key == k) <==> FilterValue(f, k).Some?))
  {
    assert NoDuplicates(KeyOrder);
    ParamsOrdered(f, KeyOrder, show);
    ParamsSound(f, KeyOrder, show);
    forall k | k in KeyOrder
      ensures (exists p :: p in ParamsFor(f, KeyOrder, show) && p.key == k) <==> FilterValue(f, k).Some?
    {
      ParamsComplete(f, KeyOrder, show, k);
    }
  }

  /** A bound of 0 is sent: the test is `!== undefined`, not truthiness. */
  lemma ZeroBoundIncluded(f: Filters, show: real -> string)
    requires f.latMin == Some(0.0)
    ensures ParamsFor(f, KeyOrder, show)[0] == Param(LatMin, show(0.0))
  {
  }

  /** With no filters the path is `/donations/statistics/?` with an empty
      query. */
  lemma NoFiltersPath(show: real -> string)
    ensures StatisticsPrefix + QueryString(ParamsFor(NoFilters, KeyOrder, show)) == "/donations/statistics/?"
  {
    assert ParamsFor(NoFilters, KeyOrder, show) == [];
  }
}
