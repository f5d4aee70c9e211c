/** The statistics of a user's profile page (src/pages/UserProfilePage.tsx):
    the donation summary, the food-type histogram built by a `forEach`
    over the user's donations, and the own-profile test. */
module UserProfile {
  import opened Common
  import opened Types
  import opened Stats

  /** `getDonationStats`: total, available, claimed and claim rate of the
      user's donations. */
  function DonationStats(ds: seq<Donation>): (s: Summary)
    ensures s.total == |ds|
    ensures s.available == CountAvailable(ds) && s.claimed == CountClaimed(ds)
    ensures s.available + s.claimed == s.total
    ensures s.total == 0 ==> s.claimRate == 0.0
    ensures s.total > 0 ==> s.claimRate * (s.total as real) == (s.claimed as real) * 100.0
    ensures 0.0 <= s.claimRate <= 100.0
  {
    Summarize(ds)
  }

  // ---------------------------------------------------------------------
  // Food-type histogram
  // ---------------------------------------------------------------------

  /** `donation.food_type || 'other'`: a missing or empty type counts as
      `'other'`. */
  function FoodTypeOf(d: Donation): (t: string)
    ensures d.foodType.None? || d.foodType.value == [] ==> t == "other"
    ensures d.foodType.Some? && d.foodType.value != [] ==> t == d.foodType.value
    ensures t != []
  {
    match d.foodType
    case Some(t) => if t != [] then t else "other"
    case None => "other"
  }

  /** One property of the `foodTypes` object, in insertion order. */
  datatype Entry = Entry(key: string, count: nat)

  predicate HasKey(h: seq<Entry>, k: string) {
    exists i :: 0 <= i < |h| && h[i].key == k
  }

  /** `foodTypes[k] || 0` */
  function Lookup(h: seq<Entry>, k: string): nat {
    if h == [] then 0 else if h[0].key == k then h[0].count else Lookup(h[1..], k)
  }

  /** The sum of all counts. */
  function Sum(h: seq<Entry>): nat {
    if h == [] then 0 else h[0].count + Sum(h[1..])
  }

  /** No key twice, as in an object. */
  predicate DistinctKeys(h: seq<Entry>) {
    forall i, j :: 0 <= i < j < |h| ==> h[i].key != h[j].key
  }

  predicate Positive(h: seq<Entry>) {
    forall i :: 0 <= i < |h| ==> h[i].count >= 1
  }

  /** `foodTypes[k] = (foodTypes[k] || 0) + 1` */
  function Bump(h: seq<Entry>, k: string): seq<Entry> {
    if h == [] then [Entry(k, 1)]
    else if h[0].key == k then [Entry(k, h[0].count + 1)] + h[1..]
    else [h[0]] + Bump(h[1..], k)
  }

  lemma HasKeyTail(h: seq<Entry>, k: string)
    requires h != [] && h[0].key != k
    ensures HasKey(h, k) <==> HasKey(h[1..], k)
  {
    if HasKey(h, k) {
      var i :| 0 <= i < |h| && h[i].key == k;
      assert h[1..][i - 1].key == k;
    }
    if HasKey(h[1..], k) {
      var i :| 0 <= i < |h[1..]| && h[1..][i].key == k;
      assert h[i + 1].key == k;
    }
  }

  /** One update raises the count of `k` by one and leaves every other
      count alone. */
  lemma {:induction false} BumpLookup(h: seq<Entry>, k: string, k': string)
    ensures Lookup(Bump(h, k), k') == Lookup(h, k') + (if k' == k then 1 else 0)
  {
    if h != [] && h[0].key != k {
      BumpLookup(h[1..], k, k');
    }
  }

  /** The keys after an update are the old ones and `k`. */
  lemma {:induction false} BumpKeys(h: seq<Entry>, k: string, k': string)
    ensures HasKey(Bump(h, k), k') <==> HasKey(h, k') || k' == k
  {
    var r := Bump(h, k);
    if h == [] {
      assert r[0].key == k;
    } else if h[0].key == k {
      assert r[0].key == k && h[0].key == k;
      if k' != k {
        assert r[1..] == h[1..];
        HasKeyTail(h, k');
        HasKeyTail(r, k');
      }
    } else {
      BumpKeys(h[1..], k, k');
      assert r[1..] == Bump(h[1..], k);
      HasKeyTail(h, k);
      if h[0].key == k' {
        assert r[0].key == k' && h[0].key == k';
      } else {
        HasKeyTail(h, k');
        HasKeyTail(r, k');
      }
    }
  }

  /** Existing entries keep their key and place; an absent key is added
      last with count 1. */
  lemma {:induction false} BumpShape(h: seq<Entry>, k: string)
    ensures var r := Bump(h, k);
      && |r| == (if HasKey(h, k) then |h| else |h| + 1)
      && (forall i :: 0 <= i < |h| ==> r[i].key == h[i].key)
      && (!HasKey(h, k) ==> r[|h|] == Entry(k, 1))
  {
    if h == [] {
    } else if h[0].key == k {
      assert HasKey(h, k) by { assert h[0].key == k; }
    } else {
      BumpShape(h[1..], k);
      HasKeyTail(h, k);
      var r := Bump(h, k);
      forall i | 0 <= i < |h| ensures r[i].key == h[i].key {
        if i > 0 {
          assert r[i] == Bump(h[1..], k)[i - 1];
        }
      }
    }
  }

  /** One update adds one to the total. */
  lemma {:induction false} BumpSum(h: seq<Entry>, k: string)
    ensures Sum(Bump(h, k)) == Sum(h) + 1
  {
    if h != [] && h[0].key != k {
      BumpSum(h[1..], k);
    } else if h != [] {
      assert Bump(h, k)[1..] == h[1..];
    }
  }

  /** Keys stay distinct and counts positive. */
  lemma {:induction false} BumpWellFormed(h: seq<Entry>, k: string)
    requires DistinctKeys(h) && Positive(h)
    ensures DistinctKeys(Bump(h, k)) && Positive(Bump(h, k))
  {
    var r := Bump(h, k);
    if h != [] && h[0].key != k {
      var rest := Bump(h[1..], k);
      assert r[1..] == rest;
      assert DistinctKeys(h[1..]) && Positive(h[1..]) by {
        forall i, j | 0 <= i < j < |h[1..]| ensures h[1..][i].key != h[1..][j].key {
          assert h[1..][i] == h[i + 1] && h[1..][j] == h[j + 1];
        }
        forall i | 0 <= i < |h[1..]| ensures h[1..][i].count >= 1 {
          assert h[1..][i] == h[i + 1];
        }
      }
      BumpWellFormed(h[1..], k);
      forall j | 0 <= j < |rest| ensures rest[j].key != h[0].key {
        assert HasKey(rest, rest[j].key);
        BumpKeys(h[1..], k, rest[j].key);
      }
      forall i, j | 0 <= i < j < |r| ensures r[i].key != r[j].key {
        assert r[j] == rest[j - 1];
        if i > 0 {
          assert r[i] == rest[i - 1];
        }
      }
      forall i | 0 <= i < |r| ensures r[i].count >= 1 {
        if i > 0 {
          assert r[i] == rest[i - 1];
        }
      }
    } else if h != [] {
      assert r[1..] == h[1..];
      forall i, j | 0 <= i < j < |r| ensures r[i].key != r[j].key {
        assert r[j] == h[j];
        if i > 0 {
          assert r[i] == h[i];
        }
      }
    }
  }

  /** The number of donations whose type is `k`. */
  function CountType(ds: seq<Donation>, k: string): (n: nat)
    ensures n <= |ds|
  {
    if ds == [] then 0
    else CountType(ds[..|ds| - 1], k) + (if FoodTypeOf(ds[|ds| - 1]) == k then 1 else 0)
  }

  /** The object `getFoodTypeStats` returns for `ds`, one update per
      donation in order. */
  function Histogram(ds: seq<Donation>): seq<Entry> {
    if ds == [] then [] else Bump(Histogram(ds[..|ds| - 1]), FoodTypeOf(ds[|ds| - 1]))
  }

  /** The histogram has no key twice and no count below 1. */
  lemma {:induction false} HistogramWellFormed(ds: seq<Donation>)
    ensures DistinctKeys(Histogram(ds)) && Positive(Histogram(ds))
  {
    if ds != [] {
      HistogramWellFormed(ds[..|ds| - 1]);
      BumpWellFormed(Histogram(ds[..|ds| - 1]), FoodTypeOf(ds[|ds| - 1]));
    }
  }

  /** The counts sum to the number of donations. */
  lemma {:induction false} HistogramSum(ds: seq<Donation>)
    ensures Sum(Histogram(ds)) == |ds|
  {
    if ds != [] {
      HistogramSum(ds[..|ds| - 1]);
      BumpSum(Histogram(ds[..|ds| - 1]), FoodTypeOf(ds[|ds| - 1]));
    }
  }

  /** The count of a type is the number of donations of that type. */
  lemma {:induction false} HistogramCount(ds: seq<Donation>, k: string)
    ensures Lookup(Histogram(ds), k) == CountType(ds, k)
  {
    if ds != [] {
      HistogramCount(ds[..|ds| - 1], k);
      BumpLookup(Histogram(ds[..|ds| - 1]), FoodTypeOf(ds[|ds| - 1]), k);
    }
  }

  /** The keys are exactly the types that occur. */
  lemma {:induction false} HistogramKeys(ds: seq<Donation>, k: string)
    ensures HasKey(Histogram(ds), k) <==> exists i :: 0 <= i < |ds| && FoodTypeOf(ds[i]) == k
  {
    if ds != [] {
      var init := ds[..|ds| - 1];
      HistogramKeys(init, k);
      BumpKeys(Histogram(init), FoodTypeOf(ds[|ds| - 1]), k);
      if exists i :: 0 <= i < |ds| && FoodTypeOf(ds[i]) == k {
        var i :| 0 <= i < |ds| && FoodTypeOf(ds[i]) == k;
        if i < |ds| - 1 {
          assert init[i] == ds[i];
        }
      }
      if exists i :: 0 <= i < |init| && FoodTypeOf(init[i]) == k {
        var i :| 0 <= i < |init| && FoodTypeOf(init[i]) == k;
        assert ds[i] == init[i];
      }
    }
  }

  /** A type's entry stays where its first donation put it: the entries
      are in order of first appearance. */
  lemma {:induction false} HistogramPrefix(ds: seq<Donation>, n: nat)
    requires n <= |ds|
    ensures |Histogram(ds[..n])| <= |Histogram(ds)|
    ensures forall i :: 0 <= i < |Histogram(ds[..n])| ==> Histogram(ds)[i].key == Histogram(ds[..n])[i].key
    decreases |ds| - n
  {
    if n < |ds| {
      HistogramPrefix(ds, n + 1);
      assert ds[..n + 1][..n] == ds[..n];
      BumpShape(Histogram(ds[..n]), FoodTypeOf(ds[n]));
    } else {
      assert ds[..n] == ds;
    }
  }

  /** `getFoodTypeStats`: the `forEach` over the user's donations. */
  method FoodTypeStats(ds: seq<Donation>) returns (foodTypes: seq<Entry>)
    ensures foodTypes == Histogram(ds)
  {
    foodTypes := [];
    var i := 0;
    while i < |ds|
      invariant 0 <= i <= |ds|
      invariant foodTypes == Histogram(ds[..i])
    {
      var t := FoodTypeOf(ds[i]);
      assert ds[..i + 1][..i] == ds[..i];
      foodTypes := Bump(foodTypes, t);
      i := i + 1;
    }
    assert ds[..|ds|] == ds;
  }

  /** `'other'` counts the donations with a missing or empty type,
      together with those whose type is the text `'other'` itself. */
  lemma OtherCount(ds: seq<Donation>)
    ensures Lookup(Histogram(ds), "other") == CountUntyped(ds) + CountLabelled(ds, "other")
  {
    HistogramCount(ds, "other");
    UntypedIsOther(ds);
  }

  lemma {:induction false} UntypedIsOther(ds: seq<Donation>)
    ensures CountType(ds, "other") == CountUntyped(ds) + CountLabelled(ds, "other")
  {
    if ds != [] {
      UntypedIsOther(ds[..|ds| - 1]);
    }
  }

  /** The number of donations with a missing or empty `food_type`. */
  function CountUntyped(ds: seq<Donation>): nat {
    if ds == [] then 0
    else
      var d := ds[|ds| - 1];
      CountUntyped(ds[..|ds| - 1]) + (if d.foodType.None? || d.foodType.value == [] then 1 else 0)
  }

  /** The number of donations whose `food_type` is `t`. */
  function CountLabelled(ds: seq<Donation>, t: string): nat {
    if ds == [] then 0
    else CountLabelled(ds[..|ds| - 1], t) + (if ds[|ds| - 1].foodType == Some(t) then 1 else 0)
  }

  /** The Food Types card (`Object.keys(foodTypeStats).length > 0`) is
      shown exactly when the user has a donation. */
  lemma FoodTypesCardShown(ds: seq<Donation>)
    ensures |Histogram(ds)| > 0 <==> |ds| > 0
  {
    if |ds| > 0 {
      HistogramKeys(ds, FoodTypeOf(ds[0]));
      assert HasKey(Histogram(ds), FoodTypeOf(ds[0]));
    } else {
      assert Histogram(ds) == [];
    }
  }

  // ---------------------------------------------------------------------
  // Own profile
  // ---------------------------------------------------------------------

  /** `currentUser?.id.toString() === userId` */
  function IsOwnProfile(currentUser: Option<User>, userId: string): (b: bool)
    ensures b <==> currentUser.Some? && IntToString(currentUser.value.id) == userId
    // an own profile needs a signed-in user, and its route parses to that user's id
    ensures b ==> currentUser.Some? && ParseInt(userId) == Some(currentUser.value.id)
  {
    if currentUser.Some? then ParseIntToString(currentUser.value.id); IntToString(currentUser.value.id) == userId
    else false
  }

  /** On a route written by `toString`, the page is the user's own exactly
      when the ids are equal. */
  lemma OwnProfileIffSameId(u: User, n: int)
    ensures IsOwnProfile(Some(u), IntToString(n)) <==> u.id == n
  {
    if IntToString(u.id) == IntToString(n) {
      ParseIntToString(u.id);
      ParseIntToString(n);
    }
  }

  /** The comparison is textual: `"07"` parses to 7 but does not match
      the user with id 7. */
  lemma OwnProfileTextual(u: User)
    ensures IsOwnProfile(Some(u), "7") <==> u.id == 7
    ensures !IsOwnProfile(Some(u), "07")
    ensures ParseInt("07") == Some(7)
  {
    OwnProfileIffSameId(u, 7);
    ZeroSevenParses();
    NotZeroSeven(u.id);
  }

  /** `parseInt("07")` is 7. */
  lemma ZeroSevenParses()
    ensures ParseInt("07") == Some(7)
  {
    var s := "07";
    assert !IsWhitespace(s[0]) && TrimStart(s) == s;
    assert AllDigits(s);
    DigitRunOfDigits(s);
    assert s[..1] == "0" && s[..1][..0] == [];
    assert DecimalValue(s) == 7;
  }

  /** No integer is written `07`. */
  lemma NotZeroSeven(n: int)
    ensures IntToString(n) != "07"
  {
    assert IntToString(7) == "7";
    ZeroSevenParses();
    ParseIntToString(n);
  }

  /** A matching route reads back as the user's id. */
  lemma OwnProfileParses(u: User, userId: string)
    requires IsOwnProfile(Some(u), userId)
    ensures ParseInt(userId) == Some(u.id)
  {
    ParseIntToString(u.id);
  }

  /** Without a signed-in user no profile is the user's own. */
  lemma SignedOutNotOwn(userId: string)
    ensures !IsOwnProfile(None, userId)
  {
  }
}
