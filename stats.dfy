/** The availability summary three components compute the same way:
    the map's local and fallback statistics, the profile page's donation
    statistics and the listing page's available/claimed counters. */
module Stats {
  import opened Types

  /** `{ total, available, claimed, claim_rate }`, the rate in percent. */
  datatype Summary = Summary(total: nat, available: nat, claimed: nat, claimRate: real)

  /** What every summary the components compute satisfies: the counts add
      up and the rate is a percentage. */
  predicate Consistent(s: Summary) {
    s.available + s.claimed == s.total && 0.0 <= s.claimRate <= 100.0
  }

  /** `ds.filter(d => !d.is_claimed).length` */
  function CountAvailable(ds: seq<Donation>): (n: nat)
    ensures n <= |ds|
  {
    if ds == [] then 0 else (if ds[0].isClaimed then 0 else 1) + CountAvailable(ds[1..])
  }

  /** `ds.filter(d => d.is_claimed).length` */
  function CountClaimed(ds: seq<Donation>): (n: nat)
    ensures n <= |ds|
  {
    if ds == [] then 0 else (if ds[0].isClaimed then 1 else 0) + CountClaimed(ds[1..])
  }

  /** Every donation is either available or claimed, never both. */
  lemma {:induction false} AvailablePlusClaimed(ds: seq<Donation>)
    ensures CountAvailable(ds) + CountClaimed(ds) == |ds|
  {
    if ds != [] {
      AvailablePlusClaimed(ds[1..]);
    }
  }

  /** `total > 0 ? (claimed / total) * 100 : 0` */
  function ClaimRate(claimed: nat, total: nat): (r: real)
    ensures total == 0 ==> r == 0.0
    ensures total > 0 ==> r * (total as real) == (claimed as real) * 100.0
    ensures claimed <= total ==> 0.0 <= r <= 100.0
  {
    if total > 0 then
      var q := (claimed as real) / (total as real);
      assert claimed <= total ==> q <= 1.0 by {
        if claimed <= total {
          assert q * (total as real) == claimed as real;
        }
      }
      q * 100.0
    else 0.0
  }

  /** The summary of a list of donations: everything counted once, split
      into available and claimed, and the claim rate a percentage. */
  function Summarize(ds: seq<Donation>): (s: Summary)
    ensures s.total == |ds|
    ensures s.available == CountAvailable(ds) && s.claimed == CountClaimed(ds)
    ensures s.available + s.claimed == s.total
    ensures 0.0 <= s.claimRate <= 100.0
    ensures s.total == 0 ==> s.claimRate == 0.0
    ensures s.total > 0 ==> s.claimRate * (s.total as real) == (s.claimed as real) * 100.0
  {
    AvailablePlusClaimed(ds);
    var claimed := CountClaimed(ds);
    Summary(|ds|, CountAvailable(ds), claimed, ClaimRate(claimed, |ds|))
  }

  /** A list of unclaimed donations has claim rate 0 and one of claimed
      donations has claim rate 100. */
  lemma {:induction false} ClaimRateExtremes(ds: seq<Donation>)
    requires ds != []
    ensures (forall i :: 0 <= i < |ds| ==> !ds[i].isClaimed) ==> Summarize(ds).claimRate == 0.0
    ensures (forall i :: 0 <= i < |ds| ==> ds[i].isClaimed) ==> Summarize(ds).claimRate == 100.0
  {
    assert Summarize(ds).claimRate == ClaimRate(CountClaimed(ds), |ds|);
    if forall i :: 0 <= i < |ds| ==> !ds[i].isClaimed {
      NoneClaimed(ds);
      RateOfNone(|ds|);
    }
    if forall i :: 0 <= i < |ds| ==> ds[i].isClaimed {
      AllClaimed(ds);
      RateOfAll(|ds|);
    }
  }

  lemma RateOfNone(total: nat)
    requires total > 0
    ensures ClaimRate(0, total) == 0.0
  {
  }

  lemma RateOfAll(total: nat)
    requires total > 0
    ensures ClaimRate(total, total) == 100.0
  {
    assert (total as real) / (total as real) == 1.0;
  }

  lemma {:induction false} NoneClaimed(ds: seq<Donation>)
    requires forall i :: 0 <= i < |ds| ==> !ds[i].isClaimed
    ensures CountClaimed(ds) == 0
  {
    if ds != [] {
      NoneClaimed(ds[1..]);
    }
  }

  lemma {:induction false} AllClaimed(ds: seq<Donation>)
    requires forall i :: 0 <= i < |ds| ==> ds[i].isClaimed
    ensures CountClaimed(ds) == |ds|
  {
    if ds != [] {
      AllClaimed(ds[1..]);
    }
  }
}
