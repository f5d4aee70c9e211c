/** The listing card (src/components/DonationCard.tsx): the relative
    posting time, the status badge, and which action buttons it shows to
    which user. Times are milliseconds since the epoch; the current time
    is a parameter. */
module DonationCard {
  import opened Common
  import opened Types

  const HourMs: int := 1000 * 60 * 60

  /** `formatDate`'s result; `toLocaleDateString` is not modelled. */
  datatype PostedLabel = JustNow | HoursAgo(hours: int) | Yesterday | LocaleDate

  /** `Math.floor((now - date) / (1000 * 60 * 60))`: Dafny's division by
      a positive divisor is already the floor, also for a date in the
      future. */
  function HoursSince(now: int, posted: int): int {
    (now - posted) / HourMs
  }

  /** `formatDate(created_at)` at time `now`. */
  function FormatDate(now: int, posted: int): (l: PostedLabel)
    ensures l == JustNow <==> now - posted < HourMs
    ensures l.HoursAgo? <==> HourMs <= now - posted < 24 * HourMs
    ensures l.HoursAgo? ==>
      (1 <= l.hours < 24 && l.hours * HourMs <= now - posted < (l.hours + 1) * HourMs)
    ensures l == Yesterday <==> 24 * HourMs <= now - posted < 48 * HourMs
    ensures l == LocaleDate <==> now - posted >= 48 * HourMs
  {
    var h := HoursSince(now, posted);
    if h < 1 then JustNow
    else if h < 24 then HoursAgo(h)
    else if h < 48 then Yesterday
    else LocaleDate
  }

  /** The label's text, where the model can write it. */
  function LabelText(l: PostedLabel): (r: Option<string>)
    ensures r.None? <==> l.LocaleDate?
    // an hours label reads back as its hour count followed by `h ago`
    ensures l.HoursAgo? ==>
      |r.value| > 5 && r.value[|r.value| - 5..] == "h ago" && ParseInt(r.value[..|r.value| - 5]) == Some(l.hours)
  {
    match l
    case JustNow => Some("Just now")
    case HoursAgo(h) =>
      var t := IntToString(h) + "h ago";
      ParseIntToString(h);
      assert t[..|t| - 5] == IntToString(h) && t[|t| - 5..] == "h ago";
      Some(t)
    case Yesterday => Some("Yesterday")
    case LocaleDate => None
  }

  /** A later `now` never moves a donation to an earlier bucket. */
  lemma FormatDateMonotone(now: int, later: int, posted: int)
    requires now <= later
    ensures Bucket(FormatDate(now, posted)) <= Bucket(FormatDate(later, posted))
  {
    assert HoursSince(now, posted) <= HoursSince(later, posted);
  }

  /** The order of the buckets, newest first. */
  function Bucket(l: PostedLabel): int {
    match l
    case JustNow => 0
    case HoursAgo(h) => 1
    case Yesterday => 2
    case LocaleDate => 3
  }

  // ---------------------------------------------------------------------
  // Badge and buttons
  // ---------------------------------------------------------------------

  function StatusLabel(d: Donation): (s: string)
    ensures s == "Claimed" <==> d.isClaimed
    ensures s == "Available" <==> !d.isClaimed
  {
    if d.isClaimed then "Claimed" else "Available"
  }

  function StatusColor(d: Donation): (c: string)
    ensures c == "success" <==> d.isClaimed
    ensures c == "primary" <==> !d.isClaimed
  {
    if d.isClaimed then "success" else "primary"
  }

  /** `user?.role === 'receiver' && !donation.is_claimed` */
  predicate ClaimShown(user: Option<User>, d: Donation)
    ensures ClaimShown(user, d) ==> user.Some? && !AlreadyClaimedShown(d)
  {
    user.Some? && user.value.role == "receiver" && !d.isClaimed
  }

  /** `user?.role === 'donor' && user.id === donation.donor` */
  predicate IsDonorOwner(user: Option<User>, d: Donation)
    // the donor who owns the card is never offered Claim
    ensures IsDonorOwner(user, d) ==> !ClaimShown(user, d)
  {
    user.Some? && user.value.role == "donor" && user.value.id == d.donor
  }

  /** The edit icon: the donor owner, and an `onEdit` callback given. */
  predicate EditShown(user: Option<User>, d: Donation, hasOnEdit: bool)
    ensures EditShown(user, d, hasOnEdit) ==> hasOnEdit && IsDonorOwner(user, d) && !ClaimShown(user, d)
  {
    IsDonorOwner(user, d) && hasOnEdit
  }

  predicate DeleteShown(user: Option<User>, d: Donation, hasOnDelete: bool)
    ensures DeleteShown(user, d, hasOnDelete) ==> hasOnDelete && IsDonorOwner(user, d) && !ClaimShown(user, d)
  {
    IsDonorOwner(user, d) && hasOnDelete
  }

  /** The disabled `Already Claimed` button. */
  predicate AlreadyClaimedShown(d: Donation) {
    d.isClaimed
  }

  /** For a receiver exactly one of Claim and Already Claimed shows; the
      donor buttons never show beside Claim; a signed-out visitor sees
      neither Claim nor the donor buttons. */
  lemma CardButtons(user: Option<User>, d: Donation, hasOnEdit: bool, hasOnDelete: bool)
    ensures user.Some? && user.value.role == "receiver" ==> (ClaimShown(user, d) != AlreadyClaimedShown(d))
    ensures !(ClaimShown(user, d) && (EditShown(user, d, hasOnEdit) || DeleteShown(user, d, hasOnDelete)))
    ensures !(ClaimShown(user, d) && AlreadyClaimedShown(d))
    ensures user.None? ==> !ClaimShown(user, d) && !EditShown(user, d, hasOnEdit) && !DeleteShown(user, d, hasOnDelete)
  {
  }

  /** The card offers Edit to its donor also for a claimed donation,
      unlike the detail page; the edit page then shows the claimed
      warning. */
  lemma CardEditsClaimed(u: User, d: Donation)
    requires u.role == "donor" && u.id == d.donor && d.isClaimed
    ensures EditShown(Some(u), d, true) && AlreadyClaimedShown(d)
  {
  }
}
