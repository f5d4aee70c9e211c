/** The route guard (src/components/ProtectedRoute.tsx): while the
    session is being checked it shows a spinner, without a user it
    redirects to the login page, and otherwise it renders the page. */
module ProtectedRoute {
  import opened Common
  import opened Types
  import DonationDetail

  datatype Guarded = Spinner | Redirect(to: string) | Children

  /** `ProtectedRoute`'s three branches. */
  function Guard(loading: bool, user: Option<User>): Guarded {
    if loading then Spinner
    else if user.None? then Redirect("/login")
    else Children
  }

  /** Every (loading, user) pair gives exactly one outcome: the spinner
      exactly while loading, whatever the user; the login redirect exactly
      when loaded without a user; the page exactly when loaded with one. */
  lemma GuardOutcomes(loading: bool, user: Option<User>)
    ensures Guard(loading, user) == Spinner <==> loading
    ensures Guard(loading, user) == Redirect("/login") <==> !loading && user.None?
    ensures Guard(loading, user) == Children <==> !loading && user.Some?
    ensures Guard(loading, user).Redirect? ==> Guard(loading, user).to == "/login"
  {
  }

  /** A guarded page only renders for a signed-in user, so the detail
      page's owner test compares the user's id with `donor_id` and never
      matches a missing `donor_id` through `undefined === undefined`. */
  lemma GuardedDetailOwner(loading: bool, user: Option<User>, d: Donation)
    requires Guard(loading, user) == Children
    ensures user.Some?
    ensures DonationDetail.IsOwner(user, d) <==> d.donorId == Some(user.value.id)
    ensures d.donorId.None? ==> !DonationDetail.CanDelete(user, d)
  {
    GuardOutcomes(loading, user);
    DonationDetail.OwnerIff(user.value, d);
  }
}
