/** The admin dashboard's delete flow (src/pages/AdminDashboardPage.tsx):
    a donation is picked from the table, a dialog confirms, and a
    successful delete drops every listed donation with that id. The
    delete request is represented by whether it succeeded. */
module AdminDashboard {
  import opened Common
  import opened Types

  /** `donations.filter(d => d.id !== id)` */
  function WithoutId(ds: seq<Donation>, id: int): (r: seq<Donation>)
    ensures |r| <= |ds|
    ensures forall d :: d in r <==> d in ds && d.id != id
  {
    if ds == [] then []
    else (if ds[0].id != id then [ds[0]] else []) + WithoutId(ds[1..], id)
  }

  /** How many listed donations carry `id`. */
  function CountId(ds: seq<Donation>, id: int): nat {
    if ds == [] then 0 else (if ds[0].id == id then 1 else 0) + CountId(ds[1..], id)
  }

  /** The list shrinks by exactly the number of donations with the id. */
  lemma {:induction false} WithoutIdLength(ds: seq<Donation>, id: int)
    ensures |WithoutId(ds, id)| == |ds| - CountId(ds, id)
    ensures CountId(ds, id) <= |ds|
  {
    if ds != [] {
      WithoutIdLength(ds[1..], id);
    }
  }

  /** Filtering a concatenation filters each part, so the donations that
      stay keep their relative order. */
  lemma {:induction false} WithoutIdAppend(a: seq<Donation>, b: seq<Donation>, id: int)
    ensures WithoutId(a + b, id) == WithoutId(a, id) + WithoutId(b, id)
  {
    if a == [] {
      assert a + b == b;
    } else {
      assert (a + b)[0] == a[0] && (a + b)[1..] == a[1..] + b;
      WithoutIdAppend(a[1..], b, id);
    }
  }

  /** With no donation carrying the id, nothing is removed. */
  lemma {:induction false} WithoutAbsentId(ds: seq<Donation>, id: int)
    requires forall d :: d in ds ==> d.id != id
    ensures WithoutId(ds, id) == ds
  {
    if ds != [] {
      assert forall d :: d in ds[1..] ==> d in ds;
      WithoutAbsentId(ds[1..], id);
    }
  }

  const DeleteFailed: string := "Failed to delete donation"

  class Dashboard {
    var donations: seq<Donation>
    var error: string
    var deleteDialogOpen: bool
    var selectedDonation: Option<Donation>

    constructor(ds: seq<Donation>)
      ensures donations == ds && error == [] && !deleteDialogOpen && selectedDonation.None?
    {
      donations := ds;
      error := "";
      deleteDialogOpen := false;
      selectedDonation := None;
    }

    /** A table row's or a card's delete button. */
    method SelectForDelete(d: Donation)
      modifies this
      ensures selectedDonation == Some(d) && deleteDialogOpen
      ensures donations == old(donations) && error == old(error)
    {
      selectedDonation := Some(d);
      deleteDialogOpen := true;
    }

    /** The dialog's Cancel button or its backdrop: the selection stays. */
    method CloseDialog()
      modifies this
      ensures !deleteDialogOpen
      ensures selectedDonation == old(selectedDonation) && donations == old(donations) && error == old(error)
    {
      deleteDialogOpen := false;
    }

    /** `handleDeleteDonation`, given whether the delete request
        succeeded. */
    method HandleDeleteDonation(succeeded: bool)
      modifies this
      ensures old(selectedDonation).None? ==>
        donations == old(donations) && error == old(error)
        && deleteDialogOpen == old(deleteDialogOpen) && selectedDonation == old(selectedDonation)
      ensures old(selectedDonation).Some? && succeeded ==>
        donations == WithoutId(old(donations), old(selectedDonation).value.id)
        && !deleteDialogOpen && selectedDonation.None? && error == old(error)
      ensures old(selectedDonation).Some? && !succeeded ==>
        donations == old(donations) && error == DeleteFailed
        && deleteDialogOpen == old(deleteDialogOpen) && selectedDonation == old(selectedDonation)
    {
      if selectedDonation.None? {
        return;
      }
      if succeeded {
        donations := WithoutId(donations, selectedDonation.value.id);
        deleteDialogOpen := false;
        selectedDonation := None;
      } else {
        error := DeleteFailed;
      }
    }
  }

  /** After a successful delete no listed donation has the deleted id,
      and every other donation is still listed. */
  lemma DeletedGone(ds: seq<Donation>, id: int)
    ensures forall d :: d in WithoutId(ds, id) ==> d.id != id
    ensures forall d :: d in ds && d.id != id ==> d in WithoutId(ds, id)
    ensures |WithoutId(ds, id)| == |ds| - CountId(ds, id)
  {
    WithoutIdLength(ds, id);
  }
}
