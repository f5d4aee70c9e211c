/** The navigation bar (src/components/Header.tsx): the navigation items
    a user gets, which of them is highlighted, the role chip's colour and
    label, and when the desktop navigation is drawn. */
module Header {
  import opened Common
  import opened Types

  datatype NavItem = NavItem(path: string, title: string)

  const HomeItem: NavItem := NavItem("/", "Home")
  const DonationsItem: NavItem := NavItem("/donations", "Donations")
  const CreateItem: NavItem := NavItem("/donations/create", "Create")
  const AdminItem: NavItem := NavItem("/admin", "Admin")

  predicate IsDonor(user: Option<User>) {
    user.Some? && user.value.role == "donor"
  }

  predicate IsSuperuser(user: Option<User>) {
    user.Some? && user.value.isSuperuser
  }

  /** `navigationItems`: Home, Donations, then the conditional spreads. */
  function NavigationItems(user: Option<User>): seq<NavItem> {
    [HomeItem, DonationsItem]
    + (if IsDonor(user) then [CreateItem] else [])
    + (if IsSuperuser(user) then [AdminItem] else [])
  }

  /** Home and Donations always come first; Create is there exactly for a
      donor and Admin exactly for a superuser, Create before Admin; so
      there are two to four items. */
  lemma NavigationShape(user: Option<User>)
    ensures var items := NavigationItems(user);
      && 2 <= |items| <= 4
      && items[0] == HomeItem && items[1] == DonationsItem
      && (CreateItem in items <==> IsDonor(user))
      && (AdminItem in items <==> IsSuperuser(user))
      && (IsDonor(user) ==> items[2] == CreateItem)
      && (IsSuperuser(user) ==> items[|items| - 1] == AdminItem)
      && |items| == 2 + (if IsDonor(user) then 1 else 0) + (if IsSuperuser(user) then 1 else 0)
  {
    var items := NavigationItems(user);
    var tail := (if IsDonor(user) then [CreateItem] else []) + (if IsSuperuser(user) then [AdminItem] else []);
    assert items == [HomeItem, DonationsItem] + tail;
    assert CreateItem != AdminItem && CreateItem != HomeItem && CreateItem != DonationsItem;
    assert AdminItem != HomeItem && AdminItem != DonationsItem;
  }

  /** `isActiveRoute(path)`: exact equality with the current pathname, so
      `/donations/create` does not highlight Donations. */
  predicate IsActiveRoute(pathname: string, path: string) {
    pathname == path
  }

  /** The item paths are distinct, so no pathname highlights two items. */
  lemma AtMostOneActive(user: Option<User>, pathname: string)
    ensures var items := NavigationItems(user);
      forall i, j :: 0 <= i < j < |items| && IsActiveRoute(pathname, items[i].path) ==>
        !IsActiveRoute(pathname, items[j].path)
  {
    var items := NavigationItems(user);
    NavigationShape(user);
    assert HomeItem.path != DonationsItem.path && HomeItem.path != CreateItem.path && HomeItem.path != AdminItem.path;
    assert DonationsItem.path != CreateItem.path && DonationsItem.path != AdminItem.path;
    assert CreateItem.path != AdminItem.path;
    forall i, j | 0 <= i < j < |items|
      ensures items[i].path != items[j].path
    {
      assert items[i] in {HomeItem, DonationsItem, CreateItem, AdminItem};
      assert items[j] in {HomeItem, DonationsItem, CreateItem, AdminItem};
    }
  }

  /** `getRoleColor(role)` */
  function RoleColor(role: string): (c: string)
    ensures c == "primary" <==> role == "donor"
    ensures c == "secondary" <==> role != "donor"
  {
    if role == "donor" then "primary" else "secondary"
  }

  /** `role.charAt(0).toUpperCase() + role.slice(1)` */
  function RoleLabel(role: string): (l: string)
    ensures |l| == |role|
    ensures role != [] ==> l[0] == UpperChar(role[0]) && l[1..] == role[1..]
  {
    if role == [] then [] else [UpperChar(role[0])] + role[1..]
  }

  /** Capitalising twice is capitalising once, and the label lowers back
      to the role when the role's first letter is lower case. */
  lemma RoleLabelProperties(role: string)
    ensures RoleLabel(RoleLabel(role)) == RoleLabel(role)
    ensures role != [] && !IsUpperAscii(role[0]) ==> [LowerChar(RoleLabel(role)[0])] + RoleLabel(role)[1..] == role
  {
    if role != [] {
      var l := RoleLabel(role);
      assert l[0] == UpperChar(role[0]);
      assert [UpperChar(l[0])] + l[1..] == l;
    }
  }

  /** The labels of the two roles. */
  lemma RoleLabels()
    ensures RoleLabel("donor") == "Donor" && RoleLabel("receiver") == "Receiver"
  {
    assert "donor"[1..] == "onor";
    assert "receiver"[1..] == "eceiver";
  }

  /** The desktop navigation: `!isMobile && user && renderNavigationItems()`.
      It draws something exactly when not on mobile and signed in. */
  function DesktopNav(isMobile: bool, user: Option<User>): (r: seq<NavItem>)
    ensures r != [] <==> !isMobile && user.Some?
    ensures r != [] ==> r == NavigationItems(user)
  {
    NavigationShape(user);
    if !isMobile && user.Some? then NavigationItems(user) else []
  }
}
