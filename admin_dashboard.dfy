/** The admin dashboard shell: it sends visitors who are not admins away once
    the session is known, and picks the highlighted tab and the heading from
    the current path. */
module AdminDashboard {
  import opened Common
  import opened Text
  import opened Session

  /** Where the redirect effect navigates, if anywhere. */
  datatype Redirect = Stay | ToLogin | ToHome

  /** `if (!isLoading) { if (!user) '/login' else if (!isAdmin) '/' }`. */
  function RedirectFor(isLoading: bool, user: Option<Profile>, isAdmin: bool): (r: Redirect)
    ensures r == ToLogin <==> !isLoading && user.None?
    ensures r == ToHome <==> !isLoading && user.Some? && !isAdmin
    ensures r == Stay <==> isLoading || (user.Some? && isAdmin)
  {
    if isLoading then Stay
    else if user.None? then ToLogin
    else if !isAdmin then ToHome
    else Stay
  }

  /** What the dashboard renders. */
  datatype Screen = LoadingSecurity | Nothing | Panel

  function ScreenFor(isLoading: bool, isAdmin: bool): (v: Screen)
    ensures v == LoadingSecurity <==> isLoading
    ensures v == Nothing <==> !isLoading && !isAdmin
    ensures v == Panel <==> !isLoading && isAdmin
  {
    if isLoading then LoadingSecurity
    else if !isAdmin then Nothing
    else Panel
  }

  /** In a consistent session the panel is shown exactly to a loaded admin
      profile, and whoever is redirected sees nothing of it. */
  lemma PanelOnlyForAdmins(isLoading: bool, user: Option<Profile>, isAdmin: bool)
    requires AdminConsistent(user, isAdmin)
    ensures ScreenFor(isLoading, isAdmin) == Panel ==>
      user.Some? && user.value.role == Admin && RedirectFor(isLoading, user, isAdmin) == Stay
    ensures RedirectFor(isLoading, user, isAdmin) != Stay ==> ScreenFor(isLoading, isAdmin) == Nothing
  {
  }

  datatype MenuItem = MenuItem(id: string, caption: string, path: string)

  /** The sidebar entries, in order. */
  const MenuItems: seq<MenuItem> := [
    MenuItem("overview", "Overview", "/admin/overview"),
    MenuItem("bookings", "Bookings", "/admin/bookings"),
    MenuItem("messages", "Inbox", "/admin/messages"),
    MenuItem("users", "User Database", "/admin/users"),
    MenuItem("content", "Site Content", "/admin/content"),
    MenuItem("settings", "Settings", "/admin/settings"),
    MenuItem("coupons", "Coupons", "/admin/coupons"),
    MenuItem("reviews", "Reviews", "/admin/reviews")
  ]

  /** `items.find(item => pathname.includes(item.id))`, as an index: the
      first item whose id the path includes. */
  function FindItem(items: seq<MenuItem>, pathname: string): (r: Option<nat>)
    ensures r.Some? ==> r.value < |items| && Contains(pathname, items[r.value].id)
    ensures r.Some? ==> forall j :: 0 <= j < r.value ==> !Contains(pathname, items[j].id)
    ensures r.None? ==> forall j :: 0 <= j < |items| ==> !Contains(pathname, items[j].id)
  {
    if items == [] then None
    else if Contains(pathname, items[0].id) then Some(0)
    else
      var rest := FindItem(items[1..], pathname);
      assert forall j :: 1 <= j < |items| ==> items[j] == items[1..][j - 1];
      if rest.Some? then Some(rest.value + 1) else None
  }

  /** `currentTab`. */
  function CurrentTab(pathname: string): string
  {
    var f := FindItem(MenuItems, pathname);
    if f.Some? then OrElse(MenuItems[f.value].id, "overview") else "overview"
  }

  /** `currentLabel`. */
  function CurrentLabel(pathname: string): string
  {
    var f := FindItem(MenuItems, pathname);
    if f.Some? then OrElse(MenuItems[f.value].caption, "Overview") else "Overview"
  }

  /** The highlighted tab and the heading always come from the same entry:
      the first one the path names, or the overview entry when it names none. */
  lemma TabAndLabelAgree(pathname: string)
    ensures exists i :: 0 <= i < |MenuItems| && CurrentTab(pathname) == MenuItems[i].id && CurrentLabel(pathname) == MenuItems[i].caption
    ensures FindItem(MenuItems, pathname).None? ==> CurrentTab(pathname) == "overview" && CurrentLabel(pathname) == "Overview"
  {
    var f := FindItem(MenuItems, pathname);
    if f.Some? {
      var i := f.value;
      assert MenuItems[i].id != "" && MenuItems[i].caption != "";
    } else {
      assert CurrentTab(pathname) == MenuItems[0].id;
    }
  }

  /** An item the path names, after items it does not, is the one found. */
  lemma FirstMatchIsFound(items: seq<MenuItem>, pathname: string, i: int)
    requires 0 <= i < |items| && Contains(pathname, items[i].id)
    requires forall j :: 0 <= j < i ==> !Contains(pathname, items[j].id)
    ensures FindItem(items, pathname) == Some(i as nat)
  {
  }

  /** A path in which two neighbouring characters of `t` never stand side by
      side does not include `t`. */
  lemma MissingPairNotContained(s: string, t: string, j: int)
    requires 0 <= j && j + 1 < |t|
    requires forall k :: 0 <= k < |s| - 1 ==> !(s[k] == t[j] && s[k + 1] == t[j + 1])
    ensures !Contains(s, t)
  {
    ContainsIffSlice(s, t);
  }

  /** Item `i` is found for a path that names it when, for each earlier item
      `j`, the characters at `w[j]` and `w[j] + 1` of its id never stand side
      by side in the path. */
  lemma FoundByMissingPairs(items: seq<MenuItem>, p: string, i: int, w: seq<int>)
    requires 0 <= i < |items| && OccursAt(p, items[i].id, |p| - |items[i].id|) && |w| == i
    requires forall j :: 0 <= j < i ==> 0 <= w[j] && w[j] + 1 < |items[j].id|
    requires forall j, k :: 0 <= j < i && 0 <= k < |p| - 1 ==>
      !(p[k] == items[j].id[w[j]] && p[k + 1] == items[j].id[w[j] + 1])
    ensures FindItem(items, p) == Some(i as nat)
  {
    ContainsIffSlice(p, items[i].id);
    assert Contains(p, items[i].id);
    EarlierNotContained(items, p, i, w);
    FirstMatchIsFound(items, p, i);
  }

  /** The earlier items of `FoundByMissingPairs` are not included in the path. */
  lemma EarlierNotContained(items: seq<MenuItem>, p: string, i: int, w: seq<int>)
    requires 0 <= i < |items| && |w| == i
    requires forall j :: 0 <= j < i ==> 0 <= w[j] && w[j] + 1 < |items[j].id|
    requires forall j, k :: 0 <= j < i && 0 <= k < |p| - 1 ==>
      !(p[k] == items[j].id[w[j]] && p[k + 1] == items[j].id[w[j] + 1])
    ensures forall j :: 0 <= j < i ==> !Contains(p, items[j].id)
  {
    forall j | 0 <= j < i ensures !Contains(p, items[j].id) {
      var t := items[j].id;
      assert forall k :: 0 <= k < |p| - 1 ==> !(p[k] == t[w[j]] && p[k + 1] == t[w[j] + 1]);
      MissingPairNotContained(p, t, w[j]);
    }
  }

  // The entries one at a time: for each earlier entry, the witness pair
  // of its id that the path lacks.

  lemma OverviewLinkFound()
    ensures FindItem(MenuItems, MenuItems[0].path) == Some(0)
  {
    FoundByMissingPairs(MenuItems, MenuItems[0].path, 0, []);
  }

  lemma BookingsLinkFound()
    ensures FindItem(MenuItems, MenuItems[1].path) == Some(1)
  {
    FoundByMissingPairs(MenuItems, MenuItems[1].path, 1, [0]);
  }

  lemma MessagesLinkFound()
    ensures FindItem(MenuItems, MenuItems[2].path) == Some(2)
  {
    FoundByMissingPairs(MenuItems, MenuItems[2].path, 2, [0, 0]);
  }

  lemma UsersLinkFound()
    ensures FindItem(MenuItems, MenuItems[3].path) == Some(3)
  {
    FoundByMissingPairs(MenuItems, MenuItems[3].path, 3, [0, 0, 0]);
  }

  lemma ContentLinkFound()
    ensures FindItem(MenuItems, MenuItems[4].path) == Some(4)
  {
    FoundByMissingPairs(MenuItems, MenuItems[4].path, 4, [0, 0, 0, 0]);
  }

  lemma SettingsLinkFound()
    ensures FindItem(MenuItems, MenuItems[5].path) == Some(5)
  {
    FoundByMissingPairs(MenuItems, MenuItems[5].path, 5, [0, 0, 0, 0, 0]);
  }

  lemma CouponsLinkFound()
    ensures FindItem(MenuItems, MenuItems[6].path) == Some(6)
  {
    FoundByMissingPairs(MenuItems, MenuItems[6].path, 6, [0, 0, 0, 0, 2, 0]);
  }

  lemma ReviewsLinkFound()
    ensures FindItem(MenuItems, MenuItems[7].path) == Some(7)
  {
    FoundByMissingPairs(MenuItems, MenuItems[7].path, 7, [0, 0, 0, 0, 0, 0, 0]);
  }

  /** Following an entry's own link highlights that entry and shows its
      caption: no earlier entry's id occurs in its path. */
  lemma EachLinkSelectsItself(i: int)
    requires 0 <= i < |MenuItems|
    ensures CurrentTab(MenuItems[i].path) == MenuItems[i].id
    ensures CurrentLabel(MenuItems[i].path) == MenuItems[i].caption
  {
    if i == 0 {
      OverviewLinkFound();
    } else if i == 1 {
      BookingsLinkFound();
    } else if i == 2 {
      MessagesLinkFound();
    } else if i == 3 {
      UsersLinkFound();
    } else if i == 4 {
      ContentLinkFound();
    } else if i == 5 {
      SettingsLinkFound();
    } else if i == 6 {
      CouponsLinkFound();
    } else if i == 7 {
      ReviewsLinkFound();
    }
  }
}
