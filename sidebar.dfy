/** The side bar: its navigation table, the active-entry rule and the collapse toggle. */
module Sidebar {
  import opened JsString

  datatype NavItem = NavItem(name: string, href: string)

  const Navigation: seq<NavItem> := [
    NavItem("Tableau de bord", "/"),
    NavItem("\U{00C9}tablissements", "/establishments"),
    NavItem("Tuteurs", "/tutors"),
    NavItem("Apprenants", "/students"),
    NavItem("Acad\U{00E9}mique", "/academic"),
    NavItem("Param\U{00E8}tres", "/settings")
  ]

  /**
   * An entry is active on its own path, and also on every path that starts
   * with its `href` — except the dashboard "/", which every path starts with.
   */
  predicate IsActive(pathname: string, href: string): (active: bool)
    ensures pathname == href ==> active
    ensures active ==> |href| <= |pathname| && pathname[..|href|] == href
    ensures href == "/" ==> (active <==> pathname == "/")
  {
    pathname == href || (href != "/" && StartsWith(pathname, href))
  }

  /** The hrefs of the table are pairwise distinct, and none but "/" is a prefix of another. */
  lemma NavigationHrefs()
    ensures |Navigation| == 6
    ensures forall i, j | 0 <= i < j < |Navigation| :: Navigation[i].href != Navigation[j].href
    ensures forall i, j | 1 <= i < |Navigation| && 1 <= j < |Navigation| && i != j ::
      !StartsWith(Navigation[j].href, Navigation[i].href)
  {
    forall i, j | 1 <= i < |Navigation| && 1 <= j < |Navigation| && i != j
      ensures !StartsWith(Navigation[j].href, Navigation[i].href)
    {
      if StartsWith(Navigation[j].href, Navigation[i].href) {
        PrefixAgrees(Navigation[j].href, Navigation[i].href, 1);
        PrefixAgrees(Navigation[j].href, Navigation[i].href, 2);
      }
    }
  }

  lemma PrefixAgrees(s: string, prefix: string, k: int)
    requires StartsWith(s, prefix) && 0 <= k < |prefix|
    ensures s[k] == prefix[k]
  {
    assert s[..|prefix|][k] == s[k];
  }

  /** The dashboard entry is active on "/" and nowhere else. */
  lemma DashboardOnlyOnRoot(pathname: string)
    ensures IsActive(pathname, Navigation[0].href) <==> pathname == "/"
  {
  }

  /** On any path at most one entry is highlighted. */
  lemma AtMostOneActive(pathname: string, i: int, j: int)
    requires 0 <= i < |Navigation| && 0 <= j < |Navigation|
    requires IsActive(pathname, Navigation[i].href) && IsActive(pathname, Navigation[j].href)
    ensures i == j
  {
    NavigationHrefs();
    if i != j {
      if i != 0 && j != 0 && |Navigation[i].href| <= |Navigation[j].href| {
        StartsWithBoth(pathname, Navigation[i].href, Navigation[j].href);
      } else if i != 0 && j != 0 {
        StartsWithBoth(pathname, Navigation[j].href, Navigation[i].href);
      }
    }
  }

  /**
   * The test is on raw text: a sub-route such as "/tutors/3/edit" keeps
   * "Tuteurs" highlighted, and so would "/tutorsXYZ".
   */
  lemma SubRouteActivatesTutors(rest: string)
    ensures IsActive("/tutors" + rest, Navigation[2].href)
  {
    assert ("/tutors" + rest)[..7] == "/tutors";
  }

  class SidebarState {
    var collapsed: bool

    constructor()
      ensures !collapsed
    {
      collapsed := false;
    }

    /** `setCollapsed(!collapsed)`: two toggles restore the original state. */
    method Toggle()
      modifies this
      ensures collapsed == !old(collapsed)
    {
      collapsed := !collapsed;
    }
  }
}
