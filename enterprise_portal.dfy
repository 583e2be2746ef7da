/**
 * The sidebar of the enterprise portal (src/pages/enterprise/EnterprisePortal.tsx): five
 * navigation items, each highlighted while the current path belongs to it.
 */
module EnterprisePortal {
  import opened JsStrings

  /** A sidebar item: the path `isActiveRoute` is asked about, and the link target. */
  datatype NavItem = NavItem(path: string, link: string)

  /** 工作台, 候选人, 面试安排, 职位管理 and 系统设置, in sidebar order. */
  const NavItems: seq<NavItem> := [
    NavItem("", "/enterprise/dashboard"),
    NavItem("candidates", "/enterprise/candidates"),
    NavItem("schedule", "/enterprise/schedule"),
    NavItem("positions", "/enterprise/positions"),
    NavItem("settings", "/enterprise/settings")]

  /** `isActiveRoute` as written: the empty path means the portal's index and nothing
      else; any other path is active for every pathname under `/enterprise/<path>`. */
  predicate IsActiveRoute(pathname: string, path: string) {
    if path == "" then pathname == "/enterprise" || pathname == "/enterprise/"
    else StartsWith(pathname, "/enterprise/" + path)
  }

  /** The empty path is active exactly on the two index spellings, and only there. */
  lemma IndexActiveOnlyOnIndex(pathname: string)
    ensures IsActiveRoute(pathname, "") <==> pathname in {"/enterprise", "/enterprise/"}
  {
  }

  /** 工作台 links to `/enterprise/dashboard`, where `isActiveRoute('')` does not hold: the
      item is not highlighted on its own page, and neither is any other item. */
  lemma DashboardLinkNotHighlighted()
    ensures !IsActiveRoute(NavItems[0].link, NavItems[0].path)
    ensures forall i :: 0 <= i < |NavItems| ==> !IsActiveRoute("/enterprise/dashboard", NavItems[i].path)
  {
    var p := "/enterprise/dashboard";
    assert p[12] == 'd';
    forall i | 1 <= i < |NavItems| ensures !IsActiveRoute(p, NavItems[i].path) {
      var target := "/enterprise/" + NavItems[i].path;
      assert target[12] != 'd';
    }
  }

  /** The pages are matched by prefix: a new candidate's form does not count as 候选人,
      since `/enterprise/candidate/` is not under `/enterprise/candidates`, while the
      profile page counts as 系统设置. */
  lemma PrefixExamples()
    ensures !IsActiveRoute("/enterprise/candidate/new", "candidates")
    ensures IsActiveRoute("/enterprise/settings/profile", "settings")
  {
    var a := "/enterprise/candidate/new";
    var t := "/enterprise/candidates";
    assert a[..|t|][21] == '/' && t[21] == 's';
    ConcatEnds("/enterprise/settings", "/profile");
    assert "/enterprise/settings" + "/profile" == "/enterprise/settings/profile";
  }

  /** `isActiveRoute('')` as evidently intended: the index and the dashboard page the item
      links to. */
  predicate IsActiveRouteFixed(pathname: string, path: string) {
    if path == "" then pathname == "/enterprise" || pathname == "/enterprise/" || StartsWith(pathname, "/enterprise/dashboard")
    else StartsWith(pathname, "/enterprise/" + path)
  }

  /** The fixed rule agrees with the written one everywhere but on the dashboard pages. */
  lemma FixedOnlyAddsDashboard(pathname: string, path: string)
    ensures IsActiveRouteFixed(pathname, path) <==>
      IsActiveRoute(pathname, path) || (path == "" && StartsWith(pathname, "/enterprise/dashboard"))
  {
  }

  /** The link targets of the items after the first differ at their 13th character or
      later, so no other item's target is a prefix of an item's link. */
  lemma LinksDistinctPrefixes(i: nat, j: nat)
    requires i < |NavItems| && j < |NavItems| && i != j
    ensures !StartsWith(NavItems[i].link, "/enterprise/" + NavItems[j].path) || NavItems[j].path == ""
  {
    if NavItems[j].path != "" {
      var link := NavItems[i].link;
      var target := "/enterprise/" + NavItems[j].path;
      assert link[12] != target[12] || link[13] != target[13];
    }
  }

  /** With the fix, every item's link highlights exactly that item. */
  lemma FixedHighlightsOwnItem(i: nat, j: nat)
    requires i < |NavItems| && j < |NavItems|
    ensures IsActiveRouteFixed(NavItems[i].link, NavItems[j].path) <==> i == j
  {
    var link := NavItems[i].link;
    if i == j {
      if i == 0 {
        assert StartsWith(link, "/enterprise/dashboard");
      } else {
        assert link == "/enterprise/" + NavItems[j].path;
      }
    } else if j == 0 {
      assert link[12] != 'd';
      assert !StartsWith(link, "/enterprise/dashboard") by {
        assert "/enterprise/dashboard"[12] == 'd';
      }
    } else {
      LinksDistinctPrefixes(i, j);
    }
  }
}
