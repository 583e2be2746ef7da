/**
 * The sidebar of the administrators' portal (src/pages/admin/AdminPortal.tsx): the
 * dashboard and the enterprise list, each highlighted on its own pages.
 */
module AdminPortal {
  import opened JsStrings

  /** `isActiveRoute`: the empty path means the index or the dashboard; any other path is
      active for every pathname under `/admin/<path>`. */
  predicate IsActiveRoute(pathname: string, path: string) {
    if path == "" then pathname == "/admin" || pathname == "/admin/dashboard"
    else StartsWith(pathname, "/admin/" + path)
  }

  /** The dashboard item's highlight: `isActiveRoute('') && !isActiveRoute('enterprises')`. */
  predicate DashboardHighlighted(pathname: string) {
    IsActiveRoute(pathname, "") && !IsActiveRoute(pathname, "enterprises")
  }

  /** The enterprise item's highlight. */
  predicate EnterprisesHighlighted(pathname: string) {
    IsActiveRoute(pathname, "enterprises")
  }

  /** The second condition never matters: neither spelling of the dashboard lies under
      `/admin/enterprises`, so the highlight is `isActiveRoute('')` alone, and the two
      items are never highlighted together. */
  lemma DashboardConditionRedundant(pathname: string)
    ensures DashboardHighlighted(pathname) <==> IsActiveRoute(pathname, "")
    ensures !(DashboardHighlighted(pathname) && EnterprisesHighlighted(pathname))
  {
    if pathname == "/admin/dashboard" {
      var t := "/admin/" + "enterprises";
      assert |t| > |pathname|;
    }
  }

  /** The dashboard item is highlighted on its link, on `/admin`, and on nothing
      longer. */
  lemma DashboardExactly(pathname: string)
    ensures DashboardHighlighted(pathname) <==> pathname in {"/admin", "/admin/dashboard"}
    ensures DashboardHighlighted("/admin/dashboard")
  {
    DashboardConditionRedundant(pathname);
  }

  /** The enterprise list, a new enterprise's form and an enterprise's detail all
      highlight the enterprise item. */
  lemma EnterprisePagesHighlighted(rest: string)
    ensures EnterprisesHighlighted("/admin/enterprises" + rest)
  {
    ConcatEnds("/admin/enterprises", rest);
  }

  /** On the settings page the sidebar highlights nothing. */
  lemma SettingsHighlightsNothing()
    ensures !DashboardHighlighted("/admin/settings") && !EnterprisesHighlighted("/admin/settings")
  {
    var p := "/admin/settings";
    var t := "/admin/" + "enterprises";
    assert p[7] != t[7];
  }
}
