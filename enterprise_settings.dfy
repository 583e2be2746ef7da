/**
 * The settings section of the enterprise portal
 * (src/pages/enterprise/settings/EnterpriseSettings.tsx): a menu of five settings pages,
 * an item highlighted when the current path ends with its path.
 */
module EnterpriseSettings {
  import opened JsStrings

  /** A menu entry: its path below `/enterprise/settings/` and its label. */
  datatype MenuItem = MenuItem(path: string, name: string)

  /** `settingsMenu`, in menu order. */
  const SettingsMenu: seq<MenuItem> := [
    MenuItem("interviewers", "面试官管理"),
    MenuItem("users", "用户管理"),
    MenuItem("departments", "部门管理"),
    MenuItem("locations", "面试地点管理"),
    MenuItem("company", "公司信息管理")]

  /** `isActiveRoute`: the pathname ends with the item's path. */
  predicate IsActiveRoute(pathname: string, path: string) {
    EndsWith(pathname, path)
  }

  /** The link of a menu item. */
  function LinkOf(item: MenuItem): (r: string)
    ensures EndsWith(r, item.path) && StartsWith(r, "/enterprise/settings/")
  {
    ConcatEnds("/enterprise/settings/", item.path);
    "/enterprise/settings/" + item.path
  }

  /** Each link highlights its own item. */
  lemma LinkHighlightsOwnItem(i: nat)
    requires i < |SettingsMenu|
    ensures IsActiveRoute(LinkOf(SettingsMenu[i]), SettingsMenu[i].path)
  {
  }

  /** No menu path ends another one: the last four characters of any two differ. */
  lemma NoPathEndsAnother(i: nat, j: nat)
    requires i < |SettingsMenu| && j < |SettingsMenu| && i != j && |SettingsMenu[i].path| <= |SettingsMenu[j].path|
    ensures !EndsWith(SettingsMenu[j].path, SettingsMenu[i].path)
  {
    var a := SettingsMenu[i].path;
    var b := SettingsMenu[j].path;
    assert a[|a| - 4..] != b[|b| - 4..];
  }

  /** So at most one item is highlighted, whatever the pathname. */
  lemma AtMostOneHighlighted(pathname: string, i: nat, j: nat)
    requires i < |SettingsMenu| && j < |SettingsMenu| && i != j
    ensures !(IsActiveRoute(pathname, SettingsMenu[i].path) && IsActiveRoute(pathname, SettingsMenu[j].path))
  {
    var a := SettingsMenu[i].path;
    var b := SettingsMenu[j].path;
    if IsActiveRoute(pathname, a) && IsActiveRoute(pathname, b) {
      if |a| <= |b| {
        SuffixesNest(pathname, a, b);
        NoPathEndsAnother(i, j);
      } else {
        SuffixesNest(pathname, b, a);
        NoPathEndsAnother(j, i);
      }
    }
  }

  /** The index route shows the interviewer settings, yet no item is highlighted on it,
      written with or without the final slash. */
  lemma IndexHighlightsNothing(i: nat)
    requires i < |SettingsMenu|
    ensures !IsActiveRoute("/enterprise/settings", SettingsMenu[i].path)
    ensures !IsActiveRoute("/enterprise/settings/", SettingsMenu[i].path)
  {
    var p := "/enterprise/settings";
    var a := SettingsMenu[i].path;
    assert a[|a| - 1] != p[|p| - 1] || a[|a| - 2] != p[|p| - 2];
    assert a[|a| - 1] != '/';
  }
}
