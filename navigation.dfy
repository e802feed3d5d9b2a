/**
 * components/Navigation.js: the role-to-menu mapping, the theme icon and the
 * mobile-menu flag.
 */
module Navigation {
  import opened Wrappers
  import opened Identity

  /** The lucide icons the menu entries use. */
  datatype Icon = UserIcon | ScanLineIcon | GraduationCapIcon | UsersIcon | SettingsIcon

  datatype NavItem = NavItem(id: string, title: string, icon: Icon)

  /** The ids of a list of menu entries, in order. */
  function Ids(items: seq<NavItem>): (ids: seq<string>)
    ensures |ids| == |items|
    ensures forall i :: 0 <= i < |items| ==> ids[i] == items[i].id
  {
    seq(|items|, i requires 0 <= i < |items| => items[i].id)
  }

  /**
   * `getNavItems`: the menu for the signed-in user's role, by id; no user and
   * any other role get none. Every menu starts with the dashboard and then
   * attendance, and no id repeats.
   */
  function NavItems(user: Option<User>): (items: seq<NavItem>)
    ensures user.None? ==> items == []
    ensures user.Some? && user.value.role == "student" ==> Ids(items) == ["dashboard", "attendance", "portfolio"]
    ensures user.Some? && user.value.role == "teacher" ==> Ids(items) == ["dashboard", "attendance", "students"]
    ensures user.Some? && user.value.role == "admin" ==> Ids(items) == ["dashboard", "attendance", "users", "settings"]
    ensures user.Some? && user.value.role !in {"student", "teacher", "admin"} ==> items == []
    ensures items != [] ==> |items| >= 2 && items[0].id == "dashboard" && items[1].id == "attendance"
    ensures forall i, j :: 0 <= i < j < |items| ==> items[i].id != items[j].id
  {
    match user
    case None => []
    case Some(u) =>
      if u.role == "student" then
        [ NavItem("dashboard", "Dashboard", UserIcon),
          NavItem("attendance", "Attendance", ScanLineIcon),
          NavItem("portfolio", "Portfolio", GraduationCapIcon) ]
      else if u.role == "teacher" then
        [ NavItem("dashboard", "Dashboard", UserIcon),
          NavItem("attendance", "Attendance", ScanLineIcon),
          NavItem("students", "Students", UsersIcon) ]
      else if u.role == "admin" then
        [ NavItem("dashboard", "Dashboard", UserIcon),
          NavItem("attendance", "Attendance", ScanLineIcon),
          NavItem("users", "Manage Users", UsersIcon),
          NavItem("settings", "Settings", SettingsIcon) ]
      else []
  }

  datatype ThemeIcon = Sun | Moon | Monitor

  /** The theme button's icon: Sun for "light", Moon for "dark", Monitor for anything else. */
  function ThemeIconFor(theme: string): (icon: ThemeIcon)
    ensures icon == Sun <==> theme == "light"
    ensures icon == Moon <==> theme == "dark"
    ensures icon == Monitor <==> theme != "light" && theme != "dark"
  {
    if theme == "light" then Sun else if theme == "dark" then Moon else Monitor
  }

  /** The navigation bar's own state: whether the mobile menu is open. */
  class NavigationMenu {
    var isMobileMenuOpen: bool

    constructor ()
      ensures !isMobileMenuOpen
    {
      isMobileMenuOpen := false;
    }

    /** The menu button flips the flag. */
    method ToggleMobileMenu()
      modifies this
      ensures isMobileMenuOpen == !old(isMobileMenuOpen)
    {
      isMobileMenuOpen := !isMobileMenuOpen;
    }

    /** Choosing a mobile entry asks for its view and closes the menu. */
    method ChooseMobileItem(item: NavItem) returns (view: string)
      modifies this
      ensures view == item.id
      ensures !isMobileMenuOpen
    {
      view := item.id;
      isMobileMenuOpen := false;
    }
  }
}
