/** The dashboard frame: the navigation filtered by role, the redirect to the
    login page and the loading spinner, the header title derived from the
    path, the theme toggle and the mobile sidebar. */
module DashboardLayout {
  import opened JsBuiltins
  import opened Types

  const LoginPath := "/login"
  const DefaultTitle := "Dashboard"

  /** A navigation entry and the roles it is shown to. */
  datatype NavItem = NavItem(name: string, href: string, roles: seq<UserRole>)

  const Overview := NavItem("Overview", "/dashboard", [RoleBoss, RoleUser])
  const Approvals := NavItem("Approvals", "/dashboard/approvals", [RoleBoss])
  const TasksItem := NavItem("Tasks", "/dashboard/tasks", [RoleBoss, RoleUser])
  const NavItems := [Overview, Approvals, TasksItem]

  /** The entries shown to a role, in the declared order; the desktop and
      the mobile sidebar apply the same rule. */
  function VisibleNav(role: UserRole): seq<NavItem> {
    Filter(NavItems, (item: NavItem) => role in item.roles)
  }

  /** BOSS sees all three entries, USER sees Overview and Tasks, PENDING
      sees none. */
  lemma VisibleNavByRole()
    ensures VisibleNav(RoleBoss) == [Overview, Approvals, TasksItem]
    ensures VisibleNav(RoleUser) == [Overview, TasksItem]
    ensures VisibleNav(RolePending) == []
  {
    FilterAll(NavItems, (item: NavItem) => RoleBoss in item.roles);
    var user := (item: NavItem) => RoleUser in item.roles;
    assert Filter(NavItems, user) == [Overview] + Filter([Approvals, TasksItem], user);
    assert Filter([Approvals, TasksItem], user) == Filter([TasksItem], user);
    assert [Approvals, TasksItem][1..] == [TasksItem];
    FilterNone(NavItems, (item: NavItem) => RolePending in item.roles);
  }

  /** Approvals is shown exactly to BOSS. */
  lemma ApprovalsOnlyForBoss(role: UserRole)
    ensures Approvals in VisibleNav(role) <==> role == RoleBoss
  {
    FilterSpec(NavItems, (item: NavItem) => role in item.roles);
  }

  /** An entry is highlighted when the path equals its href exactly. */
  predicate IsActive(pathname: string, item: NavItem) {
    pathname == item.href
  }

  /** The hrefs are distinct, so at most one entry is highlighted. */
  lemma AtMostOneActive(pathname: string, i: nat, j: nat)
    requires i < |NavItems| && j < |NavItems|
    requires IsActive(pathname, NavItems[i]) && IsActive(pathname, NavItems[j])
    ensures i == j
  {
    assert |Overview.href| != |Approvals.href| && |Overview.href| != |TasksItem.href|;
    assert Approvals.href[11] != TasksItem.href[11];
  }

  /** The header: the text after the last '/', or "Dashboard" when it is
      empty. */
  function HeaderTitle(pathname: string): (r: string)
    ensures r != "" && '/' !in r
    ensures r == DefaultTitle || (|r| <= |pathname| && r == pathname[|pathname| - |r|..])
    ensures pathname == [] || pathname[|pathname| - 1] == '/' ==> r == DefaultTitle
    ensures pathname != [] && pathname[|pathname| - 1] != '/' ==>
              |r| <= |pathname| && r == pathname[|pathname| - |r|..]
              && (|r| == |pathname| || pathname[|pathname| - |r| - 1] == '/')
  {
    var segment := LastSegment(pathname, '/');
    if segment == "" then
      NoSlashInDefault();
      DefaultTitle
    else segment
  }

  /** The default header is a non-empty word without a '/'. */
  lemma NoSlashInDefault()
    ensures DefaultTitle != "" && '/' !in DefaultTitle
  {
    assert forall i :: 0 <= i < |DefaultTitle| ==> DefaultTitle[i] != '/';
  }

  /** The header of the tasks page reads "tasks". */
  lemma TasksPageTitle()
    ensures HeaderTitle("/dashboard/tasks") == "tasks"
  {
    assert "/dashboard/tasks" == "/dashboard" + ['/'] + "tasks";
    LastSegmentAfter("/dashboard", '/', "tasks");
  }

  /** A path ending in '/' has the default header. */
  lemma TrailingSlashTitle(head: string)
    ensures HeaderTitle(head + "/") == DefaultTitle
  {
    LastSegmentAfter(head, '/', "");
    assert head + "/" == head + ['/'] + "";
  }

  /** The login redirect fires once loading has finished without a user. */
  function RedirectTarget(isLoading: bool, user: Option<User>): (r: Option<string>)
    ensures r.Some? <==> !isLoading && user.None?
    ensures r.Some? ==> r.value == LoginPath
  {
    if !isLoading && user.None? then Some(LoginPath) else None
  }

  /** Only the spinner is rendered while loading or without a user. */
  predicate ShowsSpinner(isLoading: bool, user: Option<User>) {
    isLoading || user.None?
  }

  /** Whenever the layout redirects, it renders only the spinner; when it
      renders the frame, there is a user and no redirect. */
  lemma RedirectOnlyBehindSpinner(isLoading: bool, user: Option<User>)
    ensures RedirectTarget(isLoading, user).Some? ==> ShowsSpinner(isLoading, user)
    ensures !ShowsSpinner(isLoading, user) ==> user.Some? && RedirectTarget(isLoading, user).None?
  {
  }

  /** The theme toggle: "dark" becomes "light", anything else (including
      no theme yet) becomes "dark". */
  function ToggledTheme(theme: Option<string>): (r: string)
    ensures r == "light" <==> theme == Some("dark")
    ensures r == "dark" <==> theme != Some("dark")
  {
    if theme == Some("dark") then "light" else "dark"
  }

  /** Toggling twice from either of the two named themes comes back to it. */
  lemma ToggleTwice(theme: string)
    requires theme == "dark" || theme == "light"
    ensures ToggledTheme(Some(ToggledTheme(Some(theme)))) == theme
  {
    assert "light" != "dark";
  }

  class Layout {
    var theme: Option<string>
    var isSidebarOpen: bool

    constructor (theme: Option<string>)
      ensures this.theme == theme && !isSidebarOpen
    {
      this.theme := theme;
      isSidebarOpen := false;
    }

    method ToggleTheme()
      modifies this
      ensures theme == Some(ToggledTheme(old(theme)))
      ensures isSidebarOpen == old(isSidebarOpen)
    {
      theme := Some(ToggledTheme(theme));
    }

    /** The menu button opens the mobile sidebar. */
    method OpenSidebar()
      modifies this
      ensures isSidebarOpen && theme == old(theme)
    {
      isSidebarOpen := true;
    }

    /** Following a link in the mobile sidebar closes it. */
    method FollowMobileLink()
      modifies this
      ensures !isSidebarOpen && theme == old(theme)
    {
      isSidebarOpen := false;
    }
  }
}
