/// The application shell (`Page`): it seeds the user store, gates every view
/// behind the login, switches tabs, opens and closes the two sidebar menus,
/// takes the calculator hand-off, and logs out on request or after
/// inactivity.
module Page {
  import opened Records
  import Login

  /** The two collapsible sidebar menus. */
  datatype Dropdown = ReportMenu | ServiceMenu

  /** What the main area shows for the active tab. */
  datatype Panel =
    | HomePanel
    | CalculatorPanel
    | ServicePanel
    | ReportPanel(selectedServices: seq<string>, totalAmount: int)
    | AccountPanel
    | ReportOverviewPanel
    | ServiceOverviewPanel
    | EmptyPanel

  /** The whole page: the login form, or the sidebar (with or without the account button) and a panel. */
  datatype Screen = LoginScreen | Dashboard(accountButton: bool, panel: Panel)

  /** The one user written when the `users` key is missing. */
  const SeededUsers: seq<User> := [User(Admin, "1134", None, None)]

  /** The panel the tab selects; the account panel needs the administrator too. */
  function PanelFor(tab: string, user: string, selectedServices: seq<string>, totalAmount: int): (p: Panel)
    ensures p == AccountPanel <==> tab == "account" && user == Admin
    ensures p.ReportPanel? <==> tab == "report"
    ensures p.ReportPanel? ==> p.selectedServices == selectedServices && p.totalAmount == totalAmount
  {
    if tab == "home" then HomePanel
    else if tab == "calculator" then CalculatorPanel
    else if tab == "service" then ServicePanel
    else if tab == "report" then ReportPanel(selectedServices, totalAmount)
    else if tab == "account" && user == Admin then AccountPanel
    else if tab == "report-overview" then ReportOverviewPanel
    else if tab == "service-overview" then ServiceOverviewPanel
    else EmptyPanel
  }

  /** The first-mount effect: write the administrator only when the `users` key is absent. */
  method SeedUsers(store: LocalStore)
    modifies store`users
    ensures old(store.users).None? ==> store.users == Some(SeededUsers)
    ensures old(store.users).Some? ==> store.users == old(store.users)
  {
    if store.users.None? {
      store.users := Some(SeededUsers);
    }
  }

  class Page {
    var loggedInUser: string
    var activeTab: string
    var selectedServices: seq<string>
    var totalAmount: int
    var isReportOpen: bool
    var isServiceOpen: bool

    constructor ()
      ensures loggedInUser == "" && activeTab == "home"
      ensures selectedServices == [] && totalAmount == 0
      ensures !isReportOpen && !isServiceOpen
    {
      loggedInUser := "";
      activeTab := "home";
      selectedServices := [];
      totalAmount := 0;
      isReportOpen := false;
      isServiceOpen := false;
    }

    /** What is on screen. */
    function View(): (s: Screen)
      reads this
      ensures s.LoginScreen? <==> loggedInUser == ""
      ensures s.Dashboard? ==> (s.accountButton <==> loggedInUser == Admin)
      ensures (s.Dashboard? && s.panel == AccountPanel) <==> loggedInUser == Admin && activeTab == "account"
    {
      if loggedInUser == "" then LoginScreen
      else Dashboard(loggedInUser == Admin, PanelFor(activeTab, loggedInUser, selectedServices, totalAmount))
    }

    /** `onLogin={setLoggedInUser}` */
    method SetLoggedInUser(username: string)
      modifies this`loggedInUser
      ensures loggedInUser == username
    {
      loggedInUser := username;
    }

    /** Submitting the login form: the page takes the username only on a credential match. */
    method SignIn(form: Login.Login, store: LocalStore)
      modifies this`loggedInUser, form`error
      ensures var found := Login.FindCredential(store.UserList(), form.username, form.password);
        loggedInUser == if found.Some? then form.username else old(loggedInUser)
      ensures unchanged(store)
    {
      var onLogin := form.HandleSubmit(store);
      if onLogin.Some? {
        SetLoggedInUser(onLogin.value);
      }
    }

    /** `handleLogout` */
    method HandleLogout()
      modifies this`loggedInUser, this`activeTab
      ensures loggedInUser == "" && activeTab == "home"
    {
      loggedInUser := "";
      activeTab := "home";
    }

    /** `handleInactivity`: log out, but only if someone is logged in. */
    method HandleInactivity()
      modifies this`loggedInUser, this`activeTab
      ensures old(loggedInUser) == "" ==> loggedInUser == old(loggedInUser) && activeTab == old(activeTab)
      ensures old(loggedInUser) != "" ==> loggedInUser == "" && activeTab == "home"
      ensures View() == LoginScreen
    {
      if loggedInUser != "" {
        HandleLogout();
      }
    }

    /** `handleReportSubmit`: the calculator hand-off opens the report form with the selection and total. */
    method HandleReportSubmit(services: seq<string>, total: int)
      modifies this`selectedServices, this`totalAmount, this`activeTab
      ensures selectedServices == services && totalAmount == total && activeTab == "report"
      ensures loggedInUser != "" ==> View() == Dashboard(loggedInUser == Admin, ReportPanel(services, total))
    {
      selectedServices := services;
      totalAmount := total;
      activeTab := "report";
    }

    /** `handleTabChange` */
    method HandleTabChange(tab: string)
      modifies this`activeTab
      ensures activeTab == tab
    {
      activeTab := tab;
    }

    /** `handleDropdownToggle`: flip the named menu and leave the other alone. */
    method HandleDropdownToggle(dropdown: Dropdown)
      modifies this`isReportOpen, this`isServiceOpen
      ensures dropdown == ReportMenu ==> isReportOpen == !old(isReportOpen) && isServiceOpen == old(isServiceOpen)
      ensures dropdown == ServiceMenu ==> isServiceOpen == !old(isServiceOpen) && isReportOpen == old(isReportOpen)
    {
      if dropdown == ReportMenu {
        isReportOpen := !isReportOpen;
      } else {
        isServiceOpen := !isServiceOpen;
      }
    }

    /** Toggling the same menu twice restores both menus. */
    method ToggleTwice(dropdown: Dropdown)
      modifies this`isReportOpen, this`isServiceOpen
      ensures isReportOpen == old(isReportOpen) && isServiceOpen == old(isServiceOpen)
    {
      HandleDropdownToggle(dropdown);
      HandleDropdownToggle(dropdown);
    }
  }
}
