/**
 * The dashboard shell (src/App.tsx): which screen renders, and which widgets
 * the dashboard shows, as boolean rules over the session's role and features.
 */
module App {
  import opened Wrappers
  import opened AuthContext

  /** `user.role === 'admin'`. */
  predicate IsAdmin(u: User) {
    u.role == "admin"
  }

  /** `hasAccess(feature)`: the feature list holds the wildcard `'all'` or the feature itself. */
  predicate HasAccess(u: User, feature: string) {
    "all" in u.allowedFeatures || feature in u.allowedFeatures
  }

  /** The header widget of the dashboard. */
  datatype Header = WeatherForecast | ExpenseTracker

  /** What `AppContent` renders. */
  datatype Screen =
    | StartupSequence
    | LoginScreen
    | Dashboard(header: Header, calculator: bool, chat: bool)

  /** `AppContent`: the startup sequence first, then the login screen without a session, then the dashboard. */
  function Render(isStarting: bool, user: Option<User>): (s: Screen)
    ensures isStarting ==> s == StartupSequence
    ensures !isStarting && user.None? ==> s == LoginScreen
    ensures s.Dashboard? <==> !isStarting && user.Some?
  {
    if isStarting then StartupSequence
    else if user.None? then LoginScreen
    else
      var u := user.value;
      Dashboard(
        if IsAdmin(u) then WeatherForecast else ExpenseTracker,
        !IsAdmin(u) && HasAccess(u, "calculator"),
        IsAdmin(u) || HasAccess(u, "chat"))
  }

  /** An admin never sees the calculator, even with every feature granted, and always sees the chat and the forecast. */
  lemma AdminDashboard(u: User)
    requires IsAdmin(u)
    ensures Render(false, Some(u)) == Dashboard(WeatherForecast, false, true)
  {
  }

  /** A non-admin sees the expense tracker, the calculator exactly when granted, and the chat exactly when granted. */
  lemma NonAdminDashboard(u: User)
    requires !IsAdmin(u)
    ensures var s := Render(false, Some(u));
      && s.Dashboard? && s.header == ExpenseTracker
      && (s.calculator <==> "all" in u.allowedFeatures || "calculator" in u.allowedFeatures)
      && (s.chat <==> "all" in u.allowedFeatures || "chat" in u.allowedFeatures)
  {
  }

  /** What the two users of the table see. */
  lemma TableUsersDashboards()
    ensures Render(false, GetUserConfig("csiedentop")) == Dashboard(WeatherForecast, false, true)
    ensures Render(false, GetUserConfig("sdsiedentop")) == Dashboard(ExpenseTracker, true, true)
  {
    UserTable();
    assert "calculator" in Member.allowedFeatures && "chat" in Member.allowedFeatures;
  }
}
