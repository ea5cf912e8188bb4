/** The App component's session state machine: the logged-in user, the active
    tab, and the `currentUser` key of local storage; and which view is shown. */
module App {
  import opened Wrappers
  import opened Records
  import Auth

  /** The tabs the navigation offers. */
  datatype Tab = Home | Dashboard | Workout | Progress | Profile

  datatype Session = Session(user: Option<User>, tab: Tab, stored: Option<User>)

  /** The stored `currentUser` is present exactly when a user is logged in, and is that user. */
  predicate Consistent(s: Session) {
    s.stored == s.user
  }

  /** The initial state and the mount effect: the home tab, and the user
      rehydrated from the stored `currentUser` when there is one. */
  function Mount(stored: Option<User>): (s: Session)
    ensures s.tab == Home && s.user == stored
    ensures Consistent(s)
  {
    Session(stored, Home, stored)
  }

  /** `handleLogin`: set the user, store it as `currentUser`, show the dashboard. */
  function Login(s: Session, u: User): (r: Session)
    ensures r.user == Some(u) && r.stored == Some(u) && r.tab == Dashboard
    ensures Consistent(r)
  {
    Session(Some(u), Dashboard, Some(u))
  }

  /** `handleLogout`: clear the user, remove `currentUser`, show the home tab. */
  function Logout(s: Session): (r: Session)
    ensures r.user == None && r.stored == None && r.tab == Home
    ensures Consistent(r)
  {
    Session(None, Home, None)
  }

  /** `handleGetStarted`: the dashboard when a user is logged in; otherwise the
      user is set to null again, which changes nothing. */
  function GetStarted(s: Session): (r: Session)
    ensures s.user.None? ==> r == s
    ensures s.user.Some? ==> r == s.(tab := Dashboard)
    ensures Consistent(s) ==> Consistent(r)
  {
    if s.user.None? then s.(user := None) else s.(tab := Dashboard)
  }

  /** The navigation's tab change: only the tab moves. */
  function Navigate(s: Session, tab: Tab): (r: Session)
    ensures r.tab == tab && r.user == s.user && r.stored == s.stored
  {
    s.(tab := tab)
  }

  /** Every handler keeps the stored user equal to the in-memory user. */
  lemma HandlersKeepConsistent(s: Session, u: User, tab: Tab)
    requires Consistent(s)
    ensures Consistent(Login(s, u)) && Consistent(Logout(s))
    ensures Consistent(GetStarted(s)) && Consistent(Navigate(s, tab))
  {
  }

  datatype View = AuthView | HomeView | DashboardView | TrackerView | ProgressView | ProfileView

  /** The view for a tab. */
  function TabView(tab: Tab): (v: View)
    ensures v != AuthView
  {
    match tab
    case Home => HomeView
    case Dashboard => DashboardView
    case Workout => TrackerView
    case Progress => ProgressView
    case Profile => ProfileView
  }

  /** What the app renders: the Auth view with no user; otherwise the view of the
      active tab. */
  function Screen(s: Session): (v: View)
    ensures v == AuthView <==> s.user.None?
    ensures s.user.Some? ==> v == TabView(s.tab)
  {
    if s.user.None? then AuthView else TabView(s.tab)
  }

  /** Each tab has its own view, so with a user exactly one of the five views is shown. */
  lemma TabViewInjective(a: Tab, b: Tab)
    ensures TabView(a) == TabView(b) <==> a == b
  {
  }

  /** A submit on the Auth view followed by the app's `onLogin`: a successful submit
      logs in the user it returns and shows the dashboard; a failed one leaves the
      session as it was. */
  function SubmitAuth(s: Session, a: Auth.AuthState, users: Option<seq<User>>, id: string): (r: (Session, Auth.Submission))
    ensures r.1 == Auth.Submit(a, users, id)
    ensures r.1.login.None? ==> r.0 == s
    ensures r.1.login.Some? ==> r.0.user == r.1.login && r.0.tab == Dashboard && Consistent(r.0)
  {
    var sub := Auth.Submit(a, users, id);
    if sub.login.Some? then (Login(s, sub.login.value), sub) else (s, sub)
  }

  /** A successful signup appends one user to the registry and that user becomes
      the session user and the stored `currentUser`. */
  lemma SignupLogsNewUserIn(s: Session, a: Auth.AuthState, users: Option<seq<User>>, id: string)
    requires a.tab == Auth.SignupTab
    requires a.form.name != "" && a.form.email != "" && a.form.password != ""
    requires !Auth.EmailRegistered(Auth.Registry(users), a.form.email)
    ensures var (session, sub) := SubmitAuth(s, a, users, id);
      && sub.stored == Some(Auth.Registry(users) + [User(id, a.form.name, a.form.email, a.form.password)])
      && session.user == Some(User(id, a.form.name, a.form.email, a.form.password))
      && session.stored == session.user
  {
  }
}
