/** The Auth view: login against the user registry in local storage, signup with
    validation and email uniqueness, and the inline error message. An absent
    `users` key reads as the empty registry. */
module Auth {
  import opened Wrappers
  import opened Records

  datatype AuthTab = LoginTab | SignupTab

  datatype Credentials = Credentials(email: string, password: string, name: string)

  datatype AuthState = AuthState(tab: AuthTab, form: Credentials, error: string)

  const InvalidCredentials: string := "Invalid email or password"
  const FieldsRequired: string := "All fields are required"
  const EmailExists: string := "Email already exists"

  /** `handleTabChange`: switch tabs and clear the error. */
  function ChangeTab(s: AuthState, tab: AuthTab): (r: AuthState)
    ensures r.tab == tab && r.error == "" && r.form == s.form
  {
    AuthState(tab, s.form, "")
  }

  /** `users.find(u => u.email === email)`: the first user with this email. */
  function FindByEmail(users: seq<User>, email: string): (r: Option<User>)
    ensures r.None? <==> forall i :: 0 <= i < |users| ==> users[i].email != email
    ensures r.Some? ==> exists i :: FirstWithEmail(users, email, i) && users[i] == r.value
  {
    if users == [] then None
    else if users[0].email == email then
      assert FirstWithEmail(users, email, 0);
      Some(users[0])
    else
      FirstWithEmailShift(users, email);
      FindByEmail(users[1..], email)
  }

  lemma FirstWithEmailShift(users: seq<User>, email: string)
    requires users != [] && users[0].email != email
    ensures forall i :: FirstWithEmail(users[1..], email, i) ==>
      FirstWithEmail(users, email, i + 1) && users[i + 1] == users[1..][i]
  {
  }

  /** `i` is the index of the first user whose email is `email`. */
  predicate FirstWithEmail(users: seq<User>, email: string, i: int) {
    && 0 <= i < |users|
    && users[i].email == email
    && forall j :: 0 <= j < i ==> users[j].email != email
  }

  /** `users.some(u => u.email === email)`. */
  predicate EmailRegistered(users: seq<User>, email: string) {
    exists i :: 0 <= i < |users| && users[i].email == email
  }

  /** No two registered users share an email. */
  predicate DistinctEmails(users: seq<User>) {
    forall i, j :: 0 <= i < j < |users| ==> users[i].email != users[j].email
  }

  /** The registry a submit reads: the stored `users` list, or the empty list
      when the key is absent. */
  function Registry(stored: Option<seq<User>>): (users: seq<User>)
    ensures stored.None? ==> users == []
    ensures stored.Some? ==> users == stored.value
  {
    stored.GetOr([])
  }

  /** What a submit leaves behind: the view's state, the `users` key of local
      storage, and the user handed to `onLogin`, if any. */
  datatype Submission = Submission(state: AuthState, stored: Option<seq<User>>, login: Option<User>)

  /** `handleSubmit` with the `users` key `stored`; `id` is the id the clock yields.
      The error is cleared first; a submit either logs a user in and leaves the
      error empty, or sets an error and logs nobody in. The tab and form stay, and
      only a successful signup writes the key. */
  function Submit(s: AuthState, stored: Option<seq<User>>, id: string): (r: Submission)
    ensures r.state.tab == s.tab && r.state.form == s.form
    ensures r.login.Some? <==> r.state.error == ""
    ensures r.login.None? ==> r.stored == stored
  {
    var cleared := AuthState(s.tab, s.form, "");
    var f := s.form;
    var users := Registry(stored);
    match s.tab
    case LoginTab =>
      var found := FindByEmail(users, f.email);
      if found.None? || found.value.password != f.password then
        Submission(cleared.(error := InvalidCredentials), stored, None)
      else
        Submission(cleared, stored, found)
    case SignupTab =>
      if f.name == "" || f.email == "" || f.password == "" then
        Submission(cleared.(error := FieldsRequired), stored, None)
      else if EmailRegistered(users, f.email) then
        Submission(cleared.(error := EmailExists), stored, None)
      else
        var newUser := User(id, f.name, f.email, f.password);
        Submission(cleared, Some(users + [newUser]), Some(newUser))
  }

  /** Login succeeds exactly when the first user with the typed email has the typed
      password, and logs in that user; otherwise the error is "Invalid email or
      password". Login never writes the `users` key. */
  lemma LoginOutcome(s: AuthState, stored: Option<seq<User>>, id: string)
    requires s.tab == LoginTab
    ensures var r := Submit(s, stored, id);
      var users := Registry(stored);
      && r.stored == stored
      && (r.login.Some? <==>
            exists i :: FirstWithEmail(users, s.form.email, i) && users[i].password == s.form.password)
      && (r.login.Some? ==> exists i :: FirstWithEmail(users, s.form.email, i) && r.login.value == users[i])
      && (r.login.None? ==> r.state.error == InvalidCredentials)
  {
    var users := Registry(stored);
    var found := FindByEmail(users, s.form.email);
    if found.Some? {
      var i :| FirstWithEmail(users, s.form.email, i) && users[i] == found.value;
      forall k | FirstWithEmail(users, s.form.email, k)
        ensures k == i
      {
      }
    }
  }

  /** With distinct emails, login succeeds exactly when some user has both the
      typed email and the typed password. */
  lemma LoginWithDistinctEmails(s: AuthState, stored: Option<seq<User>>, id: string)
    requires s.tab == LoginTab && DistinctEmails(Registry(stored))
    ensures var users := Registry(stored);
      Submit(s, stored, id).login.Some? <==>
        exists i :: 0 <= i < |users| && users[i].email == s.form.email && users[i].password == s.form.password
  {
    var users := Registry(stored);
    LoginOutcome(s, stored, id);
    if exists i :: 0 <= i < |users| && users[i].email == s.form.email && users[i].password == s.form.password {
      var i :| 0 <= i < |users| && users[i].email == s.form.email && users[i].password == s.form.password;
      assert FirstWithEmail(users, s.form.email, i);
    }
  }

  /** Signup fails with "All fields are required" when a field is empty, then with
      "Email already exists" when the email is registered, and in both cases leaves
      the `users` key as it was. Otherwise it stores the registry with exactly one
      user appended, carrying the typed name, email and password, and logs that
      user in. */
  lemma SignupOutcome(s: AuthState, stored: Option<seq<User>>, id: string)
    requires s.tab == SignupTab
    ensures var r := Submit(s, stored, id);
      var f := s.form;
      var users := Registry(stored);
      && (f.name == "" || f.email == "" || f.password == "" ==>
            r.state.error == FieldsRequired && r.stored == stored && r.login == None)
      && (f.name != "" && f.email != "" && f.password != "" && EmailRegistered(users, f.email) ==>
            r.state.error == EmailExists && r.stored == stored && r.login == None)
      && (f.name != "" && f.email != "" && f.password != "" && !EmailRegistered(users, f.email) ==>
            && r.stored.Some?
            && |r.stored.value| == |users| + 1
            && r.stored.value[..|users|] == users
            && r.stored.value[|users|] == User(id, f.name, f.email, f.password)
            && r.login == Some(r.stored.value[|users|]))
  {
  }

  /** An absent `users` key behaves as an empty registry: the same error and the
      same login, and a successful signup stores the same one-user list. */
  lemma AbsentRegistryLikeEmpty(s: AuthState, id: string)
    ensures Submit(s, None, id).state == Submit(s, Some([]), id).state
    ensures Submit(s, None, id).login == Submit(s, Some([]), id).login
    ensures Submit(s, None, id).login.Some? ==> Submit(s, None, id).stored == Submit(s, Some([]), id).stored
  {
  }

  /** Every submit keeps the registry's emails pairwise distinct. */
  lemma SubmitKeepsEmailsDistinct(s: AuthState, stored: Option<seq<User>>, id: string)
    requires DistinctEmails(Registry(stored))
    ensures DistinctEmails(Registry(Submit(s, stored, id).stored))
  {
    var users := Registry(stored);
    var r := Submit(s, stored, id);
    if s.tab == SignupTab && r.stored != stored {
      var after := Registry(r.stored);
      forall i, j | 0 <= i < j < |after|
        ensures after[i].email != after[j].email
      {
        if j == |users| {
          assert after[i] == users[i];
        }
      }
    }
  }
}
