/** The session of `lib/auth.ts` as a state machine over immutable values. Each handler is
    one atomic transition from the current `AuthState` and storage slot to a new state, a new
    slot and the navigation it requests. */
module Auth {
  import opened Common
  import opened Types
  import opened Text
  import Fixtures

  /** The browser storage entry under the key "equilink_user": missing, the empty string
      (falsy, so treated like a missing entry), the text `JSON.stringify(written)` wrote for a
      user, or text that does not parse. */
  datatype Slot = Absent | Blank | WellFormed(written: User) | Malformed

  /** The outcome of one handler. */
  datatype Step = Step(state: AuthState, slot: Slot, nav: Nav)

  /** The fields of the `Partial<User>` that signup reads; the others are ignored. */
  datatype SignupData = SignupData(name: Option<string>, email: Option<string>, userType: Option<UserType>)

  const InvalidStoredData := "Invalid stored user data"
  const InvalidCredentials := "Invalid email or password"
  const LoginFailed := "An error occurred during login"
  const SignupFailed := "An error occurred during signup"

  /** The state before the stored session has been read. */
  const Initial := AuthState(None, true, None)

  /** The three phases a session can be observed in. */
  datatype Phase = Unresolved | Authenticated | Anonymous

  function PhaseOf(s: AuthState): Phase
  {
    if s.isLoading then Unresolved else if s.user.Some? then Authenticated else Anonymous
  }

  /** Two users that agree on every field except the creation time. */
  predicate SameExceptCreation(a: User, b: User)
  {
    a.(createdAt := b.createdAt) == b
  }

  /** What `JSON.parse(JSON.stringify(u))` gives back: every field is plain data and survives,
      except that a `Date` creation time comes back as its ISO text. */
  function Parsed(u: User): (r: User)
    ensures SameExceptCreation(r, u)
    ensures r.createdAt.AsText? && r.createdAt.ms == u.createdAt.ms
    ensures r == u <==> u.createdAt.AsText?
  {
    u.(createdAt := AsText(u.createdAt.ms))
  }

  /** Whenever a user is held in memory, the storage slot holds text that parses back to that
      user, up to the creation time turning into text of the same instant. */
  ghost predicate Persisted(s: AuthState, slot: Slot)
  {
    s.user.Some? ==> slot.WellFormed? && Parsed(slot.written) == Parsed(s.user.value)
  }

  /** The initial state: no user, loading, no error. */
  lemma InitialIsUnresolved()
    ensures Initial.user == None && Initial.isLoading && Initial.error == None
    ensures PhaseOf(Initial) == Unresolved
    ensures forall slot :: Persisted(Initial, slot)
  {
  }

  /* ---------------- rehydration ---------------- */

  /** The mount effect: read the slot once and leave the loading phase. An absent or blank
      slot only clears the loading flag; the slot itself is never written. */
  function Rehydrate(s: AuthState, slot: Slot): (r: AuthState)
    ensures PhaseOf(r) != Unresolved
    ensures (slot.Absent? || slot.Blank?) ==> r.user == s.user && r.error == s.error
    ensures slot.WellFormed? ==> r.user == Some(Parsed(slot.written)) && r.error == None
    ensures slot.Malformed? ==> r.user == None && r.error == Some(InvalidStoredData)
  {
    match slot
    case Absent => s.(isLoading := false)
    case Blank => s.(isLoading := false)
    case WellFormed(u) => AuthState(Some(Parsed(u)), false, None)
    case Malformed => AuthState(None, false, Some(InvalidStoredData))
  }

  /** From the initial state, rehydration ends authenticated exactly when the slot holds a
      user, and carries an error exactly when the slot is malformed. */
  lemma RehydrateFromInitial(slot: Slot)
    ensures var r := Rehydrate(Initial, slot);
      && (PhaseOf(r) == Authenticated <==> slot.WellFormed?)
      && (r.error.Some? <==> slot.Malformed?)
      && ((slot.Absent? || slot.Blank?) ==> r == AuthState(None, false, None))
  {
  }

  /* ---------------- login ---------------- */

  /** The state published while login or signup waits: loading, error cleared, user kept. */
  function Begin(s: AuthState): (r: AuthState)
    ensures r.user == s.user && r.isLoading && r.error == None
    ensures PhaseOf(r) == Unresolved
  {
    s.(isLoading := true, error := None)
  }

  /** Login once the delay is over (the state published meanwhile is `Begin(s)`, which the
      outcome overwrites entirely): only the known email succeeds, and the password is
      ignored. A failed attempt clears any previous user but leaves the slot untouched. */
  function Login(s: AuthState, slot: Slot, email: string, password: string, delay: Delay): (r: Step)
    ensures PhaseOf(r.state) != Unresolved
    ensures delay == Elapsed && email == Fixtures.CurrentUser.email ==>
      r == Step(AuthState(Some(Fixtures.CurrentUser), false, None),
                WellFormed(Fixtures.CurrentUser), PushTo("/dashboard"))
    ensures delay == Elapsed && email != Fixtures.CurrentUser.email ==>
      r == Step(AuthState(None, false, Some(InvalidCredentials)), slot, Stay)
    ensures delay == Faulted ==> r == Step(AuthState(None, false, Some(LoginFailed)), slot, Stay)
  {
    if delay == Faulted then
      Step(AuthState(None, false, Some(LoginFailed)), slot, Stay)
    else if email == Fixtures.CurrentUser.email then
      Step(AuthState(Some(Fixtures.CurrentUser), false, None), WellFormed(Fixtures.CurrentUser), PushTo("/dashboard"))
    else
      Step(AuthState(None, false, Some(InvalidCredentials)), slot, Stay)
  }

  /** Login succeeds exactly for "jane@example.com", whatever the password and prior state. */
  lemma LoginAcceptsOnlyKnownEmail(s: AuthState, slot: Slot, email: string, password: string)
    ensures PhaseOf(Login(s, slot, email, password, Elapsed).state) == Authenticated
      <==> email == "jane@example.com"
  {
  }

  /** The password never influences the outcome. */
  lemma LoginIgnoresPassword(s: AuthState, slot: Slot, email: string, p1: string, p2: string, delay: Delay)
    ensures Login(s, slot, email, p1, delay) == Login(s, slot, email, p2, delay)
  {
  }

  /* ---------------- signup ---------------- */

  /** `value || fallback` for an optional string: missing or empty falls back. */
  function OrElse(value: Option<string>, fallback: string): (r: string)
    ensures r == fallback || (value.Some? && r == value.value)
    ensures r == fallback <==> value.None? || value.value == "" || value.value == fallback
  {
    if value.Some? && value.value != "" then value.value else fallback
  }

  /** The user signup creates at clock value `now` (milliseconds): the id is "user-" followed
      by the clock, missing fields take fixed defaults and the optional profile fields are dropped. */
  function NewUser(data: SignupData, now: int): (u: User)
    ensures u.id == "user-" + IntToString(now) && u.createdAt == AsDate(now)
    ensures u.name != "" && u.email != ""
    ensures data.name.None? || data.name.value == "" ==> u.name == "New User"
    ensures data.name.Some? && data.name.value != "" ==> u.name == data.name.value
    ensures data.email.None? || data.email.value == "" ==> u.email == "user@example.com"
    ensures data.email.Some? && data.email.value != "" ==> u.email == data.email.value
    ensures u.userType == (if data.userType.Some? then data.userType.value else Mentee)
    ensures u.image.None? && u.bio.None? && u.skills.None? && u.location.None?
  {
    User("user-" + IntToString(now),
         OrElse(data.name, "New User"),
         OrElse(data.email, "user@example.com"),
         None,
         if data.userType.Some? then data.userType.value else Mentee,
         None, None, None,
         AsDate(now))
  }

  /** Signups at different clock values produce different ids. */
  lemma SignupIdsDistinct(d1: SignupData, d2: SignupData, t1: int, t2: int)
    requires t1 != t2
    ensures NewUser(d1, t1).id != NewUser(d2, t2).id
  {
    var a, b := IntToString(t1), IntToString(t2);
    if "user-" + a == "user-" + b {
      assert a == ("user-" + a)[5..];
      assert b == ("user-" + b)[5..];
      IntToStringInjective(t1, t2);
    }
  }

  /** Signup once the delay is over (meanwhile the state is `Begin(s)`): it always succeeds
      unless the delay faults, stores the new user and goes to the dashboard. */
  function Signup(s: AuthState, slot: Slot, data: SignupData, now: int, delay: Delay): (r: Step)
    ensures PhaseOf(r.state) != Unresolved
    ensures delay == Elapsed ==>
      && r.state == AuthState(Some(NewUser(data, now)), false, None)
      && r.slot == WellFormed(NewUser(data, now))
      && r.nav == PushTo("/dashboard")
    ensures delay == Faulted ==> r == Step(AuthState(None, false, Some(SignupFailed)), slot, Stay)
  {
    if delay == Faulted then
      Step(AuthState(None, false, Some(SignupFailed)), slot, Stay)
    else
      var u := NewUser(data, now);
      Step(AuthState(Some(u), false, None), WellFormed(u), PushTo("/dashboard"))
  }

  /** Signup with a name and email keeps them and defaults the role to mentee. */
  lemma SignupScenario(s: AuthState, slot: Slot, now: int)
    ensures var r := Signup(s, slot, SignupData(Some("A"), Some("a@x.com"), None), now, Elapsed);
      && r.state.user.Some?
      && r.state.user.value.name == "A" && r.state.user.value.email == "a@x.com"
      && r.state.user.value.userType == Mentee
      && r.slot == WellFormed(r.state.user.value)
  {
  }

  /* ---------------- logout ---------------- */

  /** Logout deletes the slot, clears the session and goes to the landing page. */
  function Logout(s: AuthState, slot: Slot): (r: Step)
    ensures PhaseOf(r.state) == Anonymous && r.state.error == None
    ensures r.slot == Absent && r.nav == PushTo("/")
  {
    Step(AuthState(None, false, None), Absent, PushTo("/"))
  }

  /** Logging out a second time gives the same state and slot. */
  lemma LogoutIdempotent(s: AuthState, slot: Slot)
    ensures var once := Logout(s, slot);
      Logout(once.state, once.slot) == once
  {
  }

  /* ---------------- session invariants ---------------- */

  /** Every handler keeps the memory/storage agreement, and every completed handler
      leaves the loading phase. */
  lemma HandlersKeepPersisted(s: AuthState, slot: Slot, email: string, password: string,
                              data: SignupData, now: int, delay: Delay)
    requires Persisted(s, slot)
    ensures Persisted(Rehydrate(s, slot), slot)
    ensures Persisted(Begin(s), slot)
    ensures var r := Login(s, slot, email, password, delay); Persisted(r.state, r.slot)
    ensures var r := Signup(s, slot, data, now, delay); Persisted(r.state, r.slot)
    ensures var r := Logout(s, slot); Persisted(r.state, r.slot)
  {
  }

  /** A reload after a handler that leaves a user in memory signs the same user back in:
      every field agrees and the creation time is the same instant, now in text form, so the
      session comes back identical exactly when the user in memory already held the text. */
  lemma ReloadRestoresSession(st: AuthState, slot: Slot)
    requires Persisted(st, slot) && st.user.Some? && !st.isLoading && st.error == None
    ensures var r := Rehydrate(Initial, slot);
      && r.user.Some? && !r.isLoading && r.error == None
      && SameExceptCreation(r.user.value, st.user.value)
      && r.user.value.createdAt == AsText(st.user.value.createdAt.ms)
      && (r == st <==> st.user.value.createdAt.AsText?)
  {
  }

  /** Reloading after a successful login or signup brings back the user with the same fields
      and the same creation instant, but as text where memory holds a `Date`, so the session is
      not identical; after logout the reload gives exactly the logged-out session. */
  lemma ReloadAfterHandlers(s: AuthState, slot: Slot, data: SignupData, now: int)
    ensures var r := Login(s, slot, Fixtures.CurrentUser.email, "", Elapsed);
      var back := Rehydrate(Initial, r.slot);
      && back.user.Some? && SameExceptCreation(back.user.value, Fixtures.CurrentUser)
      && back.user.value.createdAt == AsText(Fixtures.CurrentUser.createdAt.ms)
      && back != r.state
    ensures var r := Signup(s, slot, data, now, Elapsed);
      var back := Rehydrate(Initial, r.slot);
      && back.user.Some? && SameExceptCreation(back.user.value, NewUser(data, now))
      && back.user.value.createdAt == AsText(now)
      && back != r.state
    ensures var r := Logout(s, slot);
      Rehydrate(Initial, r.slot) == r.state
  {
    var l := Login(s, slot, Fixtures.CurrentUser.email, "", Elapsed);
    ReloadRestoresSession(l.state, l.slot);
    var g := Signup(s, slot, data, now, Elapsed);
    ReloadRestoresSession(g.state, g.slot);
  }

  /** A failed login while signed in clears the user in memory but not in storage, so a
      reload signs the previous user back in. */
  lemma FailedLoginKeepsStoredUser(u: User, email: string, password: string)
    requires email != Fixtures.CurrentUser.email
    ensures var r := Login(AuthState(Some(u), false, None), WellFormed(u), email, password, Elapsed);
      && r.state.user == None
      && Rehydrate(Initial, r.slot).user == Some(Parsed(u))
  {
  }

  /** Reading back a stored copy of the known user. */
  lemma RehydrateKnownUser()
    ensures var r := Rehydrate(Initial, WellFormed(Fixtures.CurrentUser));
      r.user.Some? && r.user.value.name == "Jane Cooper" && !r.isLoading
  {
  }
}
