/**
 * The session-gated routes: the session holds at most one bound user, which `POST /login`
 * sets and `/logout` clears; `/`, `/login` and `/dashboard` only test it.
 */
module Routes {
  import opened Wrappers
  import opened JsValues
  import opened Dates
  import opened Family
  import opened Login
  import opened Registration

  class Session {
    /** `req.session.user`. */
    var user: Option<SessionUser>

    /** A fresh session has no user bound. */
    constructor ()
      ensures user == None
    {
      user := None;
    }

    /** `GET /`: an authenticated session is sent to the dashboard, any other gets the registration page. */
    method Home() returns (resp: Response)
      ensures resp == Redirect("/dashboard") <==> user.Some?
      ensures user.None? ==> resp == SendFile("1stProject.html")
    {
      if user.Some? {
        return Redirect("/dashboard");
      }
      resp := SendFile("1stProject.html");
    }

    /** `GET /login`: an authenticated session is sent to the dashboard, any other gets the login page without error. */
    method LoginPage() returns (resp: Response)
      ensures resp == Redirect("/dashboard") <==> user.Some?
      ensures user.None? ==> resp == RenderLogin(None)
    {
      if user.Some? {
        return Redirect("/dashboard");
      }
      resp := RenderLogin(None);
    }

    /**
     * `POST /login`: on success binds the user and redirects to the dashboard; on every
     * refusal re-renders the login page with its message and leaves the session as it was.
     * The store is only read.
     */
    method SignIn(email: Option<string>, dob: Option<string>, store: seq<StoredFamily>, parseDate: DateParser)
      returns (resp: Response)
      modifies this
      ensures var d := Decide(email, dob, store, parseDate);
        if d.LoggedIn? then user == Some(d.user) && resp == Redirect("/dashboard")
        else user == old(user) && resp == RenderLogin(Some(FailureMessage(d)))
    {
      var d := Decide(email, dob, store, parseDate);
      if !d.LoggedIn? {
        return RenderLogin(Some(FailureMessage(d)));
      }
      user := Some(d.user);
      resp := Redirect("/dashboard");
    }

    /** `GET /dashboard`: denied, by a redirect to the login page, exactly when no user is bound. */
    method Dashboard() returns (resp: Response)
      ensures resp == Redirect("/login") <==> user.None?
      ensures user.Some? ==> resp == RenderDashboard(user.value)
    {
      if user.None? {
        return Redirect("/login");
      }
      resp := RenderDashboard(user.value);
    }

    /** `GET /logout`: destroys the session whatever it held and redirects to the login page. */
    method Logout() returns (resp: Response)
      modifies this
      ensures user == None
      ensures resp == Redirect("/login")
    {
      user := None;
      resp := Redirect("/login");
    }
  }

  /** After a logout the dashboard is denied, whatever the session held before. */
  method LogoutDeniesDashboard(s: Session) returns (resp: Response)
    modifies s
    ensures s.user == None && resp == Redirect("/login")
  {
    var _ := s.Logout();
    resp := s.Dashboard();
  }

  /** A successful login lets the same session into the dashboard, showing the bound user. */
  method LoginOpensDashboard(s: Session, email: Option<string>, dob: Option<string>,
                             store: seq<StoredFamily>, parseDate: DateParser) returns (resp: Response)
    modifies s
    ensures var d := Decide(email, dob, store, parseDate);
      d.LoggedIn? ==> resp == RenderDashboard(d.user)
    ensures var d := Decide(email, dob, store, parseDate);
      !d.LoggedIn? ==> (resp == Redirect("/login") <==> old(s.user).None?)
  {
    var _ := s.SignIn(email, dob, store, parseDate);
    resp := s.Dashboard();
  }

  /**
   * A household registers with two members; because the head and the members share the
   * `occupation` field, the first member receives the head's occupation. The administrator
   * approves the record; the head logs in with the registered email and date of birth, sees the dashboard, logs
   * out and is then denied the dashboard.
   */
  method RegisterApproveLogIn(parseInt: IntParser, parseDate: DateParser, save: FamilyRecord -> Option<string>)
    returns (submitted: Response, members: nat, firstOccupation: Field, login: Response, dashboard: Response,
             logout: Response, afterLogout: Response)
    requires forall r :: save(r) == None
    requires parseDate("1990-01-01").Some?
    ensures submitted == Send(200, RegisteredText)
    ensures members == 2
    ensures firstOccupation == Scalar("engineer")
    ensures login == Redirect("/dashboard")
    ensures dashboard == RenderDashboard(SessionUser("f1", Scalar("a@x.com"), Scalar("Shah Family")))
    ensures logout == Redirect("/login")
    ensures afterLogout == Redirect("/login")
  {
    var body := FormBody(
      value := Scalar("Shah Family"), gender := Scalar("male"), dob := Scalar("1990-01-01"),
      phone := Scalar("9999999999"), email := Scalar("a@x.com"), city := Scalar("Pune"),
      locality := Scalar("Kothrud"), occupation := Seq(["engineer", "student", "student"]),
      gotra := Scalar("Kashyap"), nativePlace := Scalar("Surat"), bloodGroup := Seq(["O+", "A+", "B+"]),
      address := Scalar("12 Main Road"), memberName := Seq(["Raj", "Sita"]),
      relation := Seq(["son", "daughter"]), age := Seq(["20", "18"]),
      maritalStatus := Seq(["single", "single"]), qualification := Seq(["BSc", "HSC"]));
    var record;
    submitted, record := Submit(body, None, parseInt, parseDate, save);
    assert !MemberBuildThrows(body);
    members := |record.value.members|;
    firstOccupation := record.value.members[0].occupation;
    ParallelListsMember(body, parseInt, record.value.members, 0);
    assert record.value.email == Scalar("a@x.com") && record.value.familyHead == Scalar("Shah Family");
    var store := [StoredFamily("f1", record.value.(status := Approved))];
    assert IsFirstApproved(store, "a@x.com", 0);
    var s := new Session();
    login := s.SignIn(Some("a@x.com"), Some("1990-01-01"), store, parseDate);
    dashboard := s.Dashboard();
    logout := s.Logout();
    afterLogout := s.Dashboard();
  }
}
