/** The volunteer side of the server for one browser session: the session's
    mode and user together with the volunteer collection. */
module Server {
  import opened Http
  import opened VolunteerModel
  import opened OpportunityModel
  import opened Auth
  import opened Profiles
  import opened Dashboard

  /** The urlencoded body of `POST /complete-profile`. */
  datatype ProfileForm = ProfileForm(email: Option<string>, name: Option<string>, age: Option<string>,
                                     preferences: FormValue)

  /** The urlencoded body of `POST /edit-profile`; name and age are required inputs of its form. */
  datatype EditForm = EditForm(name: string, age: string, preferences: FormValue)

  /** What `GET /dashboard` answers. */
  datatype DashboardReply =
    | Redirected(to: Redirect)
    | Page(name: string, email: string, recommended: seq<Opportunity>)

  const MissingFields := "error=Please fill out all required fields."
  const LoggedOut := "message=You have been logged out successfully."
  const AccountDeleted := "error=Your account has been deleted successfully."
  const ProfileUpdated := "message=Profile updated successfully."

  /** `s || fallback` for a string the session user always has. */
  function OrText(s: string, fallback: string): string {
    Or(Some(s), fallback)
  }

  class App {
    var volunteers: seq<Volunteer>
    /** `req.session.mode` */
    var mode: Option<string>
    /** `req.user`, `None` for an anonymous session */
    var user: Option<SessionUser>

    ghost predicate Valid()
      reads this
    {
      UniqueEmails(volunteers)
    }

    constructor (volunteers: seq<Volunteer>)
      requires UniqueEmails(volunteers)
      ensures Valid() && this.volunteers == volunteers && mode == None && user == None
    {
      this.volunteers := volunteers;
      mode := None;
      user := None;
    }

    /** `GET /auth/google?mode=...`: records the chosen mode before handing over to the provider. */
    method StartAuth(query: Option<string>)
      requires Valid()
      modifies this
      ensures Valid()
      ensures mode == Some(EffectiveMode(query))
      ensures volunteers == old(volunteers) && user == old(user)
    {
      mode := Some(EffectiveMode(query));
    }

    /** `GET /auth/google/callback`: the provider returned `email` and `displayName`;
        verify logs in its result, then the mode is reconciled with it. */
    method AuthCallback(email: string, displayName: string) returns (to: Redirect)
      requires Valid()
      modifies this
      ensures Valid() && volunteers == old(volunteers)
      ensures user == Some(Verify(volunteers, email, displayName))
      ensures CallbackOutcome(mode, to) == Reconcile(old(mode), user)
      ensures EffectiveMode(mode) == Register <==> forall v :: v in volunteers ==> v.email != email
      ensures to == ToDashboard("") <==> exists v :: v in volunteers && v.email == email
    {
      ModeFollowsStore(volunteers, email, displayName, mode);
      user := Some(Verify(volunteers, email, displayName));
      var out := Reconcile(mode, user);
      mode := out.mode;
      to := out.to;
    }

    /** `POST /complete-profile`. */
    method CompleteProfile(form: ProfileForm, now: Time) returns (to: Redirect)
      requires Valid()
      modifies this
      ensures Valid()
      ensures !(Filled(form.email) && Filled(form.name) && Filled(form.age)) ==>
                to == ToHome(MissingFields) && unchanged(this)
      ensures Filled(form.email) && Filled(form.name) && Filled(form.age)
              && FindByEmail(old(volunteers), form.email.value).Some? ==>
                to == ToDashboard("") && unchanged(this)
      ensures Filled(form.email) && Filled(form.name) && Filled(form.age)
              && FindByEmail(old(volunteers), form.email.value).None? ==>
                var v := NewVolunteer(form.name.value, form.email.value, form.age,
                                      Some(NormalizePreferences(form.preferences)), now);
                && VolunteerModel.Conforms(v)
                && volunteers == old(volunteers) + [v]
                && mode == Some(SignIn) && user == Some(Member(v))
                && to == ToDashboard("")
    {
      if !(Filled(form.email) && Filled(form.name) && Filled(form.age)) {
        to := ToHome(MissingFields);
        return;
      }
      var preferences := NormalizePreferences(form.preferences);
      if FindByEmail(volunteers, form.email.value).Some? {
        to := ToDashboard("");
        return;
      }
      var v := NewVolunteer(form.name.value, form.email.value, form.age, Some(preferences), now);
      AppendKeepsUnique(volunteers, v);
      volunteers := volunteers + [v];
      mode := Some(SignIn);
      user := Some(Member(v));
      to := ToDashboard("");
    }

    /** `GET /dashboard`. */
    method ShowDashboard(opportunities: seq<Opportunity>) returns (reply: DashboardReply)
      ensures user.None? ==> reply == Redirected(ToHome(""))
      ensures user.Some? ==>
                reply == Page(OrText(user.value.Name(), "User"), OrText(user.value.Email(), "Unknown"),
                              Recommend(opportunities, PreferencesOf(user.value)))
      ensures reply.Page? ==>
                && |reply.recommended| <= Limit
                && forall o :: o in reply.recommended ==> o in opportunities && Shares(o, PreferencesOf(user.value))
    {
      if user.None? {
        reply := Redirected(ToHome(""));
      } else {
        var u := user.value;
        reply := Page(OrText(u.Name(), "User"), OrText(u.Email(), "Unknown"),
                      Recommend(opportunities, PreferencesOf(u)));
      }
    }

    /** `GET /logout`: the session is destroyed. */
    method Logout() returns (to: Redirect)
      modifies this
      ensures user == None && mode == None && volunteers == old(volunteers)
      ensures to == ToHome(LoggedOut)
    {
      user := None;
      mode := None;
      to := ToHome(LoggedOut);
    }

    /** `POST /delete-account`: removes the session user's volunteer, then destroys the session. */
    method DeleteAccount() returns (to: Redirect)
      requires Valid()
      modifies this
      ensures Valid()
      ensures old(user).None? ==> to == ToHome("") && unchanged(this)
      ensures old(user).Some? ==>
                && volunteers == RemoveByEmail(old(volunteers), old(user).value.Email())
                && (forall v :: v in volunteers <==> v in old(volunteers) && v.email != old(user).value.Email())
                && user == None && mode == None
                && to == ToHome(AccountDeleted)
    {
      if user.None? {
        to := ToHome("");
        return;
      }
      var email := user.value.Email();
      RemoveByEmailUnique(volunteers, email);
      volunteers := RemoveByEmail(volunteers, email);
      user := None;
      mode := None;
      to := ToHome(AccountDeleted);
    }

    /** `POST /edit-profile`: writes name, age and preferences to the session
        user's volunteer and to the session user itself. */
    method EditProfile(form: EditForm) returns (to: Redirect)
      requires Valid()
      modifies this
      ensures Valid()
      ensures old(user).None? ==> to == ToHome("") && unchanged(this)
      ensures old(user).Some? ==>
                var email := old(user).value.Email();
                var preferences := NormalizePreferences(form.preferences);
                && volunteers == UpdateByEmail(old(volunteers), email, form.name, Some(form.age), preferences)
                && (forall i :: 0 <= i < |volunteers| ==>
                      volunteers[i] == if old(volunteers)[i].email == email
                                       then SetProfile(old(volunteers)[i], form.name, Some(form.age), preferences)
                                       else old(volunteers)[i])
                && user == Some(WithProfile(old(user).value, form.name, Some(form.age), preferences))
                && mode == old(mode)
                && to == ToDashboard(ProfileUpdated)
    {
      if user.None? {
        to := ToHome("");
        return;
      }
      var preferences := NormalizePreferences(form.preferences);
      var email := user.value.Email();
      UpdateByEmailUnique(volunteers, email, form.name, Some(form.age), preferences);
      volunteers := UpdateByEmail(volunteers, email, form.name, Some(form.age), preferences);
      user := Some(WithProfile(user.value, form.name, Some(form.age), preferences));
      to := ToDashboard(ProfileUpdated);
    }
  }
}
