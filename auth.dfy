/** The sign-in decisions: the OAuth verify step and the register/sign-in mode
    kept in the session and reconciled in the callback. */
module Auth {
  import opened Http
  import opened VolunteerModel

  /** `req.user`: a stored volunteer, or the `{ newUser: true, email, name }`
      object for an identity with no volunteer yet (which edit-profile may give
      an age and preferences). */
  datatype SessionUser =
    | Member(profile: Volunteer)
    | Newcomer(email: string, name: string, age: Option<string>, preferences: Option<seq<PrefEntry>>)
  {
    function Email(): string {
      match this
      case Member(p) => p.email
      case Newcomer(e, _, _, _) => e
    }

    function Name(): string {
      match this
      case Member(p) => p.name
      case Newcomer(_, n, _, _) => n
    }
  }

  const SignIn := "signin"
  const Register := "register"

  /** `mode || 'signin'`, the rule used both where the mode is chosen and where it is read. */
  function EffectiveMode(mode: Option<string>): (m: string)
    ensures m != ""
    ensures Filled(mode) ==> m == mode.value
    ensures !Filled(mode) ==> m == SignIn
  {
    Or(mode, SignIn)
  }

  /** Reading back the mode stored at the start of authentication gives the mode chosen. */
  lemma StoredModeReadsBack(query: Option<string>)
    ensures EffectiveMode(Some(EffectiveMode(query))) == EffectiveMode(query)
  {
  }

  /** The verify callback: the stored volunteer with the provider's email, or a
      new-user object carrying that email and the display name. It writes nothing. */
  function Verify(volunteers: seq<Volunteer>, email: string, displayName: string): (u: SessionUser)
    ensures u.Member? <==> exists v :: v in volunteers && v.email == email
    ensures u.Member? ==> u.profile in volunteers && u.profile.email == email
    ensures u.Newcomer? ==> u == Newcomer(email, displayName, None, None)
    ensures u.Email() == email
  {
    match FindByEmail(volunteers, email)
    case Some(v) => Member(v)
    case None => Newcomer(email, displayName, None, None)
  }

  /** Under the unique index an existing identity resolves to its one volunteer. */
  lemma VerifyFindsTheVolunteer(volunteers: seq<Volunteer>, i: nat, displayName: string)
    requires UniqueEmails(volunteers) && i < |volunteers|
    ensures Verify(volunteers, volunteers[i].email, displayName) == Member(volunteers[i])
  {
    FindByEmailUnique(volunteers, i);
  }

  /** What the callback leaves in the session and where it sends the browser. */
  datatype CallbackOutcome = CallbackOutcome(mode: Option<string>, to: Redirect)

  const CallbackError := "error=Unexpected error occurred. Please try again."

  /** The callback handler after authentication: a new user is always sent to
      complete the profile in register mode; an existing user always goes to the
      dashboard, with a register mode rewritten to signin and any other mode kept. */
  function Reconcile(mode: Option<string>, user: Option<SessionUser>): (out: CallbackOutcome)
    ensures user.None? ==> out == CallbackOutcome(mode, ToHome(CallbackError))
    ensures user.Some? && user.value.Newcomer? ==>
              out == CallbackOutcome(Some(Register), ToCompleteProfile(user.value.email, user.value.name))
    ensures user.Some? && user.value.Member? ==> out.to == ToDashboard("")
    ensures user.Some? && user.value.Member? && EffectiveMode(mode) == Register ==> out.mode == Some(SignIn)
    ensures user.Some? && user.value.Member? && EffectiveMode(mode) != Register ==> out.mode == mode
  {
    match user
    case None => CallbackOutcome(mode, ToHome(CallbackError))
    case Some(u) =>
      if u.Newcomer? then CallbackOutcome(Some(Register), ToCompleteProfile(u.email, u.name))
      else CallbackOutcome(if EffectiveMode(mode) == Register then Some(SignIn) else mode, ToDashboard(""))
  }

  /** The store, not the mode the browser asked for, decides the flow: after the
      callback the session is in register mode exactly when no volunteer has the
      email, and the browser goes to the dashboard exactly when one has. */
  lemma {:induction false} ModeFollowsStore(volunteers: seq<Volunteer>, email: string, displayName: string,
                                            mode: Option<string>)
    ensures var out := Reconcile(mode, Some(Verify(volunteers, email, displayName)));
            && (EffectiveMode(out.mode) == Register <==> forall v :: v in volunteers ==> v.email != email)
            && (out.to == ToDashboard("") <==> exists v :: v in volunteers && v.email == email)
            && (out.to.ToCompleteProfile? <==> forall v :: v in volunteers ==> v.email != email)
  {
    var u := Verify(volunteers, email, displayName);
    var out := Reconcile(mode, Some(u));
    if u.Member? {
      if EffectiveMode(mode) == Register {
        assert EffectiveMode(out.mode) == SignIn;
      } else {
        assert out.mode == mode;
      }
    }
  }

  /** Choosing signin with an unknown email still leads to registration. */
  lemma SignInWithUnknownEmailRegisters(volunteers: seq<Volunteer>, email: string, displayName: string)
    requires forall v :: v in volunteers ==> v.email != email
    ensures Reconcile(Some(SignIn), Some(Verify(volunteers, email, displayName))) ==
            CallbackOutcome(Some(Register), ToCompleteProfile(email, displayName))
  {
  }

  /** Choosing register with a known email still leads to the dashboard, in signin mode. */
  lemma RegisterWithKnownEmailSignsIn(volunteers: seq<Volunteer>, email: string, displayName: string)
    requires exists v :: v in volunteers && v.email == email
    ensures Reconcile(Some(Register), Some(Verify(volunteers, email, displayName))) ==
            CallbackOutcome(Some(SignIn), ToDashboard(""))
  {
  }
}
