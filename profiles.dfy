/** The profile-form rules shared by complete-profile and edit-profile. */
module Profiles {
  import opened Http
  import opened VolunteerModel
  import opened Auth

  /** `Array.isArray(p) ? p : [p]`: an array is kept, any other value is wrapped,
      and a missing value becomes `[undefined]`. */
  function NormalizePreferences(v: FormValue): (r: seq<PrefEntry>)
    ensures v.List? ==> |r| == |v.items| && forall i :: 0 <= i < |r| ==> r[i] == Chosen(v.items[i])
    ensures v.Scalar? ==> r == [Chosen(v.text)]
    ensures v.Absent? ==> r == [Undefined]
    ensures v != List([]) ==> |r| >= 1
  {
    match v
    case List(xs) => seq(|xs|, i requires 0 <= i < |xs| => Chosen(xs[i]))
    case Scalar(s) => [Chosen(s)]
    case Absent => [Undefined]
  }

  /** The labels carried by a normalised list. */
  function Choices(r: seq<PrefEntry>): seq<string> {
    if r == [] then [] else (if r[0].Chosen? then [r[0].choice] else []) + Choices(r[1..])
  }

  /** Normalising keeps exactly the submitted labels, in order. */
  lemma {:induction false} NormalizeKeepsChoices(v: FormValue)
    ensures Choices(NormalizePreferences(v)) ==
            match v case List(xs) => xs case Scalar(s) => [s] case Absent => []
  {
    if v.List? {
      ChoicesOfLabels(v.items);
    }
  }

  lemma {:induction false} ChoicesOfLabels(xs: seq<string>)
    ensures Choices(NormalizePreferences(List(xs))) == xs
  {
    if xs != [] {
      ChoicesOfLabels(xs[1..]);
      assert NormalizePreferences(List(xs))[1..] == NormalizePreferences(List(xs[1..]));
    }
  }

  /** `req.user.name = ...; req.user.age = ...; req.user.preferences = ...`. */
  function WithProfile(u: SessionUser, name: string, age: Option<string>, preferences: seq<PrefEntry>): (r: SessionUser)
    ensures r.Email() == u.Email() && r.Name() == name
    ensures r.Member? <==> u.Member?
    ensures u.Member? ==> r.profile == SetProfile(u.profile, name, age, preferences)
    ensures u.Newcomer? ==> r == Newcomer(u.email, name, age, Some(preferences))
  {
    match u
    case Member(p) => Member(SetProfile(p, name, age, preferences))
    case Newcomer(e, _, _, _) => Newcomer(e, name, age, Some(preferences))
  }

  /** `req.user.preferences || []`. */
  function PreferencesOf(u: SessionUser): (r: seq<PrefEntry>)
    ensures u.Member? ==> r == u.profile.preferences
    ensures u.Newcomer? && u.preferences.None? ==> r == []
    ensures u.Newcomer? && u.preferences.Some? ==> r == u.preferences.value
  {
    match u
    case Member(p) => p.preferences
    case Newcomer(_, _, _, prefs) => match prefs case Some(p) => p case None => []
  }
}
