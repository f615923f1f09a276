/** The Volunteer schema and the single-document operations the server runs on the collection. */
module VolunteerModel {
  import opened Http

  /** One element of a stored preferences array: a label, or the `undefined`
      that `[preferences]` produces when no preference was submitted. */
  datatype PrefEntry = Chosen(choice: string) | Undefined

  /** A stored volunteer document; `age` is kept as the submitted text. */
  datatype Volunteer = Volunteer(
    name: string,
    email: string,
    age: Option<string>,
    preferences: seq<PrefEntry>,
    registrationDate: Time)

  /** A document that passes the `required` validators on name and email. */
  predicate Conforms(v: Volunteer) {
    v.name != "" && v.email != ""
  }

  /** The unique index on email. */
  predicate UniqueEmails(vs: seq<Volunteer>) {
    forall i, j :: 0 <= i < j < |vs| ==> vs[i].email != vs[j].email
  }

  /** `new Volunteer({...})`: preferences default to `[]` and registrationDate to `now`. */
  function NewVolunteer(name: string, email: string, age: Option<string>,
                        preferences: Option<seq<PrefEntry>>, now: Time): (v: Volunteer)
    ensures v.name == name && v.email == email && v.age == age
    ensures v.preferences == (if preferences.Some? then preferences.value else [])
    ensures v.registrationDate == now
    ensures name != "" && email != "" ==> Conforms(v)
  {
    Volunteer(name, email, age, match preferences case Some(p) => p case None => [], now)
  }

  /** `Volunteer.findOne({ email })`: the first document with that email. */
  function FindByEmail(vs: seq<Volunteer>, email: string): (r: Option<Volunteer>)
    ensures r.Some? ==> r.value in vs && r.value.email == email
    ensures r.None? <==> forall v :: v in vs ==> v.email != email
  {
    if vs == [] then None
    else if vs[0].email == email then Some(vs[0])
    else FindByEmail(vs[1..], email)
  }

  /** Under the unique index the lookup finds the one document with that email. */
  lemma {:induction false} FindByEmailUnique(vs: seq<Volunteer>, i: nat)
    requires UniqueEmails(vs) && i < |vs|
    ensures FindByEmail(vs, vs[i].email) == Some(vs[i])
  {
    if i > 0 {
      assert vs[0].email != vs[i].email;
      assert vs[1..][i - 1] == vs[i];
      FindByEmailUnique(vs[1..], i - 1);
    }
  }

  /** Appending a volunteer whose email is not yet used keeps emails unique. */
  lemma AppendKeepsUnique(vs: seq<Volunteer>, v: Volunteer)
    requires UniqueEmails(vs) && FindByEmail(vs, v.email).None?
    ensures UniqueEmails(vs + [v])
  {
    forall i, j | 0 <= i < j < |vs + [v]|
      ensures (vs + [v])[i].email != (vs + [v])[j].email
    {
      if j == |vs| {
        assert vs[i] in vs;
      }
    }
  }

  /** The same document with name, age and preferences replaced. */
  function SetProfile(v: Volunteer, name: string, age: Option<string>, preferences: seq<PrefEntry>): (r: Volunteer)
    ensures r.name == name && r.age == age && r.preferences == preferences
    ensures r.email == v.email && r.registrationDate == v.registrationDate
  {
    v.(name := name, age := age, preferences := preferences)
  }

  /** `Volunteer.updateOne({ email }, { $set: { name, age, preferences } })`. */
  function UpdateByEmail(vs: seq<Volunteer>, email: string, name: string, age: Option<string>,
                         preferences: seq<PrefEntry>): (r: seq<Volunteer>)
    ensures |r| == |vs|
    ensures forall i :: 0 <= i < |vs| ==> r[i].email == vs[i].email
    ensures forall i :: 0 <= i < |vs| && vs[i].email != email ==> r[i] == vs[i]
  {
    if vs == [] then []
    else if vs[0].email == email then [SetProfile(vs[0], name, age, preferences)] + vs[1..]
    else [vs[0]] + UpdateByEmail(vs[1..], email, name, age, preferences)
  }

  /** Under the unique index the update rewrites exactly the document with that
      email and keeps the index intact. */
  lemma {:induction false} UpdateByEmailUnique(vs: seq<Volunteer>, email: string, name: string,
                                               age: Option<string>, preferences: seq<PrefEntry>)
    requires UniqueEmails(vs)
    ensures UniqueEmails(UpdateByEmail(vs, email, name, age, preferences))
    ensures forall i :: 0 <= i < |vs| && vs[i].email == email ==>
              UpdateByEmail(vs, email, name, age, preferences)[i] == SetProfile(vs[i], name, age, preferences)
  {
    var r := UpdateByEmail(vs, email, name, age, preferences);
    if vs != [] {
      if vs[0].email != email {
        UpdateByEmailUnique(vs[1..], email, name, age, preferences);
        var rest := UpdateByEmail(vs[1..], email, name, age, preferences);
        assert r == [vs[0]] + rest;
        forall i | 0 < i < |vs| && vs[i].email == email
          ensures r[i] == SetProfile(vs[i], name, age, preferences)
        {
          assert r[i] == rest[i - 1] && vs[i] == vs[1..][i - 1];
        }
      } else {
        forall i | 0 < i < |vs|
          ensures vs[i].email != email
        {
          assert vs[0].email != vs[i].email;
        }
      }
    }
  }

  /** `Volunteer.deleteOne({ email })`: drops the first document with that email. */
  function RemoveByEmail(vs: seq<Volunteer>, email: string): (r: seq<Volunteer>)
    ensures forall v :: v in r ==> v in vs
    ensures forall v :: v in vs && v.email != email ==> v in r
    ensures FindByEmail(vs, email).None? ==> r == vs
    ensures FindByEmail(vs, email).Some? ==> |r| == |vs| - 1
  {
    if vs == [] then []
    else if vs[0].email == email then vs[1..]
    else [vs[0]] + RemoveByEmail(vs[1..], email)
  }

  /** Unique emails split into a head whose email the tail does not use, and a unique tail. */
  lemma UniqueSplit(vs: seq<Volunteer>)
    requires vs != []
    ensures UniqueEmails(vs) <==>
              UniqueEmails(vs[1..]) && forall v :: v in vs[1..] ==> v.email != vs[0].email
  {
    if UniqueEmails(vs) {
      forall v | v in vs[1..] ensures v.email != vs[0].email {
        var k :| 0 <= k < |vs[1..]| && vs[1..][k] == v;
        assert vs[k + 1] == v;
      }
    }
    if UniqueEmails(vs[1..]) && forall v :: v in vs[1..] ==> v.email != vs[0].email {
      forall i, j | 0 <= i < j < |vs| ensures vs[i].email != vs[j].email {
        assert vs[j] == vs[1..][j - 1];
        if i > 0 {
          assert vs[i] == vs[1..][i - 1];
        }
      }
    }
  }

  /** Under the unique index the deletion leaves no document with that email,
      keeps every other one and keeps the index intact. */
  lemma {:induction false} RemoveByEmailUnique(vs: seq<Volunteer>, email: string)
    requires UniqueEmails(vs)
    ensures UniqueEmails(RemoveByEmail(vs, email))
    ensures forall v :: v in RemoveByEmail(vs, email) <==> v in vs && v.email != email
  {
    if vs != [] {
      UniqueSplit(vs);
      if vs[0].email != email {
        RemoveByEmailUnique(vs[1..], email);
        var r := RemoveByEmail(vs, email);
        assert r == [vs[0]] + RemoveByEmail(vs[1..], email);
        assert r[1..] == RemoveByEmail(vs[1..], email);
        UniqueSplit(r);
      }
    }
  }
}
