/** The opportunity routes: list, create, edit by id and delete by id over the
    opportunity collection, with the allow-list check on writes. */
module OpportunityRoutes {
  import opened Http
  import opened Categories
  import opened OpportunityModel

  /** The JSON body of `POST /create`. */
  datatype CreateBody = CreateBody(
    title: Option<string>,
    description: Option<string>,
    location: Option<string>,
    coordinates: Option<Coordinates>,
    category: FormValue,
    postedBy: Option<string>)

  /** The JSON body of `PUT /edit/:id`: only the fields present are written. */
  datatype Patch = Patch(
    title: Option<string>,
    description: Option<string>,
    location: Option<string>,
    coordinates: Option<Coordinates>,
    category: FormValue,
    postedBy: Option<string>,
    createdAt: Option<Time>)

  /** What a route answers. */
  datatype Reply =
    | Listing(opportunities: seq<Opportunity>)
    | Created(opportunity: Opportunity)
    | Updated(result: Option<Opportunity>)
    | Deleted
    | Rejected(invalid: seq<string>)
    | Failed(message: string)

  function Status(r: Reply): int {
    match r
    case Listing(_) => 200
    case Created(_) => 201
    case Updated(_) => 200
    case Deleted => 200
    case Rejected(_) => 400
    case Failed(_) => 500
  }

  const CreateFailure := "Failed to create opportunity"
  const UpdateFailure := "Failed to update opportunity"

  /** How the create handler treats the submitted category value. */
  datatype CreateCategory = Accept(labels: seq<string>) | Reject(invalid: seq<string>) | Crash

  /** `category.filter(...)`: a non-array value has no `filter` and throws. */
  function CheckCreateCategory(v: FormValue, allowed: seq<string>): (c: CreateCategory)
    ensures c.Crash? <==> !v.List?
    ensures c.Accept? ==> v.List? && c.labels == v.items && forall x :: x in c.labels ==> x in allowed
    ensures c.Reject? ==> v.List? && c.invalid == InvalidCategories(v.items, allowed) && c.invalid != []
  {
    match v
    case List(xs) =>
      var bad := InvalidCategories(xs, allowed);
      InvalidCategoriesEmptyIff(xs, allowed);
      if |bad| > 0 then Reject(bad) else Accept(xs)
    case _ => Crash
  }

  /** How the edit handler treats the submitted category value. */
  datatype EditCategory = Keep | SetTo(labels: seq<string>) | Refuse(invalid: seq<string>) | Throw

  /** `if (updateData.category) { ...filter... }`: a missing or empty-string value
      skips the check; an empty string is then cast by the schema's array path
      to `[""]`; a non-empty string has no `filter` and throws. */
  function CheckEditCategory(v: FormValue, allowed: seq<string>): (c: EditCategory)
    ensures c.Keep? <==> v.Absent?
    ensures c.Throw? <==> v.Scalar? && v.text != ""
    ensures v == Scalar("") ==> c == SetTo([""])
    ensures v.List? && InvalidCategories(v.items, allowed) != [] ==> c == Refuse(InvalidCategories(v.items, allowed))
    ensures v.List? && InvalidCategories(v.items, allowed) == [] ==> c == SetTo(v.items)
    ensures c.SetTo? && v.List? ==> forall x :: x in c.labels ==> x in allowed
  {
    match v
    case Absent => Keep
    case Scalar(s) => if s == "" then SetTo([""]) else Throw
    case List(xs) =>
      var bad := InvalidCategories(xs, allowed);
      InvalidCategoriesEmptyIff(xs, allowed);
      if |bad| > 0 then Refuse(bad) else SetTo(xs)
  }

  /** The category written by an accepted edit, if any. */
  function NewCategory(c: EditCategory): Option<seq<string>> {
    if c.SetTo? then Some(c.labels) else None
  }

  /** The fields of `o` overwritten by those present in `p`. */
  function Merge(o: Opportunity, p: Patch, category: Option<seq<string>>): (r: Opportunity)
    ensures r.id == o.id
    ensures r.title == (if p.title.Some? then p.title.value else o.title)
    ensures r.description == (if p.description.Some? then p.description else o.description)
    ensures r.location == (if p.location.Some? then p.location else o.location)
    ensures r.coordinates == (if p.coordinates.Some? then p.coordinates else o.coordinates)
    ensures r.category == (if category.Some? then category.value else o.category)
    ensures r.postedBy == (if p.postedBy.Some? then p.postedBy.value else o.postedBy)
    ensures r.createdAt == (if p.createdAt.Some? then p.createdAt.value else o.createdAt)
  {
    o.(title := match p.title case Some(t) => t case None => o.title,
       description := if p.description.Some? then p.description else o.description,
       location := if p.location.Some? then p.location else o.location,
       coordinates := if p.coordinates.Some? then p.coordinates else o.coordinates,
       category := match category case Some(c) => c case None => o.category,
       postedBy := match p.postedBy case Some(b) => b case None => o.postedBy,
       createdAt := match p.createdAt case Some(t) => t case None => o.createdAt)
  }

  /** `_id` is the collection's primary key. */
  predicate UniqueIds(rows: seq<Opportunity>) {
    forall i, j :: 0 <= i < j < |rows| ==> rows[i].id != rows[j].id
  }

  /** Every stored label is in the allow-list. */
  predicate AllCategoriesAllowed(rows: seq<Opportunity>, allowed: seq<string>) {
    forall i :: 0 <= i < |rows| ==> forall x :: x in rows[i].category ==> x in allowed
  }

  /** The position of the document with id `id`, if any. */
  function IndexOfId(rows: seq<Opportunity>, id: Id): (r: Option<nat>)
    ensures r.Some? ==> r.value < |rows| && rows[r.value].id == id
    ensures r.None? <==> forall i :: 0 <= i < |rows| ==> rows[i].id != id
  {
    if rows == [] then None
    else if rows[0].id == id then Some(0)
    else match IndexOfId(rows[1..], id)
      case Some(k) => Some(k + 1)
      case None => None
  }

  /** `findByIdAndDelete(id)`: drops the first document with that id. */
  function RemoveById(rows: seq<Opportunity>, id: Id): (r: seq<Opportunity>)
    ensures forall o :: o in r ==> o in rows
    ensures IndexOfId(rows, id).None? ==> r == rows
    ensures IndexOfId(rows, id).Some? ==> |r| == |rows| - 1
  {
    if rows == [] then []
    else if rows[0].id == id then rows[1..]
    else [rows[0]] + RemoveById(rows[1..], id)
  }

  /** Unique ids split into a head whose id the tail does not use, and a tail with unique ids. */
  lemma UniqueIdsSplit(rows: seq<Opportunity>)
    requires rows != []
    ensures UniqueIds(rows) <==>
              UniqueIds(rows[1..]) && forall o :: o in rows[1..] ==> o.id != rows[0].id
  {
    if UniqueIds(rows) {
      forall o | o in rows[1..] ensures o.id != rows[0].id {
        var k :| 0 <= k < |rows[1..]| && rows[1..][k] == o;
        assert rows[k + 1] == o;
      }
    }
    if UniqueIds(rows[1..]) && forall o :: o in rows[1..] ==> o.id != rows[0].id {
      forall i, j | 0 <= i < j < |rows| ensures rows[i].id != rows[j].id {
        assert rows[j] == rows[1..][j - 1];
        if i > 0 {
          assert rows[i] == rows[1..][i - 1];
        }
      }
    }
  }

  /** Under the primary key the deletion leaves no document with that id and
      keeps every other one. */
  lemma {:induction false} RemoveByIdExact(rows: seq<Opportunity>, id: Id)
    requires UniqueIds(rows)
    ensures forall o :: o in RemoveById(rows, id) <==> o in rows && o.id != id
    ensures UniqueIds(RemoveById(rows, id))
    ensures IndexOfId(RemoveById(rows, id), id).None?
  {
    if rows != [] {
      UniqueIdsSplit(rows);
      if rows[0].id != id {
        RemoveByIdExact(rows[1..], id);
        var r := RemoveById(rows, id);
        assert r == [rows[0]] + RemoveById(rows[1..], id);
        assert r[1..] == RemoveById(rows[1..], id);
        UniqueIdsSplit(r);
      }
    }
  }

  /** Deleting twice is deleting once. */
  lemma RemoveByIdIdempotent(rows: seq<Opportunity>, id: Id)
    requires UniqueIds(rows)
    ensures RemoveById(RemoveById(rows, id), id) == RemoveById(rows, id)
  {
    RemoveByIdExact(rows, id);
  }

  /** The opportunity collection behind the routes. */
  class OpportunityTable {
    /** The allow-list imported from `constants/categories`. */
    const allowed: seq<string>
    var rows: seq<Opportunity>

    ghost predicate Valid()
      reads this
    {
      UniqueIds(rows)
    }

    constructor (allowed: seq<string>)
      ensures this.allowed == allowed && rows == [] && Valid()
    {
      this.allowed := allowed;
      rows := [];
    }

    /** `GET /`: every stored opportunity, unfiltered, in store order. */
    method List() returns (reply: Reply)
      ensures reply == Listing(rows) && Status(reply) == 200
      ensures |reply.opportunities| == |rows|
      ensures forall i :: 0 <= i < |rows| ==> reply.opportunities[i] == rows[i]
    {
      reply := Listing(rows);
    }

    /** `POST /create`; `id` is the freshly generated ObjectId and `now` the clock. */
    method Create(body: CreateBody, id: Id, now: Time) returns (reply: Reply)
      requires Valid()
      requires forall i :: 0 <= i < |rows| ==> rows[i].id != id
      modifies this
      ensures Valid()
      ensures AllCategoriesAllowed(old(rows), allowed) ==> AllCategoriesAllowed(rows, allowed)
      ensures !body.category.List? ==> reply == Failed(CreateFailure) && rows == old(rows)
      ensures body.category.List? && InvalidCategories(body.category.items, allowed) != [] ==>
                reply == Rejected(InvalidCategories(body.category.items, allowed)) && Status(reply) == 400
                && rows == old(rows)
      ensures body.category.List? && InvalidCategories(body.category.items, allowed) == []
              && !(Filled(body.title) && Filled(body.postedBy)) ==>
                reply == Failed(CreateFailure) && Status(reply) == 500 && rows == old(rows)
      ensures body.category.List? && InvalidCategories(body.category.items, allowed) == []
              && Filled(body.title) && Filled(body.postedBy) ==>
                && reply.Created? && Status(reply) == 201
                && rows == old(rows) + [reply.opportunity]
                && reply.opportunity.id == id
                && reply.opportunity.title == body.title.value
                && reply.opportunity.description == body.description
                && reply.opportunity.location == body.location
                && reply.opportunity.coordinates == body.coordinates
                && reply.opportunity.category == body.category.items
                && reply.opportunity.postedBy == body.postedBy.value
                && reply.opportunity.createdAt == now
    {
      var check := CheckCreateCategory(body.category, allowed);
      match check {
        case Crash =>
          reply := Failed(CreateFailure);
        case Reject(bad) =>
          reply := Rejected(bad);
        case Accept(labels) =>
          var fields := Fields(body.title, body.description, body.location, body.coordinates,
                               labels, body.postedBy, None);
          var built := Build(fields, id, now);
          if built.Some? {
            rows := rows + [built.value];
            reply := Created(built.value);
          } else {
            reply := Failed(CreateFailure);
          }
      }
    }

    /** `PUT /edit/:id` for a body of plain schema fields: writes the fields present
        in `patch` and answers with the updated document, or with none when no
        document has that id. Stored labels stay allowed unless the category is `""`. */
    method Edit(id: Id, patch: Patch) returns (reply: Reply)
      requires Valid()
      modifies this
      ensures Valid()
      ensures patch.category != Scalar("") && AllCategoriesAllowed(old(rows), allowed) ==>
                AllCategoriesAllowed(rows, allowed)
      ensures CheckEditCategory(patch.category, allowed).Refuse? ==>
                reply == Rejected(CheckEditCategory(patch.category, allowed).invalid) && Status(reply) == 400
                && rows == old(rows)
      ensures CheckEditCategory(patch.category, allowed).Throw? ==>
                reply == Failed(UpdateFailure) && rows == old(rows)
      ensures (CheckEditCategory(patch.category, allowed).Keep? || CheckEditCategory(patch.category, allowed).SetTo?)
              && IndexOfId(old(rows), id).None? ==>
                reply == Updated(None) && Status(reply) == 200 && rows == old(rows)
      ensures (CheckEditCategory(patch.category, allowed).Keep? || CheckEditCategory(patch.category, allowed).SetTo?)
              && IndexOfId(old(rows), id).Some? ==>
                var i := IndexOfId(old(rows), id).value;
                && rows == old(rows)[i := Merge(old(rows)[i], patch, NewCategory(CheckEditCategory(patch.category, allowed)))]
                && reply == Updated(Some(rows[i])) && Status(reply) == 200
    {
      var check := CheckEditCategory(patch.category, allowed);
      if check.Refuse? {
        reply := Rejected(check.invalid);
      } else if check.Throw? {
        reply := Failed(UpdateFailure);
      } else {
        var at := IndexOfId(rows, id);
        if at.None? {
          reply := Updated(None);
        } else {
          var i := at.value;
          var updated := Merge(rows[i], patch, NewCategory(check));
          rows := rows[i := updated];
          reply := Updated(Some(updated));
        }
      }
    }

    /** `DELETE /delete/:id`: answers 200 whether or not the id existed. */
    method Delete(id: Id) returns (reply: Reply)
      requires Valid()
      modifies this
      ensures Valid()
      ensures reply == Deleted && Status(reply) == 200
      ensures rows == RemoveById(old(rows), id)
      ensures forall o :: o in rows <==> o in old(rows) && o.id != id
      ensures AllCategoriesAllowed(old(rows), allowed) ==> AllCategoriesAllowed(rows, allowed)
    {
      RemoveByIdExact(rows, id);
      rows := RemoveById(rows, id);
      reply := Deleted;
    }
  }
}
