/** The Opportunity schema: field types, required paths and the createdAt default. */
module OpportunityModel {
  import opened Http

  /** A document id (an ObjectId, generated outside the model). */
  type Id = string

  /** `{ lat: Number, lng: Number }`: stored and echoed, never computed with. */
  datatype Coordinates = Coordinates(lat: real, lng: real)

  /** A stored opportunity document. */
  datatype Opportunity = Opportunity(
    id: Id,
    title: string,
    description: Option<string>,
    location: Option<string>,
    coordinates: Option<Coordinates>,
    category: seq<string>,
    postedBy: string,
    createdAt: Time)

  /** The fields handed to `new Opportunity({...})`; required ones may be missing. */
  datatype Fields = Fields(
    title: Option<string>,
    description: Option<string>,
    location: Option<string>,
    coordinates: Option<Coordinates>,
    category: seq<string>,
    postedBy: Option<string>,
    createdAt: Option<Time>)

  /** A document that passes the schema's `required` validators. */
  predicate Conforms(o: Opportunity) {
    o.title != "" && o.postedBy != ""
  }

  /** Building and validating a document on `save()`: `None` when `title`
      or `postedBy` is missing or empty; `createdAt` defaults to `now`. */
  function Build(f: Fields, id: Id, now: Time): (r: Option<Opportunity>)
    ensures r.Some? <==> Filled(f.title) && Filled(f.postedBy)
    ensures r.Some? ==> Conforms(r.value) && r.value.id == id
    ensures r.Some? ==> r.value.title == f.title.value && r.value.postedBy == f.postedBy.value
    ensures r.Some? ==> r.value.description == f.description && r.value.location == f.location
                        && r.value.coordinates == f.coordinates && r.value.category == f.category
    ensures r.Some? ==> r.value.createdAt == (if f.createdAt.Some? then f.createdAt.value else now)
  {
    if Filled(f.title) && Filled(f.postedBy) then
      Some(Opportunity(id, f.title.value, f.description, f.location, f.coordinates,
                       f.category, f.postedBy.value,
                       match f.createdAt case Some(t) => t case None => now))
    else None
  }
}
