# Virtu volunteering app: the decision layer

A Dafny model of the part of the Virtu server that makes decisions rather than
rendering HTML:

- the **category allow-list check** applied when an opportunity is created or edited;
- the **opportunity routes** (`GET /`, `POST /create`, `PUT /edit/:id`,
  `DELETE /delete/:id`) as a class over the opportunity collection;
- the **volunteer sign-in flow**: the OAuth verify step, the register/sign-in
  mode kept in the session and reconciled in the callback, profile completion,
  the dashboard's recommendations, profile edit, account deletion and logout.
  These are methods of a class that holds one browser session (`mode`, `user`)
  and the volunteer collection;
- the **Opportunity and Volunteer schemas**: their required fields, the unique
  email index, and the defaults for `preferences`, `createdAt` and
  `registrationDate`.

The model is built from these modules:

| file | module | models |
|---|---|---|
| http.dfy | `Http` | optional body fields, values that may be an array or a single value, redirects |
| seqs.dfy | `Seqs` | order-preserving subsequences |
| categories.dfy | `Categories` | the allow-list filter |
| opportunity_model.dfy | `OpportunityModel` | the Opportunity schema |
| volunteer_model.dfy | `VolunteerModel` | the Volunteer schema and `findOne`/`updateOne`/`deleteOne` by email |
| opportunity_routes.dfy | `OpportunityRoutes` | the opportunity routes |
| auth.dfy | `Auth` | the verify callback and the mode reconciliation |
| profiles.dfy | `Profiles` | preference normalisation and the in-place update of the session user |
| dashboard.dfy | `Dashboard` | the `$in` query with `limit(5)` |
| server.dfy | `Server` | the volunteer routes over one session |

Each handler is modelled as one atomic step. The OAuth provider becomes an
input `(email, displayName)`. The generated ObjectId and `Date.now()` become
parameters. The allow-list from `constants/categories` becomes a constructor
parameter of `OpportunityTable`. `Categories.Labels` holds the seven labels the
forms offer (server.js:286-292).

Behaviour of the code worth knowing:

- Editing an id that does not exist answers 200 with no document. It is not a not-found error.
- Creating with an empty category list is accepted.
- Complete-profile requires `age`. The Volunteer schema itself treats it as optional.
- `category: ""` in an edit body is falsy, so the allow-list check is skipped.
  The value is then written as `[""]`, because the schema's array path wraps a
  single value into a list. So an edit can store a label that is not allowed.
  For a body of plain schema fields, `OpportunityTable.Edit` keeps the
  "every stored label is allowed" invariant for every other category value.
  Update operators and dotted paths in the body bypass the check too (see "Left out").
- A body value sent as a single string instead of an array has no `filter`
  method. This happens when an HTML multi-select has exactly one option chosen.
  The call throws inside the handler's `try`, so create answers 500. Edit also
  answers 500 when the string is non-empty.
- A missing `preferences` field is normalised to `[undefined]`. It is not `[]`.

## Model

| member | source | states |
|---|---|---|
| Categories.InvalidCategories | routes/opportunities.js:62 | the rejected labels are no more than the input and each one was given and is not in the allow-list |
| Categories.InvalidCategoriesCounts | routes/opportunities.js:62 | each label outside the allow-list is reported as many times as it was given; allowed labels are never reported |
| Categories.InvalidCategoriesExact | routes/opportunities.js:140 | a label is reported exactly when it was given and is not allowed (both directions) |
| Categories.InvalidCategoriesInOrder | routes/opportunities.js:62 | the rejected labels are a subsequence of the input, in input order |
| Categories.InvalidCategoriesEmptyIff | routes/opportunities.js:62-63 | the check passes exactly when every label is allowed; an empty list passes |
| Categories.OneUnknownLabelReported | routes/opportunities.js:62-66 | `["Education", "NotARealCategory"]` yields exactly `["NotARealCategory"]` |
| OpportunityModel.Build | models/Opportunity.js:3-11 | a document is built exactly when title and postedBy are present and non-empty; it carries the given fields, the given id, and createdAt defaulting to now |
| OpportunityRoutes.CheckCreateCategory | routes/opportunities.js:58-67 | a non-array category throws; an array with a rejected label gives a 400 naming exactly the rejected labels; otherwise every label is allowed |
| OpportunityRoutes.CheckEditCategory | routes/opportunities.js:139-146 | an absent category skips the check and is not written; `""` skips the check and is written as `[""]`; another string throws; an array is rejected with its invalid labels or written as given |
| OpportunityRoutes.Merge | routes/opportunities.js:148 | every field present in the patch overwrites the document's field; absent fields and the id are kept |
| OpportunityRoutes.IndexOfId | routes/opportunities.js:148 | finds a position holding the id, or none exactly when no document has it |
| OpportunityRoutes.RemoveById | routes/opportunities.js:161 | removes at most one document and keeps no new ones; a missing id leaves the collection as it was |
| OpportunityRoutes.RemoveByIdExact | routes/opportunities.js:161 | with unique ids, afterwards no document has the id and every other document remains |
| OpportunityRoutes.RemoveByIdIdempotent | routes/opportunities.js:161-162 | deleting the same id twice is the same as deleting it once |
| OpportunityRoutes.OpportunityTable.List | routes/opportunities.js:7-22 | answers 200 with every stored opportunity, unfiltered, in store order |
| OpportunityRoutes.OpportunityTable.Create | routes/opportunities.js:57-85 | a non-array category gives 500; a rejected label gives 400 naming every rejected label; a missing title or postedBy gives 500; all three leave the table unchanged; otherwise exactly one record with the given fields is appended and returned with 201; stored labels stay allowed |
| OpportunityRoutes.OpportunityTable.Edit | routes/opportunities.js:133-154 | for a body of plain schema fields: a rejected label gives 400 and a thrown check gives 500, both with the table unchanged; a missing id gives 200 with no document and no change; otherwise only that document is merged with the patch and returned |
| OpportunityRoutes.OpportunityTable.Delete | routes/opportunities.js:157-167 | always answers 200; the document with the id is gone and every other document remains |
| VolunteerModel.NewVolunteer | models/Volunteer.js:3-9 | preferences default to `[]` and registrationDate to now; with name and email non-empty the document passes the required validators |
| VolunteerModel.FindByEmail | server.js:57 | yields a stored volunteer with that email, or nothing exactly when none has it |
| VolunteerModel.FindByEmailUnique | models/Volunteer.js:5 | with unique emails the lookup yields the one volunteer with that email |
| VolunteerModel.AppendKeepsUnique | server.js:322-336 | saving a volunteer whose email is unused keeps emails unique |
| VolunteerModel.SetProfile | server.js:445 | sets name, age and preferences and keeps email and registrationDate |
| VolunteerModel.UpdateByEmail | server.js:443-446 | keeps the length and every email; volunteers with other emails are unchanged |
| VolunteerModel.UpdateByEmailUnique | server.js:443-446 | with unique emails the volunteer with that email gets the new name, age and preferences, and emails stay unique |
| VolunteerModel.RemoveByEmail | server.js:366 | removes at most one volunteer, keeps every volunteer with another email, and does nothing when the email is absent |
| VolunteerModel.RemoveByEmailUnique | server.js:366 | with unique emails no volunteer with that email remains, every other one does, and emails stay unique |
| Auth.EffectiveMode | server.js:102 | a present non-empty mode is kept, otherwise `signin` (also the rule at server.js:139) |
| Auth.StoredModeReadsBack | server.js:139-140 | the callback reads back the mode that starting authentication stored |
| Auth.Verify | server.js:51-71 | an existing volunteer exactly when one has the provider email; otherwise `{newUser, email, name: displayName}`; the store is not written |
| Auth.VerifyFindsTheVolunteer | server.js:57-61 | with unique emails a known email yields its one stored volunteer |
| Auth.Reconcile | server.js:100-132 | no user goes to the error page; a new user gets `register` mode and the complete-profile redirect with email and name; an existing user goes to the dashboard, `register` becomes `signin` and any other mode is kept |
| Auth.ModeFollowsStore | server.js:106-126 | after the callback the mode is `register` exactly when no volunteer has the email, and the flow reaches the dashboard exactly when one has, whatever mode was chosen |
| Auth.SignInWithUnknownEmailRegisters | server.js:109-114 | choosing signin with an unknown email leads to registration in register mode |
| Auth.RegisterWithKnownEmailSignsIn | server.js:117-125 | choosing register with a known email leads to the dashboard in signin mode |
| Profiles.NormalizePreferences | server.js:318 | an array is kept element by element, a single value becomes a one-element list, and a missing value becomes `[undefined]` (the same rule at server.js:440) |
| Profiles.NormalizeKeepsChoices | server.js:440 | the normalised list carries exactly the submitted labels, in order |
| Profiles.WithProfile | server.js:449-451 | the session user gets the new name, age and preferences and keeps its email and kind |
| Profiles.PreferencesOf | server.js:159 | a stored volunteer's preferences; a new user's preferences once edit-profile has set them (server.js:451); `[]` for a new user without any |
| Dashboard.Matching | server.js:162-163 | an opportunity is matched exactly when it is stored and shares a label with the preferences |
| Dashboard.MatchingInOrder | server.js:162-163 | the matches keep store order |
| Dashboard.Recommend | server.js:162-164 | at most 5 opportunities, each stored and sharing a label with the preferences |
| Dashboard.RecommendIsFirstMatches | server.js:162-164 | the recommendations are the first min(5, matches) matches in store order, all of them when there are at most 5, and none when no preference is a label |
| Server.App.StartAuth | server.js:137-147 | the session mode becomes the query mode, or `signin` when absent; nothing else changes |
| Server.App.AuthCallback | server.js:98-133 | the verify result is logged in and the store is unchanged; the mode is reconciled, ending in `register` exactly when the email is unknown; the redirect goes to the dashboard exactly when the email is known |
| Server.App.CompleteProfile | server.js:305-351 | missing email, name or age redirects with an error and changes nothing; an existing email redirects to the dashboard and changes nothing; otherwise exactly one conforming volunteer is appended, logged in, mode set to `signin`; emails stay unique |
| Server.App.ShowDashboard | server.js:150-164 | with no user redirects home; otherwise shows name (default `User`), email (default `Unknown`) and the recommendations for the user's preferences |
| Server.App.Logout | server.js:248-266 | the session ends with no user and no mode; the volunteers are unchanged |
| Server.App.DeleteAccount | server.js:355-390 | unauthenticated does nothing; otherwise the volunteer with the session email is removed, every other one remains, and the session becomes anonymous |
| Server.App.EditProfile | server.js:428-459 | unauthenticated does nothing; otherwise only the volunteer with the session email gets the new name, age and normalised preferences, and the session user gets the same values |

## Left out

- HTML rendering of every page, including the forms served by `GET /create`, `GET /complete-profile` and `GET /edit-profile`. It is presentation only.
- The text of the 400 message (`Invalid categories: ` followed by the labels joined with `, `). `Reply.Rejected` carries the list of labels instead.
- The OAuth and Passport protocol and the session cookie. The provider is modelled as an input `(email, displayName)`. A provider profile without an email, which would throw at server.js:53, is not modelled.
- Store connectivity failures and the 500 answers and error redirects they lead to. These are the `catch` branches of every handler and `done(err)` in the verify callback. Schema-validation failures on create are modelled.
- Failures reported by `req.login`, `req.logout` and `req.session.destroy` (server.js:249-259, 340-344, 370-380). These are foreign library callbacks. The model takes the success path.
- Session regeneration on login. `req.logout(cb)` at server.js:249 and server.js:370 needs Passport 0.6 or later. From 0.6 on, `req.login` regenerates the session unless `keepSessionInfo` is set, and the source never sets it. So the mode stored at server.js:140 is dropped when the callback logs the user in, and the callback then reads the `signin` default at server.js:102. The model keeps the session's mode across login instead, as the handlers' own code reads.
- ObjectId generation and `Date.now()`. They are parameters. `OpportunityTable.Create` requires the new id to be unused, as a generated ObjectId is.
- An id that is not a valid ObjectId makes Mongoose throw a cast error and answer 500. This is not modelled: ids are opaque strings.
- Mongoose's cast of `age` to Number, and the cast error it raises for non-numeric text. The model stores the submitted text.
- `Patch` models an edit body of plain schema fields only, each one present or absent; `null` values are not modelled. The handler passes the raw body to `findByIdAndUpdate` (routes/opportunities.js:135, 148). Mongoose applies top-level operators such as `$set` or `$push` as given, and casts dotted paths such as `category.0`. Such a body leaves `updateData.category` undefined, so the check at routes/opportunities.js:139 is skipped and a label outside the allow-list can be stored. The model does not capture this.
- Server.App.EditProfile: takes `name` and `age` as present. Both are required inputs of the edit form. A body that omits them is not modelled.
- Auth.Reconcile: carries the email and name of the complete-profile redirect as values. server.js:114 interpolates them into the URL with no encoding, so the query parser of server.js:271 decodes a `+` as a space (`a+b@x.com` comes back as `a b@x.com` and is saved at server.js:306), and a `&`, `#` or `%` in a display name cuts or corrupts it. The model does not capture this corruption.
- Result order of `Opportunity.find()` (routes/opportunities.js:10) and `Opportunity.find(...).limit(5)` (server.js:162-164). Neither call sorts, so MongoDB promises no order. The model's "store order" is insertion order, a choice of the model. `OpportunityTable.List` and `Dashboard.RecommendIsFirstMatches` state their order in those terms.
- Floating-point coordinates. They are opaque `real` pairs that are stored and echoed.
- Concurrent requests and last-write-wins behaviour. Each handler is one atomic step over a single session.
- `constants/categories` is not part of this model. The allow-list is a parameter.
- models/Organization.js, public/script.js, server-first-page.js and server_organizations.js. No modelled route reads or writes an Organization; the rest is client code, a process launcher and app wiring.
