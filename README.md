# Stump: library form rules and authentication transitions

This project models two pieces of decision logic from Stump, a self-hosted
comic and e-book server.

- **The create-or-edit library form** (module `LibraryForm`, pure). Its
  schema decides whether a submission is accepted:
  - the scan-mode and pattern guards;
  - a name must be non-empty and not taken, with an exemption for the library
    being edited;
  - a path must be non-empty and not a string prefix of an existing library's
    path, again exempting the edited library's own path.

  The module also models:
  - the values the form starts from;
  - the split of submitted tags into catalogue tags and names still to create;
  - the create and edit requests built on submission;
  - the dispatch between the create and edit paths.

  JavaScript's `some` and `filter` are modelled as `Any` and `Filter`, with
  contracts that characterise them completely.
- **The authentication endpoints** (module `Auth`, class `AuthService`). The
  state is:
  - a user table keyed by username (`users`);
  - the set of users with a preferences record (`preferences`);
  - the store's id counter (`nextId`);
  - the caller's session user (`session`).

  `Viewer`, `Login`, `Logout` and `Register` are methods over this state.
  Password hashing and verification are passed to the constructor as
  functions. Each returns `None` where the server fails with an error.
  With requests handled one at a time, `Register` keeps the invariant that a
  non-empty store has exactly one server owner. `OwnerOnboarding` is a client
  of `Register` and `Login`: its results follow from their contracts, not
  from their bodies.

`Wrappers` holds the `Option` and `Result` types both modules use.

Where the code's comments, messages and type annotations say one thing and
its behaviour another, the model follows the behaviour:

- The path rule's comment says it checks "if path is parent to any existing
  library" (CreateOrEditLibraryForm.tsx:50), and its message reads "parent
  directory already exists as library" (:54). The code tests whether an
  existing path *starts with* the new path, character by character. So `/a`
  is refused when `/ab` exists, as `PrefixNotPerComponent` shows. A path below
  an existing library passes, as `ChildPathNotRefused` shows.
- The comments on both rules exempt the case where "we aren't editing that
  library" (:40, :51). In the code the test is on the edited library's own
  name or path. Keeping that name or path passes even when it collides with
  *other* libraries (`OwnNameAccepted`, `OwnPathAccepted`).
- The guards are typed as narrowing to the enumerations
  (`input is LibraryScanMode`, :20). Yet they also admit the empty string,
  through the `!input` branch, so `""` passes as a scan mode or pattern.
- The comment at auth.rs:90 and the Forbidden message at :93 say that only
  server owners may register member accounts. The check at :91 accepts any
  session user, whatever its role. `Register` follows the check: with a
  session user of any role, a later account may be registered.

A further behaviour of the code: a field's refinement runs even when its
minimum-length check has failed. An empty name or path can therefore carry
two issues (`EmptyPathClashes`).

## Model

| member | source | states |
|---|---|---|
| `LibraryForm.Any` | packages/interface/src/scenes/library/admins/CreateOrEditLibraryForm.tsx:41 | `some` holds iff some element satisfies the predicate |
| `LibraryForm.Filter` | packages/interface/src/scenes/library/admins/CreateOrEditLibraryForm.tsx:130 | `filter` keeps each element satisfying the predicate as often as it occurs, drops the others, and keeps the input order (a subsequence) |
| `LibraryForm.FilterMembership` | packages/interface/src/scenes/library/admins/CreateOrEditLibraryForm.tsx:133 | an element is in the filtered sequence iff it is in the input and satisfies the predicate |
| `LibraryForm.IsLibraryScanMode` | packages/interface/src/scenes/library/admins/CreateOrEditLibraryForm.tsx:20-22 | the scan-mode guard accepts exactly the names of the three scan modes ("SYNC", "BATCHED", "NONE") and "" |
| `LibraryForm.IsLibraryPattern` | packages/interface/src/scenes/library/admins/CreateOrEditLibraryForm.tsx:24-26 | the pattern guard accepts exactly the names of the two patterns ("SERIES_BASED", "COLLECTION_BASED") and "" |
| `LibraryForm.NameTaken` | packages/interface/src/scenes/library/admins/CreateOrEditLibraryForm.tsx:38-45 | a name is refused iff some existing library has exactly that name and no library is edited or the edited one has another name |
| `LibraryForm.OwnNameAccepted` | packages/interface/src/scenes/library/admins/CreateOrEditLibraryForm.tsx:41 | re-saving the edited library under its own name passes the name rule, whatever other libraries exist |
| `LibraryForm.PathClashes` | packages/interface/src/scenes/library/admins/CreateOrEditLibraryForm.tsx:49-56 | a path is refused iff some existing library's path starts with it and it is not the edited library's path |
| `LibraryForm.OwnPathAccepted` | packages/interface/src/scenes/library/admins/CreateOrEditLibraryForm.tsx:52 | keeping the edited library's own path passes the path rule, whatever other libraries exist |
| `LibraryForm.PrefixNotPerComponent` | packages/interface/src/scenes/library/admins/CreateOrEditLibraryForm.tsx:52 | an existing library at "/ab" refuses both "/a" and "/ab": the test compares characters, not path components |
| `LibraryForm.ChildPathNotRefused` | packages/interface/src/scenes/library/admins/CreateOrEditLibraryForm.tsx:50-52 | a path below an existing library ("/a/b" under "/a") passes the rule |
| `LibraryForm.EmptyPathClashes` | packages/interface/src/scenes/library/admins/CreateOrEditLibraryForm.tsx:48-52 | the empty path also fails the path rule as soon as any library exists, unless the edited library's path is empty |
| `LibraryForm.Issue.Message` | packages/interface/src/scenes/library/admins/CreateOrEditLibraryForm.tsx:37-54 | the taken-name message is "You already have a library named ", the submitted name and a full stop; the required-name, required-path and parent-path issues have their fixed messages; the two enumeration issues share the validator's default message "Invalid input" |
| `LibraryForm.ApplySchemaDefaults` | packages/interface/src/scenes/library/admins/CreateOrEditLibraryForm.tsx:30-57 | each of the three flags is its submitted value, or false when absent; the pattern is the submitted one or "SERIES_BASED", the scan mode the submitted one or "BATCHED"; name, path, description and tags pass through unchanged |
| `LibraryForm.Issues` | packages/interface/src/scenes/library/admins/CreateOrEditLibraryForm.tsx:28-66 | no issue iff every rule holds; each issue is reported iff its rule fails |
| `LibraryForm.Parse` | packages/interface/src/scenes/library/admins/CreateOrEditLibraryForm.tsx:86-100 | parsing succeeds iff the defaulted values pass every rule; a failure carries at least one issue |
| `LibraryForm.EmptyNameOrPathRefused` | packages/interface/src/scenes/library/admins/CreateOrEditLibraryForm.tsx:35-48 | an empty name is refused with "name required", an empty path with "path required" |
| `LibraryForm.TagOptionsOf` | packages/interface/src/scenes/library/admins/CreateOrEditLibraryForm.tsx:97 | each tag of the library becomes one selector entry labelled and valued by its name, in order |
| `LibraryForm.DefaultValues` | packages/interface/src/scenes/library/admins/CreateOrEditLibraryForm.tsx:88-98 | in create mode the flags start false, the pattern "SERIES_BASED", name and path absent; in edit mode they are the library's, and the tags are the library's tags as selector entries (absent when it has none); the scan mode starts at "BATCHED" in both modes |
| `LibraryForm.CreateDefaultsMatchSchema` | packages/interface/src/scenes/library/admins/CreateOrEditLibraryForm.tsx:89-96 | the create-mode starting flags, pattern and scan mode equal the schema's defaults for absent fields |
| `LibraryForm.EditDefaultsPassRules` | packages/interface/src/scenes/library/admins/CreateOrEditLibraryForm.tsx:88-98 | in edit mode, the starting name, path, pattern and scan mode pass every rule, whatever other libraries exist |
| `LibraryForm.TagValues` | packages/interface/src/scenes/library/admins/CreateOrEditLibraryForm.tsx:132 | the submitted tag names, one per selector entry, in order |
| `LibraryForm.SelectedIff` | packages/interface/src/scenes/library/admins/CreateOrEditLibraryForm.tsx:130 | a catalogue tag is selected iff its name is among the submitted names |
| `LibraryForm.SelectedTags` | packages/interface/src/scenes/library/admins/CreateOrEditLibraryForm.tsx:130 | the existing tags keep catalogue order and hold only catalogue tags that are selected |
| `LibraryForm.SelectedTagsSpec` | packages/interface/src/scenes/library/admins/CreateOrEditLibraryForm.tsx:130 | the existing tags are a subsequence of the catalogue holding exactly the catalogue tags whose names were submitted, each as often as the catalogue has it; empty when no tags were submitted |
| `LibraryForm.SelectedNamesIff` | packages/interface/src/scenes/library/admins/CreateOrEditLibraryForm.tsx:130-133 | a name belongs to an existing tag iff it was submitted and the catalogue has a tag with it |
| `LibraryForm.PartitionTags` | packages/interface/src/scenes/library/admins/CreateOrEditLibraryForm.tsx:130-133 | there is a list of names to create iff tags were submitted, and none of its names belongs to an existing tag |
| `LibraryForm.TagsToCreateSpec` | packages/interface/src/scenes/library/admins/CreateOrEditLibraryForm.tsx:131-133 | the names to create are the submitted names, in submitted order and with their repetitions, that no catalogue tag has |
| `LibraryForm.PartitionTagsSpec` | packages/interface/src/scenes/library/admins/CreateOrEditLibraryForm.tsx:130-133 | the existing tags are the catalogue tags whose names were submitted, in catalogue order and with the catalogue's multiplicities. The tags to create are the submitted names, in order and with their multiplicities, that no catalogue tag has. Each submitted name is on exactly one side. With no submitted tags both sides are empty or absent |
| `LibraryForm.ActionNewExample` | packages/interface/src/scenes/library/admins/CreateOrEditLibraryForm.tsx:130-133 | with "Action" catalogued and "Action", "New" submitted, only "Action" is sent and "New" is left to create |
| `LibraryForm.HandleCreateLibrary` | packages/interface/src/scenes/library/admins/CreateOrEditLibraryForm.tsx:127-162 | the create request carries the submitted fields and options without an id. Its tags are exactly the selected catalogue tags, in catalogue order and with the catalogue's multiplicities |
| `LibraryForm.HandleUpdateLibrary` | packages/interface/src/scenes/library/admins/CreateOrEditLibraryForm.tsx:164-217 | no request without a library. Otherwise the request keeps the library's id, status, update time and options id, and takes name, path, description, scan mode and flags from the submission. Removed tags are always empty. Tags are exactly the selected catalogue tags, in catalogue order and with the catalogue's multiplicities |
| `LibraryForm.HandleSubmit` | packages/interface/src/scenes/library/admins/CreateOrEditLibraryForm.tsx:219-225 | the create path is taken iff no library is supplied, the edit path otherwise |
| `LibraryForm.FormSubmit` | packages/interface/src/scenes/library/admins/CreateOrEditLibraryForm.tsx:86-101 | a submission is rejected with at least one issue iff some rule fails; otherwise the dispatched request is sent |
| `LibraryForm.SubmittedRequestPassesRules` | packages/interface/src/scenes/library/admins/CreateOrEditLibraryForm.tsx:35-56 | every request sent has the submitted non-empty name that is not taken and the submitted non-empty path that clashes with no library, the edited one excepted. All its tags are catalogue tags |
| `LibraryForm.ResubmitUnchangedAccepted` | packages/interface/src/scenes/library/admins/CreateOrEditLibraryForm.tsx:38-56 | re-submitting an edited library unchanged (non-empty own name and path) sends the edit request, whatever other libraries exist |
| `Auth.AuthService.ToUser` | apps/server/src/routers/api/v1/auth.rs:63 | the returned user has the row's id, name and role, no password hash, and has preferences iff a preferences record is linked to its id |
| `Auth.AuthService.Viewer` | apps/server/src/routers/api/v1/auth.rs:30-36 | returns the session user if there is one, Unauthorized otherwise; changes nothing |
| `Auth.AuthService.Login` | apps/server/src/routers/api/v1/auth.rs:38-72 | Answers at once, unchanged, when the session holds this username. An unknown name or a wrong password is Unauthorized, a failed check an internal error, and every failure leaves the session as it was. On success the session holds exactly the returned user, whose name is the one logged in with |
| `Auth.AuthService.Logout` | apps/server/src/routers/api/v1/auth.rs:74-77 | always succeeds and leaves no session user |
| `Auth.AuthService.Register` | apps/server/src/routers/api/v1/auth.rs:79-134 | Forbidden with a non-empty store and no session user. The first account becomes server owner, later ones get the default role. Success adds exactly one user row and one linked preferences record. A failure changes nothing, not even the id counter. The session is never changed, and, under the one-request-at-a-time model, the single-owner invariant is kept |
| `Auth.OwnerOnboarding` | apps/server/src/routers/api/v1/auth.rs:86-98 | on a fresh server the first registration yields the owner, an anonymous second one is Forbidden, the owner can log in with the password set, and a member registered then gets the default role |

## Left out

- Rendering, the `useForm` wiring, `useState`, the directory picker and the
  tag selector are UI code. `FormSubmit` stands in for the resolver that runs
  the schema before the submit handler is called.
- The create, edit and tag-creation network calls, the toast notifications,
  the form reset and the delayed navigation home are network and timer
  effects. The model stops at the request arguments they would be given.
- `handleCreateTag` only calls the tag-creation endpoint and logs failures,
  so it has no decision logic to model.
- The live preview (`form.watch` feeding `syncLibraryPreview`) is an
  event subscription and is not modelled.
- The commented-out tag creation and removed-tags logic is dead code. The
  model sends only catalogue tags, and `removedTags` is always empty.
- DefaultValues: a missing library and a library whose description is
  `null` both give an absent description, so `undefined` and `null` are
  not told apart.
- The mechanics of the schema library are not modelled: coercion, type
  errors for missing strings, or messages other than the form's own. The
  enumeration issues use its generic message.
- bcrypt hashing, the configured cost and `verify_password` are foreign
  code. They are injected functions; `OwnerOnboarding` assumes that a hash
  verifies against its own password.
- `bcrypt::hash` draws a random salt, so two hashes of one password differ.
  The model's `hashPassword` is a deterministic function of password and
  cost. Nothing proved depends on two hashes being equal.
- Requests are modelled as running one at a time, each atomically.
  `register` reads whether any user exists (auth.rs:86) and creates the user
  later (auth.rs:102) without a transaction. So two concurrent first
  registrations can both become server owner. `Register`'s single-owner
  guarantee holds only under the one-at-a-time model.
- Database failures (`?` on the queries) are omitted. The one exception is
  the unique-username constraint, which `Register` models as an internal
  error that changes nothing. The concrete error variant the server maps
  these to is not part of this model.
- The `.expect`/`.unwrap` panics are not modelled: inserting into the session
  and re-reading the created user always succeed.
- The definition of `UserRole::default()` is not part of this model. It is
  taken to be the member role (`DefaultRole`).
- The router wiring (`mount`) and the conversion of a database row into the
  returned user are not part of this model, beyond the fields `User` carries.
- `core/src/lib.rs` is construction and initialisation wiring (channels,
  logging, environment, migrations) with no decision logic, so it is not
  modelled.
