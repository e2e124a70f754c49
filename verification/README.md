# Clinic patients, appointments and availability — a Dafny model

This project models the core of a Laravel/MongoDB clinic application. Users belong to a
*squad*, which is their clinic or tenant. They own patients, and they book, share and publish
appointments. The model covers:

- **The query layer of the Eloquent models.**
  - The squad global scope of `Appointment` and `Patient`.
  - The soft-delete scope of `Appointment`, `Patient` and `User`, and `withTrashed`.
  - The local scopes (`fromUser`, `assignedToUser`, `forTeam`, `public`, `private`, `forUser`,
    `search`, `excludeAuthUser`). Each scope takes an `and`/`or` connector.
  - `User::appointments`, whose foreign key depends on the user's type, and the cascading
    soft delete of a user's appointments.
  - The hidden attributes of a serialised user.
- **The two availability services.** Each returns the doctors (or patients) that have no live
  booking at a given instant. The answer is a left join with their profile, wrapped in a
  `ServiceResponse`.
- **Changing patients.**
  - The store/update form requests: merging in the owner, authorisation, and the
    required/min/max rules.
  - The service methods that create, update and soft-delete a patient and broadcast a
    `PatientEvent` on the squad's private channel.
  - `PatientController`'s actions.
- **The two middlewares** that share lists with every page:
  - the starred patients and users, newest first;
  - every patient and user of the squad, trashed ones included, by name;
  - the distinct task categories and labels.

Module layout follows the source: `Query` (the builder), `Records`, `AppointmentModel`,
`PatientModel`, `UserModel`, `PatientEvents`, `Services`, `DoctorService`, `PatientService`,
`RecordStore`, `PatientRequests`, `PatientController`, `TopPatientsUsers`, `AllLists`. Three
generic helper modules back them: `Wrappers`, `Strings` and `Seqs`.

Modelling choices:

- **Queries are data.** A query is a list of clauses, each with a connector and a condition.
  It is evaluated the way the SQL builder groups `where`/`orWhere`: AND binds tighter than OR,
  and the first clause's connector is dropped. The global scopes are ANDed around the whole
  grouped query.
- **Scopes regroup.** When a local scope is applied to a query whose clauses already contain
  an `orWhere`, Eloquent wraps those clauses in one parenthesised group before the scope adds
  its own. So a scope always means "the whole earlier query, then its connector, then its
  test" (`Query.ApplyScope`). Plain `where` calls outside scopes just append (`Query.Append`).
- **How a scope reads `$type`.** A scope's `$type` is compared loosely with `'and'`. Any other
  string, `'AND'` included, selects `orWhere`.
- **The team test.** `forTeam` is a `LIKE '%id%'` on the `team` array. It is modelled as
  "some team member's id contains the principal's id". This differs from set membership, and
  a lemma shows how.
- **The record store.** `RecordStore.Store` is a class holding the collections the code
  mutates: users, patients, appointments, and the outbox of broadcast events.
  - Deleting a user walks the user's appointments in a loop.
  - Each patient change appends exactly one event to the outbox.
- **Form requests.** The request classes are classes whose `input` is rewritten by
  `prepareForValidation`. Resolution follows the framework's order: prepare, then authorise
  (403), then validate (422).

Where the intended behaviour of the application and its code differ, the model follows the code.
Lemmas state these differences:

- Cancellation is tested against the lower-case string `cancelled`. An appointment whose status
  is `Cancelled`, which is the value the appointment factory writes, still blocks
  (`DoctorService.CapitalisedCancelledStillBlocks`).
- Availability is not restricted to the principal's squad and is not ordered by name: the
  service queries carry no such clause.
- The patient availability subquery has no `whereNull('deleted_at')`, so a soft-deleted
  appointment still blocks its patient (`PatientService.DeletedAppointmentStillBlocksPatient`).
- Every member of the squad can see and destroy a patient. Only updating is restricted to the
  owner (`PatientController.DestroyReachableBySquad`).
- Cascading a user's deletion follows `User::appointments()`:
  - for a patient-type user it matches `patient_id` against the *user* id, but appointments
    store the *patient record's* id (`UserModel.PatientKeyMismatch`);
  - for a doctor-type user it matches `doctor_id`, which the appointments migration does not
    create (`UserModel.MissingDoctorKeyEmptiesDoctorCascade`).
- `forTeam` is a substring test, not membership (`AppointmentModel.TeamMatchWithoutMembership`).

## Model

| member | source | states |
|---|---|---|
| Query.ConnOfOnlyExactAnd | app/Models/Appointment.php:104-106 | a scope's `$type` selects `where` exactly when it is the string `and`; `AND`, `or` and the empty string all select `orWhere` |
| Query.Append | app/Models/Appointment.php:104-106 | adding a clause keeps the earlier clauses and makes the query mean "earlier query, then this connector, then the test", with AND binding tighter than OR |
| Query.AppendGroup | app/Models/Appointment.php:112-116 | a closure passed to `where` adds one parenthesised group whose meaning is the group's own evaluation |
| Query.ScopeBase | app/Models/Appointment.php:102-107 | what a scope is applied to: one group when the earlier clauses contain an OR, otherwise the clauses themselves; either way it matches the same records and is AND-only |
| Query.ApplyScope | app/Models/Appointment.php:104-106 | a scope's test is joined with the whole earlier query by its connector; on an empty query the test alone decides |
| Query.ApplyScopeGroup | app/Models/Appointment.php:110-117 | a scope's closure group is joined with the whole earlier query by its connector |
| Query.ScopeRegroupingMatters | app/Models/Appointment.php:146-159 | `private('and')->public('or')->fromUser('and')` reads `(private or public) and mine`; appending the clauses without regrouping would read `private or (public and mine)` |
| Query.AndNarrows | app/Models/Patient.php:128-129 | a record that satisfies a query after an AND clause is added already satisfied the query before |
| Query.OrWidens | app/Models/Patient.php:130 | an OR clause never drops a record the query matched, and on an empty query the OR clause alone decides |
| Query.AndRepeatIdempotent | app/Models/Appointment.php:104-105 | adding the same AND test twice matches the same records as adding it once |
| Query.ConjunctiveEval | app/Models/Appointment.php:104-105 | a query built only from AND clauses matches exactly the records that pass every clause |
| Query.AndOnConjunctive | app/Models/Appointment.php:148-149 | an AND clause on such a query is the conjunction of the query and the new test |
| AppointmentModel.Get | app/Models/Appointment.php:67-74 | a fetch returns the stored appointments matching the query that are not trashed and, when someone is signed in, belong to their squad |
| AppointmentModel.FromUser | app/Models/Appointment.php:102-107 | joins the whole earlier query with "owned by the principal" by the connector chosen by `$type` |
| AppointmentModel.AssignedToUser | app/Models/Appointment.php:125-130 | joins the whole earlier query with "assigned to the principal" by the connector chosen by `$type` |
| AppointmentModel.ForTeam | app/Models/Appointment.php:138-143 | joins the whole earlier query with "some team entry contains the principal's id" by the connector chosen by `$type` |
| AppointmentModel.Public | app/Models/Appointment.php:146-151 | joins the whole earlier query with "public" by the connector chosen by `$type` |
| AppointmentModel.Private | app/Models/Appointment.php:154-159 | joins the whole earlier query with "not public" by the connector chosen by `$type` |
| AppointmentModel.ForUser | app/Models/Appointment.php:110-117 | ANDs the whole earlier query with one group: owned by, assigned to, or on the team of the principal |
| AppointmentModel.Search | app/Models/Appointment.php:168-174 | ANDs the whole earlier query with one group: name or description contains the term |
| AppointmentModel.MemberMatchesTeam | app/Models/Appointment.php:141-142 | a principal listed on the team always passes the team test |
| AppointmentModel.TeamMatchWithoutMembership | app/Models/Appointment.php:141-142 | a principal whose id is a substring of a member's id passes without being on the team (`1` against `["12"]`) |
| AppointmentModel.TeamLikeIsMembershipForUniformIds | app/Models/Appointment.php:141-142 | when all ids have the same length, the team test is exactly membership |
| AppointmentModel.PublicPrivatePartition | app/Models/Appointment.php:146-159 | on any base query, even one ending in an `orWhere`, `public('and')` and `private('and')` split its matches into two disjoint parts that cover them |
| AppointmentModel.VisibleQuery | app/Models/Appointment.php:110-151 | `forUser()->public('or')` matches an appointment exactly when it is related to the principal or public |
| AppointmentModel.JoiningTeamMakesVisible | app/Models/Appointment.php:110-143 | adding the principal to the team makes any appointment visible to them |
| AppointmentModel.PublishingMakesVisible | app/Models/Appointment.php:146-151 | a public appointment is visible to everyone |
| AppointmentModel.VisibilityMonotone | app/Models/Appointment.php:110-151 | adding team members or publishing never hides an appointment someone could already see |
| PatientModel.Get | app/Models/Patient.php:84-98 | a fetch returns the stored patients matching the query that are not trashed and, when someone is signed in, belong to their squad |
| PatientModel.GetWithTrashed | app/Models/Patient.php:12 | `withTrashed` drops only the soft-delete scope, so the squad scope still applies |
| PatientModel.ForUser | app/Models/Patient.php:126-131 | joins the whole earlier query with "owned by the principal" by the connector chosen by `$type` |
| PatientModel.ForUserAndKeepsOwned | app/Models/Patient.php:128-129 | `forUser('and')` on its own returns exactly the principal's live patients of the squad |
| PatientModel.ForUserAndIdempotent | app/Models/Patient.php:128-129 | applying `forUser('and')` twice fetches the same list as applying it once |
| PatientModel.ForUserOrDisjoins | app/Models/Patient.php:130 | with any other `$type` on a non-empty query, it widens the query to "or owned by the principal" |
| PatientModel.Search | app/Models/Patient.php:139-145 | ANDs the whole earlier query with one group: name or address contains the term |
| PatientModel.Appointments | app/Models/Patient.php:22-25 | a patient's appointments are the in-scope appointments whose `patient_id` is the patient's id |
| UserModel.Get | app/Models/User.php:16-18 | users have a soft-delete scope but no squad scope: a fetch returns the stored, untrashed users matching the query |
| UserModel.GetWithTrashed | app/Models/User.php:18 | with `withTrashed` the fetch returns every stored user matching the query |
| UserModel.ExcludeAuthUser | app/Models/User.php:91-94 | ANDs the whole earlier query with "id differs from the principal's" |
| UserModel.ExcludeAuthUserKeepsOthers | app/Models/User.php:91-94 | the scope on its own returns every live user except the principal |
| UserModel.Search | app/Models/User.php:102-108 | ANDs the whole earlier query with one group: name or email contains the term |
| UserModel.Appointments | app/Models/User.php:114-120 | a user's appointments are the in-scope appointments whose key matches: `patient_id` for a patient-type user, otherwise `doctor_id` |
| UserModel.NonPatientsUseDoctorKey | app/Models/User.php:116-119 | any type other than exactly `patient` uses `doctor_id` |
| UserModel.ToArray | app/Models/User.php:32-35 | serialising drops exactly the hidden attributes and keeps every other value |
| UserModel.ToArrayHidesSecrets | app/Models/User.php:32-35 | the password and remember token never appear, and the email does when present |
| UserModel.CascadeHardDeletesNothing | app/Models/User.php:76-80 | deleting a user keeps every appointment and changes only `deleted_at` |
| UserModel.CascadeSoftDeletesExactlyTheRelation | app/Models/User.php:76-80 | exactly the appointments in the user's relation are soft-deleted, at the deletion instant |
| UserModel.CascadeEmptiesRelation | app/Models/User.php:76-80 | after the cascade the user's relation is empty |
| UserModel.CascadeStopsAtTenant | app/Models/User.php:76-80 | an appointment of another squad is never touched when someone is signed in |
| UserModel.PatientKeyMismatch | app/Models/User.php:117 | a patient's appointment, keyed by the patient record's id, is missed by its user's cascade when the two ids differ |
| UserModel.MissingDoctorKeyEmptiesDoctorCascade | app/Models/User.php:119 | when no appointment carries `doctor_id`, deleting a doctor soft-deletes nothing |
| RecordStore.Store.DeleteUser | app/Models/User.php:76-80 | deleting a user soft-deletes them, runs the cascade over every appointment, leaves patients and events alone, and keeps the store invariant of unique patient ids |
| RecordStore.Store.StorePatient | app/Services/PatientService.php:52-59 | stores the created patient at the end and broadcasts one `create` event on its squad's channel |
| RecordStore.Store.UpdatePatient | app/Services/PatientService.php:62-69 | replaces that patient with its update, which is the only stored record with its id, keeps ids unique and broadcasts one `update` event |
| RecordStore.Store.DestroyPatient | app/Services/PatientService.php:71-79 | soft-deletes that patient, the only stored record with its id, keeps ids unique and broadcasts one `delete` event on the squad channel read before the delete |
| PatientEvents.NewPatientEvent | app/Events/PatientEvent.php:30-35 | the channel name is `squad.` followed by the squad id, and the kind and patient are kept |
| PatientEvents.EventChannelAndName | app/Events/PatientEvent.php:42-55 | an event is broadcast on the private channel `squad.<id>` under the name `patient-event` |
| PatientEvents.BroadcastWith | app/Events/PatientEvent.php:62-68 | the payload has exactly the keys `type` and `patient`, holding the kind and the patient |
| PatientEvents.ChannelsSeparateSquads | app/Events/PatientEvent.php:30-45 | events of two different squads never share a channel |
| Services.LeftJoin | app/Services/DoctorService.php:34 | every joined row comes from a user, a row's profile is owned by that user, a row without a profile means the user has none, every user yields a row, and every profile a user owns yields its own row with that user |
| DoctorService.BusyIds | app/Services/DoctorService.php:27-33 | an id is busy exactly when some appointment at that instant, not `cancelled` and not trashed, names it as doctor |
| DoctorService.AvailableDoctors | app/Services/DoctorService.php:25-33 | the available users are exactly the untrashed doctor-type users whose id is not busy |
| DoctorService.RowsComeFromAvailableUsers | app/Services/DoctorService.php:34-35 | every answer row carries an available doctor's id, name and image, and any specialty comes from that doctor's profile |
| DoctorService.AvailableUsersHaveRows | app/Services/DoctorService.php:34-35 | every available doctor has a row in the answer |
| DoctorService.GetAvailableByDate | app/Services/DoctorService.php:20-50 | an unparsable date gives the failure response `Error al buscar doctores.` with the error, a parsable one gives `Busqueda exitosa.` with data, and success holds exactly when data is present |
| DoctorService.AnswerIsExactlyTheFreeDoctors | app/Services/DoctorService.php:25-35 | for a parsable date, an id is answered exactly when it belongs to an untrashed doctor with no live booking then |
| DoctorService.OtherInstantsDoNotBlock | app/Services/DoctorService.php:30 | a booking at another instant leaves the answer unchanged |
| DoctorService.CancelledOrDeletedDoNotBlock | app/Services/DoctorService.php:31-32 | a `cancelled` or trashed booking leaves the answer unchanged |
| DoctorService.BookingOnlyShrinks | app/Services/DoctorService.php:27-33 | adding a booking only removes doctors from the answer |
| DoctorService.CapitalisedCancelledStillBlocks | app/Services/DoctorService.php:31 | a live booking whose status is `Cancelled` still blocks its doctor |
| DoctorService.AssignedToNeverBlocks | app/Services/DoctorService.php:29 | a booking without `doctor_id` blocks nobody; this rests on reading `NOT IN` as plain non-membership (see Left out) |
| DoctorService.ThreeDoctorsExample | app/Services/DoctorService.php:25-33 | with doctors A, B, C and one live booking of A at 10, the answer at 10 is B, C and at 11 it is all three |
| PatientService.BusyIds | app/Services/PatientService.php:28-33 | an id is busy exactly when some appointment at that instant, not `cancelled`, names it as patient, whether trashed or not |
| PatientService.AvailablePatients | app/Services/PatientService.php:26-33 | the available users are exactly the untrashed patient-type users whose id is not busy |
| PatientService.RowsComeFromAvailableUsers | app/Services/PatientService.php:34-35 | every row carries an available patient's id, name and image, and any blood type comes from their patient record |
| PatientService.AvailableUsersHaveRows | app/Services/PatientService.php:34-35 | every available patient has a row |
| PatientService.GetAvailableByDate | app/Services/PatientService.php:21-50 | corrected service: an unparsable date gives `Error al buscar pacientes.`, a parsable one gives `Busqueda exitosa.` with data |
| PatientService.GetAvailableByDateAsWritten | app/Services/PatientService.php:21-43 | the service as written never returns a response |
| PatientService.AsWrittenNeverAnswers | app/Services/PatientService.php:26-43 | even for a date the corrected service answers successfully, the written one crashes |
| PatientService.AnswerIsExactlyTheFreePatients | app/Services/PatientService.php:26-35 | for a parsable date, an id is answered exactly when it belongs to an untrashed patient-type user with no blocking booking then |
| PatientService.DeletedAppointmentStillBlocksPatient | app/Services/PatientService.php:28-33 | a soft-deleted, uncancelled booking at that instant still blocks its patient |
| PatientService.CreatePatient | app/Services/PatientService.php:55 | a created patient gets the new id, `updated_at` = now, is not trashed, and reads back every validated attribute except `_id` |
| PatientService.SoftDeletePatient | app/Services/PatientService.php:76 | deleting marks the patient trashed and keeps every attribute |
| PatientService.UpdateReadsBack | app/Services/PatientService.php:65 | after an update every validated attribute except `_id` reads back, the others keep their values, and id and `deleted_at` are unchanged |
| PatientService.UpdateTouchesOnlyWhenDirty | app/Services/PatientService.php:65 | `updated_at` becomes the new instant exactly when some validated attribute differs from the stored one |
| PatientService.RepeatedUpdateIsNoOp | app/Services/PatientService.php:65 | repeating the same update later changes nothing, not even `updated_at` |
| PatientService.DestroyedPatientOnlyWithTrashed | app/Services/PatientService.php:76 | a destroyed patient leaves the default scope but stays in the same squad for `withTrashed` |
| PatientRequests.Failing | app/Http/Requests/StorePatientRequest.php:24-32 | the failing attributes are exactly the ruled keys whose value breaks one of their rules |
| PatientRequests.Validate | app/Http/Requests/StorePatientRequest.php:24-32 | validation passes exactly when every ruled attribute passes, then returns only ruled keys present in the input; otherwise the rejection names exactly the failing attributes, and there is at least one |
| PatientRequests.Merge | app/Http/Requests/StorePatientRequest.php:34-40 | preparing overwrites `user_id` and `squad_id` with the principal's and keeps every other input |
| PatientRequests.Resolve | app/Http/Requests/UpdatePatientRequest.php:14-21 | a request is rejected as unauthorised exactly when authorisation fails, before any validation; an authorised request resolves to the validation of its prepared input |
| PatientRequests.StorePatientRequest.Authorize | app/Http/Requests/StorePatientRequest.php:14-17 | anyone may store a patient |
| PatientRequests.StorePatientRequest.PrepareForValidation | app/Http/Requests/StorePatientRequest.php:34-40 | the input becomes the merge with the principal |
| PatientRequests.StorePatientRequest.ValidateResolved | app/Http/Requests/StorePatientRequest.php:14-40 | prepares, then resolves against the store rules |
| PatientRequests.UpdatePatientRequest.Authorize | app/Http/Requests/UpdatePatientRequest.php:14-21 | authorised exactly when the principal owns the patient |
| PatientRequests.UpdatePatientRequest.PrepareForValidation | app/Http/Requests/UpdatePatientRequest.php:36-42 | the input becomes the merge with the principal |
| PatientRequests.UpdatePatientRequest.ValidateResolved | app/Http/Requests/UpdatePatientRequest.php:14-42 | prepares, then resolves against the update rules with the ownership check |
| PatientRequests.LengthBounds | app/Http/Requests/UpdatePatientRequest.php:31-32 | a non-blank name passes exactly when its length is 3 to 255, an address exactly when 3 to 500 |
| PatientRequests.MissingOrBlankFails | app/Http/Requests/StorePatientRequest.php:27-30 | a missing or blank value fails every required attribute |
| PatientRequests.StoreValidatedOwnership | app/Http/Requests/StorePatientRequest.php:24-40 | a store passes exactly when name and address pass and the principal's id and squad are not blank; the validated data then holds the four ruled keys and names the principal and their squad as owner, whatever the client sent |
| PatientRequests.UpdateValidatedKeys | app/Http/Requests/UpdatePatientRequest.php:28-42 | validated update data holds only name and address, so the merged owner fields never reach the update |
| PatientRequests.UnauthorizedBeforeInvalid | app/Http/Requests/UpdatePatientRequest.php:14-21 | a non-owner gets the authorisation error whatever the input |
| PatientController.Index | app/Http/Controllers/PatientController.php:34-46 | `patients` is every in-scope patient, and `myPatients` is exactly those owned by the principal, in the same order |
| PatientController.BindPatient | app/Http/Controllers/PatientController.php:95 | route binding finds the patient exactly when an in-scope patient has that id |
| PatientController.ShowQueryPrecedence | app/Http/Controllers/PatientController.php:99-101 | the eager-load query means "(this patient's and related to me) or public" |
| PatientController.ShowAppointments | app/Http/Controllers/PatientController.php:99-101 | the shown appointments are exactly this patient's in-scope appointments that are related to the principal or public |
| PatientController.OtherPatientsPublicAppointmentsFetchedNotShown | app/Http/Controllers/PatientController.php:99-101 | another patient's public appointment is fetched by the query but never attached |
| PatientController.PublicAppointmentsShownToWholeSquad | app/Http/Controllers/PatientController.php:100 | a public live appointment of the patient is shown to any member of its squad |
| PatientController.GetAvailableByDateAsWritten | app/Http/Controllers/PatientController.php:48-52 | the action as written never answers |
| PatientController.GetAvailableByDate | app/Http/Controllers/PatientController.php:48-59 | corrected action: the errors for an unparsable date, otherwise the data rows |
| PatientController.AvailabilityAnswersFreePatients | app/Http/Controllers/PatientController.php:48-59 | the corrected action answers exactly the free patients where the written one crashes |
| PatientController.StoredPatientBelongsToCreator | app/Http/Controllers/PatientController.php:78-87 | a stored patient is owned by the principal and lives in their squad |
| PatientController.CreatorPassesUpdateAuthorization | app/Http/Requests/StorePatientRequest.php:36-39 | whoever stored a patient passes that patient's update authorisation |
| PatientController.UpdateKeepsOwnerAndSquad | app/Http/Controllers/PatientController.php:132-141 | an update never changes a patient's owner or squad |
| PatientController.DestroyReachableBySquad | app/Http/Controllers/PatientController.php:149-155 | any squad member can reach, and so destroy, a live patient of the squad |
| TopPatientsUsers.StarredPatientsQuery | app/Http/Middleware/GetTopPatientsUsers.php:30 | the query matches exactly the patients whose id is starred |
| TopPatientsUsers.StarredUsersQuery | app/Http/Middleware/GetTopPatientsUsers.php:41 | the query matches exactly the users whose id is starred |
| TopPatientsUsers.TopPatients | app/Http/Middleware/GetTopPatientsUsers.php:25-33 | empty when nothing is starred, otherwise a reordering of the fetch: starred, in-scope patients, newest `updated_at` first |
| TopPatientsUsers.TopUsers | app/Http/Middleware/GetTopPatientsUsers.php:36-43 | empty when nothing is starred, otherwise a reordering of the fetch: starred, untrashed users, newest first |
| TopPatientsUsers.TopPatientsBounded | app/Http/Middleware/GetTopPatientsUsers.php:30-33 | with unique patient ids, there are no more top patients than distinct starred ids |
| TopPatientsUsers.TopUsersBounded | app/Http/Middleware/GetTopPatientsUsers.php:41-43 | with unique user ids, there are no more top users than distinct starred ids |
| TopPatientsUsers.TopUsersCrossSquads | app/Http/Middleware/GetTopPatientsUsers.php:30-43 | a starred user of another squad is listed, a starred patient of another squad is not |
| AllLists.NameOrderIsTotalPreorder | app/Http/Middleware/GetAllPatientsUsersCategoriesLabels.php:26-31 | ordering by name is total and transitive |
| AllLists.AllPatients | app/Http/Middleware/GetAllPatientsUsersCategoriesLabels.php:26-29 | a reordering of the `withTrashed` fetch: every patient of the squad, trashed ones included, by name |
| AllLists.SquadUsersQuery | app/Http/Middleware/GetAllPatientsUsersCategoriesLabels.php:30 | the query matches exactly the users of the given squad |
| AllLists.AllUsers | app/Http/Middleware/GetAllPatientsUsersCategoriesLabels.php:30-33 | a reordering of the fetch: every user of the squad, trashed ones included, by name |
| AllLists.Flatten | app/Http/Middleware/GetAllPatientsUsersCategoriesLabels.php:36 | flattening leaves no lists, keeps every top-level scalar, and yields only values that are top-level scalars of the input or come from flattening one of its nested lists |
| AllLists.FlattenKeepsNested | app/Http/Middleware/GetAllPatientsUsersCategoriesLabels.php:36 | every value nested in a list survives flattening |
| AllLists.DistinctNonNull | app/Http/Middleware/GetAllPatientsUsersCategoriesLabels.php:34-40 | the result has no duplicates and holds exactly the non-null flattened values |
| AllLists.DistinctNonNullSpec | app/Http/Middleware/GetAllPatientsUsersCategoriesLabels.php:34-40 | no duplicates, no null, every top-level or nested string kept, in first-occurrence order |
| AllLists.CategoriesAndLabelsSpec | app/Http/Middleware/GetAllPatientsUsersCategoriesLabels.php:34-47 | categories and labels are each the distinct non-null flattened values in first-occurrence order |
| Seqs.DistinctFirstOccurrenceOrder | app/Http/Middleware/GetAllPatientsUsersCategoriesLabels.php:37 | `unique` keeps the first occurrence of each value, in order |
| Seqs.SortBy | app/Http/Middleware/GetTopPatientsUsers.php:31 | sorting returns a permutation of its input, ordered by the given total preorder |

## Left out

- Querying MongoDB itself is not modelled: how the driver compiles mixed `where`/`orWhere` into `$and`/`$or`, indexes, and object ids. The query model uses the builder's SQL grouping, including the re-grouping Eloquent does when a scope is applied.
- `LIKE` is modelled as case-sensitive substring search. Case-insensitive matching and `%`/`_` inside the search term are not modelled.
- Laravel's `unique()` compares loosely (`null == ""`, `"1" == 1`). The model compares values structurally.
- Date parsing (Carbon) is a parameter `string -> Option<Instant>`. The clock and id generation are parameters too.
- The `TrimStrings` and `ConvertEmptyStringsToNull` middlewares are not modelled. A blank value is treated as failing `required` directly.
- DoctorService.AssignedToNeverBlocks: SQL `NOT IN` with a null in the subquery (which empties the result) is not modelled. An appointment at the instant without `doctor_id` simply blocks nobody, where the database would return no doctor at all.
- Doctor profiles carry only `user_id` and `specialty`. Patient profiles carry only their attributes and an `extra` map for `blood_type`.
- Eager loading of related records (`with('user')`, `load('user')`, `withAppointments`, `withUser`, `withTasks`), Inertia rendering, redirects and flash messages are not modelled. Only which records are fetched and attached is.
- Broadcast delivery, authorisation of the private channel, queues and concurrent requests are not modelled. An event is a value appended to the store's outbox.
- `DashboardController`, the routes, and the `Role`, `Permission` and `Doctor` models are not part of this model. They appear only as the records they contribute.
- An appointment's soft delete also stamps `updated_at`. The appointment record has no such field here, so only `deleted_at` is modelled.
- PatientService.CreatePatient: requires that name, address, owner and squad are present. The only caller passes data validated against rules that make them required.
- PatientService.GetAvailableByDate: on failure, any `Throwable` is represented by the date-parse error. Database errors are not modelled.
- DoctorService.GetAvailableByDate: the same simplification of the caught error applies.
- PatientRequests.UpdatePatientRequest.Authorize: `$this->patient` is read as the route-bound patient. In the framework, request input is looked up before the route parameter, so a client that sends a `patient` field makes `authorize` read `user_id` from that value instead. That case is not modelled.
- Services.LeftJoin: the order of the joined rows is not stated. The contract fixes which rows appear, not the order the database returns them in.

## Findings

| source | as written | input that shows it | evidently intended | confidence | as-written member | corrected member |
|---|---|---|---|---|---|---|
| app/Services/PatientService.php:21-50 | `getAvailableByDate` reads `$this->userModel`, whose declaration and constructor are commented out, so the query throws. The catch block then builds a `ServiceResponse`, whose import is commented out, so that throws too and the method never returns | any date string, for example `2024-05-01 10:00:00` | the doctor service's query, on patient-type users joined with their patient records, returning a `ServiceResponse` | high; not executed | PatientService.GetAvailableByDateAsWritten, PatientService.AsWrittenNeverAnswers | PatientService.GetAvailableByDate |
| app/Http/Controllers/PatientController.php:50 | the action reads `$this->patientService`, which is never declared or assigned, so every call fails with an undefined-property error before the service runs | any request to the action | resolve the service as the other actions do, and answer with its errors or its data | high; not executed | PatientController.GetAvailableByDateAsWritten, PatientController.AvailabilityAnswersFreePatients | PatientController.GetAvailableByDate |
