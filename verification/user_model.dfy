/**
 * `App\Models\User`: SoftDeletes but no squad scope, the role-dependent `appointments`
 * relation, the `deleting` hook's cascade, the local scopes and the hidden attributes.
 */
module UserModel {
  import opened Wrappers
  import opened Records
  import opened Query
  import opened Strings
  import opened Seqs
  import AppointmentModel
  import PatientModel

  type UserQuery = seq<Clause<User>>

  /** The only global scope on users is SoftDeletes: `boot` registers no squad scope. */
  predicate InScope(u: User)
  {
    !Trashed(u.deletedAt)
  }

  /** `->get()` on a user query: non-deleted users of every squad that satisfy the clauses. */
  function Get(q: UserQuery, store: seq<User>): (r: seq<User>)
    ensures forall u :: u in r <==> u in store && InScope(u) && Eval(q, u)
  {
    Filter(store, (u: User) => InScope(u) && Eval(q, u))
  }

  /** `->withTrashed()->get()`: as Get, soft-deleted users included. */
  function GetWithTrashed(q: UserQuery, store: seq<User>): (r: seq<User>)
    ensures forall u :: u in r <==> u in store && Eval(q, u)
  {
    Filter(store, (u: User) => Eval(q, u))
  }

  /** `excludeAuthUser()`: an AND-joined `_id != principal id`. */
  function ExcludeAuthUser(q: UserQuery, me: Id): (r: UserQuery)
    ensures forall u :: Eval(r, u) == Scoped(q, And, u, u.id != me)
  {
    ApplyScope(q, And, (u: User) => u.id != me)
  }

  /** `search($term)`: one AND-joined group `(name LIKE '%t%' or email LIKE '%t%')`. */
  function Search(q: UserQuery, term: string): (r: UserQuery)
    ensures forall u :: Eval(r, u) == Scoped(q, And, u, Contains(u.name, term) || Contains(u.email, term))
  {
    var byName := Append([], And, (u: User) => Contains(u.name, term));
    ApplyScopeGroup(q, And, Append(byName, Or, (u: User) => Contains(u.email, term)))
  }

  /**
   * The foreign key of `appointments()`: `patient_id` when the type is exactly "patient",
   * `doctor_id` for every other type.
   */
  predicate KeyMatches(u: User, a: Appointment)
  {
    if u.userType == "patient" then a.patientId == Some(u.id) else a.doctorId == Some(u.id)
  }

  /** `$user->appointments`: the related appointments, under the appointment global scopes. */
  function Appointments(principal: Option<User>, u: User, apps: seq<Appointment>): (r: seq<Appointment>)
    ensures forall a :: a in r <==> a in apps && AppointmentModel.InScope(principal, a) && KeyMatches(u, a)
  {
    AppointmentModel.Get(principal, Append([], And, (a: Appointment) => KeyMatches(u, a)), apps)
  }

  /** What the `deleting` hook does to one stored appointment: soft-deletes it when related. */
  function CascadeOne(principal: Option<User>, u: User, a: Appointment, now: Instant): Appointment
  {
    if AppointmentModel.InScope(principal, a) && KeyMatches(u, a) then a.(deletedAt := Some(now)) else a
  }

  /** The appointment store after the `deleting` hook of `u` has run. */
  function Cascade(principal: Option<User>, u: User, apps: seq<Appointment>, now: Instant): seq<Appointment>
  {
    seq(|apps|, i requires 0 <= i < |apps| => CascadeOne(principal, u, apps[i], now))
  }

  /**
   * `$hidden`: serialising a user drops `password` and `remember_token` and keeps every other
   * attribute with its value.
   */
  const Hidden: set<string> := {"password", "remember_token"}

  function ToArray(attributes: map<string, string>): (r: map<string, string>)
    ensures r.Keys == attributes.Keys - Hidden
    ensures forall k :: k in r ==> r[k] == attributes[k]
  {
    map k | k in attributes && k !in Hidden :: attributes[k]
  }

  // ------------------------------------------------------------------ properties

  /** Serialised users never expose the password or the remember token. */
  lemma ToArrayHidesSecrets(attributes: map<string, string>)
    ensures "password" !in ToArray(attributes) && "remember_token" !in ToArray(attributes)
    ensures "email" in attributes ==> "email" in ToArray(attributes)
  {
  }

  /** `excludeAuthUser()` on the whole table: every non-deleted user except the principal. */
  lemma ExcludeAuthUserKeepsOthers(me: Id, store: seq<User>)
    ensures forall u :: u in Get(ExcludeAuthUser([], me), store) <==> u in store && InScope(u) && u.id != me
  {
  }

  /** An admin's (or any non-patient's) appointments are the ones whose `doctor_id` is theirs. */
  lemma NonPatientsUseDoctorKey(u: User, a: Appointment)
    requires u.userType != "patient"
    ensures KeyMatches(u, a) <==> a.doctorId == Some(u.id)
  {
  }

  /** The cascade removes no record: same length, same ids, only `deleted_at` may change. */
  lemma CascadeHardDeletesNothing(principal: Option<User>, u: User, apps: seq<Appointment>, now: Instant)
    ensures |Cascade(principal, u, apps, now)| == |apps|
    ensures forall i :: 0 <= i < |apps| ==> Cascade(principal, u, apps, now)[i] == apps[i].(deletedAt := Cascade(principal, u, apps, now)[i].deletedAt)
  {
  }

  /**
   * Every appointment `appointments()` returned is soft-deleted at `now`; every other stored
   * appointment is left exactly as it was.
   */
  lemma CascadeSoftDeletesExactlyTheRelation(principal: Option<User>, u: User, apps: seq<Appointment>, now: Instant, i: nat)
    requires i < |apps|
    ensures apps[i] in Appointments(principal, u, apps) ==> Cascade(principal, u, apps, now)[i] == apps[i].(deletedAt := Some(now))
    ensures apps[i] !in Appointments(principal, u, apps) ==> Cascade(principal, u, apps, now)[i] == apps[i]
  {
  }

  /** After the cascade, `appointments()` of the deleted user is empty. */
  lemma CascadeEmptiesRelation(principal: Option<User>, u: User, apps: seq<Appointment>, now: Instant)
    ensures Appointments(principal, u, Cascade(principal, u, apps, now)) == []
  {
    FilterNone(Cascade(principal, u, apps, now),
      (a: Appointment) => AppointmentModel.InScope(principal, a) && Eval(Append([], And, (a: Appointment) => KeyMatches(u, a)), a));
  }

  /**
   * The cascade reaches only the principal's squad: a related appointment of another squad
   * stays undeleted when an authenticated principal of a different squad deletes the user.
   */
  lemma CascadeStopsAtTenant(principal: User, u: User, apps: seq<Appointment>, now: Instant, i: nat)
    requires i < |apps| && apps[i].squadId != principal.squadId
    ensures Cascade(Some(principal), u, apps, now)[i] == apps[i]
  {
  }

  /**
   * `patient_id` means a user id here but a patient id in `Patient::appointments`: an
   * appointment booked against the patient record of a patient user, whose record id differs
   * from the user id, is invisible to the user's relation and survives the user's deletion.
   */
  lemma PatientKeyMismatch(principal: Option<User>, u: User, pt: Patient, a: Appointment, now: Instant)
    requires u.userType == "patient" && pt.userId == u.id && pt.id != u.id
    requires a.patientId == Some(pt.id) && AppointmentModel.InScope(principal, a)
    ensures a in PatientModel.Appointments(principal, pt, [a])
    ensures a !in Appointments(principal, u, [a])
    ensures Cascade(principal, u, [a], now) == [a]
  {
    assert Cascade(principal, u, [a], now)[0] == a;
  }

  /**
   * The appointments table has no `doctor_id` column: when no stored appointment carries one,
   * a doctor has no appointments and deleting the doctor changes no appointment.
   */
  lemma MissingDoctorKeyEmptiesDoctorCascade(principal: Option<User>, u: User, apps: seq<Appointment>, now: Instant)
    requires u.userType == "doctor"
    requires forall a :: a in apps ==> a.doctorId.None?
    ensures Appointments(principal, u, apps) == []
    ensures Cascade(principal, u, apps, now) == apps
  {
    FilterNone(apps,
      (a: Appointment) => AppointmentModel.InScope(principal, a) && Eval(Append([], And, (a: Appointment) => KeyMatches(u, a)), a));
  }
}
