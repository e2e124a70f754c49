/** `App\Models\Patient`: its global scopes, its `appointments` relation and its local scopes. */
module PatientModel {
  import opened Wrappers
  import opened Records
  import opened Query
  import opened Strings
  import opened Seqs
  import AppointmentModel

  type PatientQuery = seq<Clause<Patient>>

  /** The global scopes every patient query carries: `squad` and SoftDeletes. */
  predicate InScope(principal: Option<User>, p: Patient)
  {
    InSquad(principal, p.squadId) && !Trashed(p.deletedAt)
  }

  /**
   * `->get()` on a patient query: the stored patients, in store order, that pass the global
   * scopes and the query's clauses. With a principal, only the principal's squad is seen.
   */
  function Get(principal: Option<User>, q: PatientQuery, store: seq<Patient>): (r: seq<Patient>)
    ensures forall p :: p in r <==> p in store && InScope(principal, p) && Eval(q, p)
    ensures principal.Some? ==> forall p :: p in r ==> p.squadId == principal.value.squadId && p.deletedAt.None?
  {
    Filter(store, (p: Patient) => InScope(principal, p) && Eval(q, p))
  }

  /** `->withTrashed()->get()`: as Get, but soft-deleted patients are kept. */
  function GetWithTrashed(principal: Option<User>, q: PatientQuery, store: seq<Patient>): (r: seq<Patient>)
    ensures forall p :: p in r <==> p in store && InSquad(principal, p.squadId) && Eval(q, p)
  {
    Filter(store, (p: Patient) => InSquad(principal, p.squadId) && Eval(q, p))
  }

  /** `forUser($type)`: `user_id` is the principal's id. */
  function ForUser(q: PatientQuery, me: Id, kind: string): (r: PatientQuery)
    ensures forall p :: Eval(r, p) == Scoped(q, ConnOf(kind), p, p.userId == me)
  {
    ApplyScope(q, ConnOf(kind), (p: Patient) => p.userId == me)
  }

  /** `search($term)`: one AND-joined group `(name LIKE '%t%' or address LIKE '%t%')`. */
  function Search(q: PatientQuery, term: string): (r: PatientQuery)
    ensures forall p :: Eval(r, p) == Scoped(q, And, p, Contains(p.name, term) || Contains(p.address, term))
  {
    var byName := Append([], And, (p: Patient) => Contains(p.name, term));
    ApplyScopeGroup(q, And, Append(byName, Or, (p: Patient) => Contains(p.address, term)))
  }

  /**
   * `appointments()`: `hasMany(Appointment::class)`, keyed by `patient_id` = this patient's id,
   * under the appointment global scopes.
   */
  function Appointments(principal: Option<User>, pt: Patient, apps: seq<Appointment>): (r: seq<Appointment>)
    ensures forall a :: a in r <==> a in apps && AppointmentModel.InScope(principal, a) && a.patientId == Some(pt.id)
  {
    AppointmentModel.Get(principal, Append([], And, (a: Appointment) => a.patientId == Some(pt.id)), apps)
  }

  // ------------------------------------------------------------------ properties

  /** `forUser('and')` on the whole table keeps exactly the scoped patients the principal owns. */
  lemma ForUserAndKeepsOwned(principal: Option<User>, me: Id, store: seq<Patient>)
    ensures Get(principal, ForUser([], me, "and"), store)
         == Filter(Get(principal, [], store), (p: Patient) => p.userId == me)
  {
    FilterFilter(store, (p: Patient) => InScope(principal, p) && Eval([], p), (p: Patient) => p.userId == me,
                 (p: Patient) => InScope(principal, p) && Eval(ForUser([], me, "and"), p));
  }

  /** Applying `forUser('and')` twice keeps the same patients as applying it once. */
  lemma ForUserAndIdempotent(principal: Option<User>, q: PatientQuery, me: Id, store: seq<Patient>)
    ensures Get(principal, ForUser(ForUser(q, me, "and"), me, "and"), store) == Get(principal, ForUser(q, me, "and"), store)
  {
    forall p ensures Eval(ForUser(ForUser(q, me, "and"), me, "and"), p) == Eval(ForUser(q, me, "and"), p) {
    }
    FilterAgree(store,
      (p: Patient) => InScope(principal, p) && Eval(ForUser(ForUser(q, me, "and"), me, "and"), p),
      (p: Patient) => InScope(principal, p) && Eval(ForUser(q, me, "and"), p));
  }

  /** With any type but "and", `forUser` is OR-ed onto a non-empty query. */
  lemma ForUserOrDisjoins(q: PatientQuery, me: Id, kind: string, p: Patient)
    requires kind != "and" && q != []
    ensures Eval(ForUser(q, me, kind), p) == (Eval(q, p) || p.userId == me)
  {
  }
}
