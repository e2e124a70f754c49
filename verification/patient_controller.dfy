/**
 * `App\Http\Controllers\PatientController`: what each action reads or hands on, and how the
 * request, service and model pieces compose.
 */
module PatientController {
  import opened Wrappers
  import opened Records
  import opened Query
  import opened Services
  import Seqs
  import AppointmentModel
  import PatientModel
  import PatientService
  import PatientRequests

  /** The two patient lists `index` renders. */
  datatype IndexPage = IndexPage(myPatients: seq<Patient>, patients: seq<Patient>)

  /** `index`: `Patient::forUser('and')->get()` and `Patient::get()`. */
  function Index(principal: User, store: seq<Patient>): (page: IndexPage)
    ensures page.myPatients == Seqs.Filter(page.patients, (p: Patient) => p.userId == principal.id)
    ensures forall p :: p in page.patients <==> p in store && PatientModel.InScope(Some(principal), p)
  {
    PatientModel.ForUserAndKeepsOwned(Some(principal), principal.id, store);
    IndexPage(PatientModel.Get(Some(principal), PatientModel.ForUser([], principal.id, "and"), store),
              PatientModel.Get(Some(principal), [], store))
  }

  /**
   * Implicit route binding of `{patient}`: the first stored patient with that key that the
   * global scopes let through, or nothing (a 404).
   */
  function BindPatient(principal: User, id: Id, store: seq<Patient>): (r: Option<Patient>)
    ensures r.Some? ==> r.value in store && r.value.id == id && PatientModel.InScope(Some(principal), r.value)
    ensures r.None? <==> forall p :: p in store && p.id == id ==> !PatientModel.InScope(Some(principal), p)
  {
    var found := PatientModel.Get(Some(principal), Append([], And, (p: Patient) => p.id == id), store);
    if found == [] then None
    else
      assert found[0] in found;
      Some(found[0])
  }

  // ------------------------------------------------------------------ show

  /**
   * The query `show` runs to eager-load `appointments`: the relation's `patient_id` constraint,
   * then the closure's `forUser()` and `public('or')`.
   */
  function ShowQuery(pt: Patient, me: Id): AppointmentModel.AppointmentQuery
  {
    AppointmentModel.Public(AppointmentModel.ForUser(Append([], And, (a: Appointment) => a.patientId == Some(pt.id)), me), "or")
  }

  /**
   * With AND binding tighter than OR, the loaded query reads
   * `(patient_id = pt and related to me) or public`.
   */
  lemma ShowQueryPrecedence(pt: Patient, me: Id, a: Appointment)
    ensures Eval(ShowQuery(pt, me), a) == ((a.patientId == Some(pt.id) && AppointmentModel.RelatedTo(me, a)) || a.isPublic)
  {
  }

  /** The appointments the eager-load query fetches. */
  function ShowFetched(principal: User, pt: Patient, apps: seq<Appointment>): seq<Appointment>
  {
    AppointmentModel.Get(Some(principal), ShowQuery(pt, principal.id), apps)
  }

  /**
   * The appointments attached to the shown patient: the fetched ones are matched back to the
   * patient by `patient_id`.
   */
  function ShowAppointments(principal: User, pt: Patient, apps: seq<Appointment>): (r: seq<Appointment>)
    ensures forall a :: a in r <==>
      a in apps && a.patientId == Some(pt.id) && AppointmentModel.InScope(Some(principal), a)
      && (AppointmentModel.RelatedTo(principal.id, a) || a.isPublic)
  {
    Seqs.Filter(ShowFetched(principal, pt, apps), (a: Appointment) => a.patientId == Some(pt.id))
  }

  /**
   * A public appointment of another patient is fetched by the query, yet it is not attached
   * to the shown patient.
   */
  lemma OtherPatientsPublicAppointmentsFetchedNotShown(principal: User, pt: Patient, apps: seq<Appointment>, a: Appointment)
    requires a in apps && a.isPublic && AppointmentModel.InScope(Some(principal), a) && a.patientId != Some(pt.id)
    ensures a in ShowFetched(principal, pt, apps)
    ensures a !in ShowAppointments(principal, pt, apps)
  {
  }

  /**
   * The patient page is not restricted to the patient's creator: any principal of the squad
   * who can bind the patient sees all its public appointments.
   */
  lemma PublicAppointmentsShownToWholeSquad(principal: User, pt: Patient, apps: seq<Appointment>, a: Appointment)
    requires a in apps && a.isPublic && a.patientId == Some(pt.id)
    requires a.squadId == principal.squadId && a.deletedAt.None?
    ensures a in ShowAppointments(principal, pt, apps)
  {
  }

  // ------------------------------------------------------------------ getAvailableByDate

  /** The JSON body: the service's errors on failure, its data otherwise. */
  datatype AvailabilityJson = ErrorsJson(errors: Option<ServiceError>) | DataJson(rows: Option<seq<PatientService.PatientRow>>)

  /**
   * `getAvailableByDate` as written: `$this->patientService` is never declared or assigned,
   * so reading it raises an "Undefined property" error before the service is reached.
   */
  function GetAvailableByDateAsWritten(date: string): (res: Invocation<AvailabilityJson>)
    ensures res.Crashed?
  {
    Crashed("Undefined property: PatientController::$patientService")
  }

  /** `getAvailableByDate` with the service resolved: errors when it failed, data when it succeeded. */
  function GetAvailableByDate(parse: string -> Option<Instant>, date: string, users: seq<User>,
                              apps: seq<Appointment>, patients: seq<Patient>): (body: AvailabilityJson)
    ensures parse(date).None? ==> body == ErrorsJson(Some(DateParseError(date)))
    ensures parse(date).Some? ==> body.DataJson? && body.rows.Some?
  {
    var resp := PatientService.GetAvailableByDate(parse, date, users, apps, patients);
    if !resp.success then ErrorsJson(resp.errors) else DataJson(resp.data)
  }

  /**
   * For a date that parses, the corrected action answers with exactly the free patient
   * users, where the action as written answers nothing.
   */
  lemma AvailabilityAnswersFreePatients(parse: string -> Option<Instant>, date: string, users: seq<User>,
                                        apps: seq<Appointment>, patients: seq<Patient>, t: Instant, id: Id)
    requires parse(date) == Some(t)
    ensures GetAvailableByDateAsWritten(date).Crashed?
    ensures GetAvailableByDate(parse, date, users, apps, patients).DataJson?
    ensures GetAvailableByDate(parse, date, users, apps, patients).rows.Some?
    ensures (exists row :: row in GetAvailableByDate(parse, date, users, apps, patients).rows.value && row.id == id)
        <==> (exists u :: u in users && u.id == id && PatientService.Candidate(u))
             && !(exists a :: a in apps && PatientService.Blocks(a, id, t))
  {
    PatientService.AnswerIsExactlyTheFreePatients(parse, date, users, apps, patients, t, id);
  }

  // ------------------------------------------------------------------ store / update / destroy

  /**
   * `store`: a validated store request creates a patient owned by the principal, in the
   * principal's squad, and visible to the principal (so the update rule lets them edit it).
   */
  lemma StoredPatientBelongsToCreator(input: PatientRequests.Input, principal: User, id: Id, now: Instant)
    requires PatientRequests.Validate(PatientRequests.StoreRules, PatientRequests.Merge(input, principal)).Ok?
    ensures var v := PatientRequests.Validate(PatientRequests.StoreRules, PatientRequests.Merge(input, principal)).value;
      && {"name", "address", "user_id", "squad_id"} <= v.Keys
      && var p := PatientService.CreatePatient(id, v, now);
      && p.userId == principal.id && p.squadId == principal.squadId
      && PatientModel.InScope(Some(principal), p)
  {
    PatientRequests.StoreValidatedOwnership(input, principal);
    var v := PatientRequests.Validate(PatientRequests.StoreRules, PatientRequests.Merge(input, principal)).value;
    var p := PatientService.CreatePatient(id, v, now);
    assert PatientService.Attribute(p, "user_id") == Some(v["user_id"]);
    assert PatientService.Attribute(p, "squad_id") == Some(v["squad_id"]);
  }

  /** The creator of a stored patient passes `UpdatePatientRequest::authorize` for it. */
  lemma CreatorPassesUpdateAuthorization(input: PatientRequests.Input, principal: User, id: Id, now: Instant,
                                         req: PatientRequests.UpdatePatientRequest)
    requires PatientRequests.Validate(PatientRequests.StoreRules, PatientRequests.Merge(input, principal)).Ok?
    requires {"name", "address", "user_id", "squad_id"} <= PatientRequests.Validate(PatientRequests.StoreRules, PatientRequests.Merge(input, principal)).value.Keys
    requires req.principal == principal
    requires req.patient == PatientService.CreatePatient(id, PatientRequests.Validate(PatientRequests.StoreRules, PatientRequests.Merge(input, principal)).value, now)
    ensures req.Authorize()
  {
    StoredPatientBelongsToCreator(input, principal, id, now);
  }

  /**
   * `update`: a validated update changes the name and address to the values sent and never
   * the owner or the squad.
   */
  lemma UpdateKeepsOwnerAndSquad(input: PatientRequests.Input, principal: User, p: Patient, now: Instant)
    requires PatientRequests.Validate(PatientRequests.UpdateRules, PatientRequests.Merge(input, principal)).Ok?
    ensures var v := PatientRequests.Validate(PatientRequests.UpdateRules, PatientRequests.Merge(input, principal)).value;
      var q := PatientService.UpdatePatient(p, v, now);
      && "name" in input && "address" in input
      && q.name == input["name"] && q.address == input["address"]
      && q.userId == p.userId && q.squadId == p.squadId && q.id == p.id
  {
    PatientRequests.UpdateValidatedKeys(input, principal);
    var v := PatientRequests.Validate(PatientRequests.UpdateRules, PatientRequests.Merge(input, principal)).value;
    PatientService.UpdateReadsBack(p, v, now);
    var q := PatientService.UpdatePatient(p, v, now);
    assert PatientService.Attribute(q, "name") == Some(v["name"]);
    assert PatientService.Attribute(q, "address") == Some(v["address"]);
    assert PatientService.Attribute(q, "user_id") == PatientService.Attribute(p, "user_id");
    assert PatientService.Attribute(q, "squad_id") == PatientService.Attribute(p, "squad_id");
  }

  /**
   * `destroy` checks nothing beyond route binding: any principal of the patient's squad
   * binds a live patient, whoever created it.
   */
  lemma DestroyReachableBySquad(principal: User, id: Id, store: seq<Patient>, p: Patient)
    requires p in store && p.id == id && p.squadId == principal.squadId && p.deletedAt.None?
    ensures BindPatient(principal, id, store).Some?
  {
  }
}
