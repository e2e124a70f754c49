/**
 * `App\Services\PatientService`: the patient availability query (as written and as intended)
 * and the record changes `store`, `update` and `destroy` make before they broadcast.
 */
module PatientService {
  import opened Wrappers
  import opened Records
  import opened Services
  import Seqs
  import PatientModel

  // ------------------------------------------------------------------ availability

  /** One answer row: `users.id, users.name, users.image, patients.blood_type`. */
  datatype PatientRow = PatientRow(id: Id, name: string, image: Option<string>, bloodType: Option<string>)

  /**
   * An appointment the availability subquery selects for patient user `id` at `t`: its
   * `patient_id` is `id`, it starts at `t`, and its status is not the literal `cancelled`.
   * Unlike the doctor query there is no `deleted_at` test.
   */
  predicate Blocks(a: Appointment, id: Id, t: Instant)
  {
    a.patientId == Some(id) && a.startDate == Some(t) && a.status != "cancelled"
  }

  function BusyIds(apps: seq<Appointment>, t: Instant): (busy: set<Id>)
    ensures forall id :: id in busy <==> exists a :: a in apps && Blocks(a, id, t)
  {
    set a | a in apps && a.patientId.Some? && Blocks(a, a.patientId.value, t) :: a.patientId.value
  }

  /** A user the outer query considers: of type `patient` and not soft-deleted. */
  predicate Candidate(u: User)
  {
    !Trashed(u.deletedAt) && u.userType == "patient"
  }

  function AvailablePatients(users: seq<User>, apps: seq<Appointment>, t: Instant): (r: seq<User>)
    ensures forall u :: u in r <==> u in users && Candidate(u) && u.id !in BusyIds(apps, t)
  {
    Seqs.Filter(users, (u: User) => Candidate(u) && u.id !in BusyIds(apps, t))
  }

  /** The `blood_type` attribute of a patient profile, if set. */
  function BloodType(p: Patient): Option<string>
  {
    if "blood_type" in p.extra then Some(p.extra["blood_type"]) else None
  }

  function ToRow(x: (User, Option<Patient>)): PatientRow
  {
    PatientRow(x.0.id, x.0.name, x.0.image, if x.1.Some? then BloodType(x.1.value) else None)
  }

  /** The left join with `patients` on `user_id` (a raw join: trashed profiles join too). */
  function PatientRows(available: seq<User>, patients: seq<Patient>): seq<PatientRow>
  {
    var joined := Services.LeftJoin(available, patients, (p: Patient) => p.userId);
    seq(|joined|, i requires 0 <= i < |joined| => ToRow(joined[i]))
  }

  /**
   * `getAvailableByDate($date)` as it was evidently meant to run: the doctor query's shape on
   * patients, with the message `Error al buscar pacientes.` on a date that does not parse.
   */
  function GetAvailableByDate(parse: string -> Option<Instant>, date: string, users: seq<User>,
                              apps: seq<Appointment>, patients: seq<Patient>): (resp: ServiceResponse<seq<PatientRow>>)
    ensures parse(date).None? ==>
      resp == ServiceResponse(false, "Error al buscar pacientes.", None, Some(DateParseError(date)))
    ensures parse(date).Some? ==> resp.success && resp.message == "Busqueda exitosa." && resp.errors.None?
    ensures resp.success <==> resp.data.Some?
  {
    match parse(date)
    case None => ServiceResponse(false, "Error al buscar pacientes.", None, Some(DateParseError(date)))
    case Some(t) => ServiceResponse(true, "Busqueda exitosa.", Some(PatientRows(AvailablePatients(users, apps, t), patients)), None)
  }

  /**
   * `getAvailableByDate($date)` as written. The `$userModel` property is never declared or
   * assigned (the constructor is commented out), so reading it raises an "Undefined property"
   * error before any query is built; a date that does not parse fails earlier. Either failure lands in the catch block, which builds a
   * `ServiceResponse` whose class is not imported into `App\Services` and so does not exist:
   * that error escapes.
   */
  function GetAvailableByDateAsWritten(parse: string -> Option<Instant>, date: string): (res: Invocation<ServiceResponse<seq<PatientRow>>>)
    ensures res.Crashed?
  {
    var caught := if parse(date).None? then "date does not parse" else "Undefined property: PatientService::$userModel";
    Crashed("Class \"App\\Services\\ServiceResponse\" not found, while handling: " + caught)
  }

  lemma {:induction false} RowsComeFromAvailableUsers(available: seq<User>, patients: seq<Patient>, row: PatientRow)
    requires row in PatientRows(available, patients)
    ensures exists u :: u in available && row.id == u.id && row.name == u.name && row.image == u.image
    ensures row.bloodType.Some? ==> exists p :: p in patients && p.userId == row.id && BloodType(p) == row.bloodType
  {
    var joined := Services.LeftJoin(available, patients, (p: Patient) => p.userId);
    var i :| 0 <= i < |joined| && PatientRows(available, patients)[i] == row;
    assert joined[i] in joined;
  }

  lemma {:induction false} AvailableUsersHaveRows(available: seq<User>, patients: seq<Patient>, u: User)
    requires u in available
    ensures exists row :: row in PatientRows(available, patients) && row.id == u.id
  {
    var joined := Services.LeftJoin(available, patients, (p: Patient) => p.userId);
    var x :| x in joined && x.0 == u;
    var i :| 0 <= i < |joined| && joined[i] == x;
    assert PatientRows(available, patients)[i] in PatientRows(available, patients);
  }

  /** The intended answer lists exactly the live patient users with no uncancelled appointment at `t`. */
  lemma AnswerIsExactlyTheFreePatients(parse: string -> Option<Instant>, date: string, users: seq<User>,
                                       apps: seq<Appointment>, patients: seq<Patient>, t: Instant, id: Id)
    requires parse(date) == Some(t)
    ensures GetAvailableByDate(parse, date, users, apps, patients).data.Some?
    ensures (exists row :: row in GetAvailableByDate(parse, date, users, apps, patients).data.value && row.id == id)
        <==> (exists u :: u in users && u.id == id && Candidate(u)) && !(exists a :: a in apps && Blocks(a, id, t))
  {
    var avail := AvailablePatients(users, apps, t);
    var rows := PatientRows(avail, patients);
    assert GetAvailableByDate(parse, date, users, apps, patients).data.value == rows;
    if exists row :: row in rows && row.id == id {
      var row :| row in rows && row.id == id;
      RowsComeFromAvailableUsers(avail, patients, row);
    }
    if (exists u :: u in users && u.id == id && Candidate(u)) && !(exists a :: a in apps && Blocks(a, id, t)) {
      var u :| u in users && u.id == id && Candidate(u);
      AvailableUsersHaveRows(avail, patients, u);
    }
  }

  /** Without a `deleted_at` test, a soft-deleted appointment still keeps its patient out. */
  lemma DeletedAppointmentStillBlocksPatient(users: seq<User>, apps: seq<Appointment>, a: Appointment, t: Instant, u: User)
    requires Trashed(a.deletedAt) && a.status != "cancelled" && a.startDate == Some(t) && a.patientId == Some(u.id)
    ensures u !in AvailablePatients(users, apps + [a], t)
  {
    assert a in apps + [a] && Blocks(a, u.id, t);
  }

  /**
   * As written the method never returns a response, even for a date that parses, where the
   * intended query answers successfully.
   */
  lemma AsWrittenNeverAnswers(parse: string -> Option<Instant>, date: string, users: seq<User>,
                              apps: seq<Appointment>, patients: seq<Patient>)
    requires parse(date).Some?
    ensures GetAvailableByDateAsWritten(parse, date).Crashed?
    ensures GetAvailableByDate(parse, date, users, apps, patients).success
  {
  }

  // ------------------------------------------------------------------ record changes

  /** The attributes stored in the patient record's own fields; `_id` is guarded. */
  const Columns: set<string> := {"_id", "name", "address", "user_id", "squad_id"}

  /** Reads attribute `k` of a patient (`$patient->k`); `None` when it is not set. */
  function Attribute(p: Patient, k: string): Option<string>
  {
    if k == "_id" then Some(p.id)
    else if k == "name" then Some(p.name)
    else if k == "address" then Some(p.address)
    else if k == "user_id" then Some(p.userId)
    else if k == "squad_id" then Some(p.squadId)
    else if k in p.extra then Some(p.extra[k])
    else None
  }

  /** `fill($attributes)`: every attribute but the guarded `_id` is assigned. */
  function Fill(p: Patient, m: map<string, string>): Patient
  {
    p.(name := if "name" in m then m["name"] else p.name,
       address := if "address" in m then m["address"] else p.address,
       userId := if "user_id" in m then m["user_id"] else p.userId,
       squadId := if "squad_id" in m then m["squad_id"] else p.squadId,
       extra := p.extra + map k | k in m && k !in Columns :: m[k])
  }

  /** `Patient::create($validated)` with a fresh key and the current time. */
  function CreatePatient(id: Id, validated: map<string, string>, now: Instant): (p: Patient)
    requires {"name", "address", "user_id", "squad_id"} <= validated.Keys
    ensures p.id == id && p.updatedAt == now && p.deletedAt.None?
    ensures forall k :: k in validated && k != "_id" ==> Attribute(p, k) == Some(validated[k])
    ensures forall k :: k !in validated && k !in Columns ==> Attribute(p, k).None?
  {
    Fill(Patient(id, "", "", "", "", map[], now, None), validated)
  }

  /** `$patient->update($validated)`: fill, then save; `updated_at` moves only if something changed. */
  function UpdatePatient(p: Patient, validated: map<string, string>, now: Instant): Patient
  {
    var filled := Fill(p, validated);
    if filled == p then p else filled.(updatedAt := now)
  }

  /** `$patient->delete()` with SoftDeletes: `deleted_at` and `updated_at` become now. */
  function SoftDeletePatient(p: Patient, now: Instant): (r: Patient)
    ensures Trashed(r.deletedAt)
    ensures forall k :: Attribute(r, k) == Attribute(p, k)
  {
    p.(deletedAt := Some(now), updatedAt := now)
  }

  /**
   * An update reads back: each given attribute (but `_id`) now has the given value, every
   * other attribute is unchanged, and the key and the deletion mark are untouched.
   */
  lemma UpdateReadsBack(p: Patient, validated: map<string, string>, now: Instant)
    ensures forall k :: k in validated && k != "_id" ==> Attribute(UpdatePatient(p, validated, now), k) == Some(validated[k])
    ensures forall k :: k !in validated || k == "_id" ==> Attribute(UpdatePatient(p, validated, now), k) == Attribute(p, k)
    ensures UpdatePatient(p, validated, now).id == p.id
    ensures UpdatePatient(p, validated, now).deletedAt == p.deletedAt
  {
  }

  /** `updated_at` moves exactly when the update changed some attribute. */
  lemma UpdateTouchesOnlyWhenDirty(p: Patient, validated: map<string, string>, now: Instant)
    requires now != p.updatedAt
    ensures UpdatePatient(p, validated, now).updatedAt == now
        <==> exists k :: k in validated && k != "_id" && Attribute(p, k) != Some(validated[k])
  {
    var filled := Fill(p, validated);
    if filled != p {
      if forall k :: k in validated && k != "_id" ==> Attribute(p, k) == Some(validated[k]) {
        assert false;
      }
    } else {
      forall k | k in validated && k != "_id"
        ensures Attribute(p, k) == Some(validated[k])
      {
        assert Attribute(filled, k) == Some(validated[k]);
      }
    }
  }

  /** Sending the same update twice changes nothing the second time, not even `updated_at`. */
  lemma RepeatedUpdateIsNoOp(p: Patient, validated: map<string, string>, now: Instant, later: Instant)
    ensures UpdatePatient(UpdatePatient(p, validated, now), validated, later) == UpdatePatient(p, validated, now)
  {
    var filled := Fill(p, validated);
    var once := UpdatePatient(p, validated, now);
    var given := map k | k in validated && k !in Columns :: validated[k];
    assert (p.extra + given) + given == p.extra + given;
    assert Fill(filled, validated) == filled;
    assert Fill(once, validated) == once;
  }

  /** A soft-deleted patient leaves every default patient query and stays visible `withTrashed`. */
  lemma DestroyedPatientOnlyWithTrashed(principal: Option<User>, p: Patient, now: Instant)
    ensures !PatientModel.InScope(principal, SoftDeletePatient(p, now))
    ensures InSquad(principal, SoftDeletePatient(p, now).squadId) == InSquad(principal, p.squadId)
  {
  }
}
