/**
 * The stored collections and the operations that change them in place: deleting a user
 * (with its `deleting` hook) and the patient service's `store`, `update` and `destroy`,
 * each of which broadcasts one `PatientEvent` after its change.
 */
module RecordStore {
  import opened Wrappers
  import opened Records
  import opened PatientEvents
  import AppointmentModel
  import UserModel
  import PatientService

  /** No two stored patients share a key. */
  predicate UniquePatientIds(patients: seq<Patient>)
  {
    forall i, j :: 0 <= i < j < |patients| ==> patients[i].id != patients[j].id
  }

  class Store {
    var users: seq<User>
    var patients: seq<Patient>
    var appointments: seq<Appointment>
    /** The events broadcast so far, oldest first. */
    var outbox: seq<PatientEvent>

    predicate Valid()
      reads this
    {
      UniquePatientIds(patients)
    }

    constructor(users: seq<User>, patients: seq<Patient>, appointments: seq<Appointment>)
      requires UniquePatientIds(patients)
      ensures Valid()
      ensures this.users == users && this.patients == patients && this.appointments == appointments
      ensures outbox == []
    {
      this.users := users;
      this.patients := patients;
      this.appointments := appointments;
      outbox := [];
    }

    /**
     * `$user->delete()`: the `deleting` hook soft-deletes every appointment of the user's
     * `appointments` relation, then the user is soft-deleted.
     */
    method DeleteUser(principal: Option<User>, k: nat, now: Instant)
      requires Valid()
      requires k < |users|
      modifies this
      ensures Valid()
      ensures appointments == UserModel.Cascade(principal, old(users)[k], old(appointments), now)
      ensures users == old(users)[k := old(users)[k].(deletedAt := Some(now), updatedAt := now)]
      ensures patients == old(patients) && outbox == old(outbox)
    {
      var u := users[k];
      var i := 0;
      while i < |appointments|
        invariant 0 <= i <= |appointments| == |old(appointments)|
        invariant forall j :: 0 <= j < i ==> appointments[j] == UserModel.CascadeOne(principal, u, old(appointments)[j], now)
        invariant forall j :: i <= j < |appointments| ==> appointments[j] == old(appointments)[j]
        invariant users == old(users) && patients == old(patients) && outbox == old(outbox)
      {
        var a := appointments[i];
        if AppointmentModel.InScope(principal, a) && UserModel.KeyMatches(u, a) {
          appointments := appointments[i := a.(deletedAt := Some(now))];
        }
        i := i + 1;
      }
      users := users[k := u.(deletedAt := Some(now), updatedAt := now)];
    }

    /** `PatientService::store`: create the patient, then broadcast `create` on its squad. */
    method StorePatient(validated: map<string, string>, id: Id, now: Instant) returns (p: Patient)
      requires Valid()
      requires {"name", "address", "user_id", "squad_id"} <= validated.Keys
      requires forall q :: q in patients ==> q.id != id
      modifies this
      ensures Valid()
      ensures p == PatientService.CreatePatient(id, validated, now)
      ensures patients == old(patients) + [p]
      ensures outbox == old(outbox) + [NewPatientEvent(p.squadId, p, "create")]
      ensures users == old(users) && appointments == old(appointments)
    {
      p := PatientService.CreatePatient(id, validated, now);
      patients := patients + [p];
      outbox := outbox + [NewPatientEvent(p.squadId, p, "create")];
    }

    /**
     * `PatientService::update`: update the patient, then broadcast `update` with its new state.
     * Ids are unique, so the row at `k` is the only stored record the update by `_id` touches.
     */
    method UpdatePatient(k: nat, validated: map<string, string>, now: Instant)
      requires Valid()
      requires k < |patients|
      modifies this
      ensures Valid()
      ensures patients == old(patients)[k := PatientService.UpdatePatient(old(patients)[k], validated, now)]
      ensures forall j :: 0 <= j < |patients| ==> (old(patients)[j].id == old(patients)[k].id <==> j == k)
      ensures outbox == old(outbox) + [NewPatientEvent(patients[k].squadId, patients[k], "update")]
      ensures users == old(users) && appointments == old(appointments)
    {
      var p := PatientService.UpdatePatient(patients[k], validated, now);
      patients := patients[k := p];
      outbox := outbox + [NewPatientEvent(p.squadId, p, "update")];
    }

    /**
     * `PatientService::destroy`: read the squad, soft-delete the patient, then broadcast
     * `delete` carrying the patient as deleted. As for the update, `k` is the only row with
     * that `_id`.
     */
    method DestroyPatient(k: nat, now: Instant)
      requires Valid()
      requires k < |patients|
      modifies this
      ensures Valid()
      ensures patients == old(patients)[k := PatientService.SoftDeletePatient(old(patients)[k], now)]
      ensures forall j :: 0 <= j < |patients| ==> (old(patients)[j].id == old(patients)[k].id <==> j == k)
      ensures outbox == old(outbox) + [NewPatientEvent(old(patients)[k].squadId, patients[k], "delete")]
      ensures users == old(users) && appointments == old(appointments)
    {
      var squadId := patients[k].squadId;
      patients := patients[k := PatientService.SoftDeletePatient(patients[k], now)];
      outbox := outbox + [NewPatientEvent(squadId, patients[k], "delete")];
    }
  }
}
