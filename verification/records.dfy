/**
 * The stored records the core reads and writes, reduced to the attributes its rules look at,
 * and the two global scopes every Eloquent query on them starts from.
 */
module Records {
  import opened Wrappers

  /** Record keys: Mongo ids, user ids and squad (tenant) uuids are all strings. */
  type Id = string

  /** A point in time, in whole seconds (`toDateTimeString` drops anything finer). */
  type Instant = int

  /** A user of any role; `userType` is the `type` attribute ("doctor", "patient", "admin", ...). */
  datatype User = User(
    id: Id,
    squadId: Id,
    userType: string,
    name: string,
    email: string,
    image: Option<string>,
    password: string,
    rememberToken: Option<string>,
    starredPatients: Option<seq<Id>>,
    starredUsers: Option<seq<Id>>,
    updatedAt: Instant,
    deletedAt: Option<Instant>)

  /**
   * A patient record. `extra` holds every mass-assigned attribute the rules do not look at
   * (the collection is schemaless), `blood_type` among them.
   */
  datatype Patient = Patient(
    id: Id,
    squadId: Id,
    userId: Id,
    name: string,
    address: string,
    extra: map<string, string>,
    updatedAt: Instant,
    deletedAt: Option<Instant>)

  /**
   * An appointment. `patientId`, `doctorId`, `assignedTo`, `startDate`, `name` and
   * `description` may be absent; `team` is the stored list of user ids (empty when null).
   */
  datatype Appointment = Appointment(
    id: Id,
    squadId: Id,
    userId: Id,
    patientId: Option<Id>,
    doctorId: Option<Id>,
    assignedTo: Option<Id>,
    team: seq<Id>,
    isPublic: bool,
    status: string,
    startDate: Option<Instant>,
    name: Option<string>,
    description: Option<string>,
    deletedAt: Option<Instant>)

  /** A doctor profile, joined to its user by `user_id`. */
  datatype Doctor = Doctor(userId: Id, specialty: Option<string>)

  /**
   * The `squad` global scope of Appointment and Patient: with an authenticated principal a
   * record must belong to the principal's squad; with none, nothing is filtered.
   */
  predicate InSquad(principal: Option<User>, squadId: Id)
  {
    principal.None? || principal.value.squadId == squadId
  }

  /** The SoftDeletes global scope keeps the records whose `deleted_at` is null. */
  predicate Trashed(deletedAt: Option<Instant>)
  {
    deletedAt.Some?
  }
}
