/** `App\Services\DoctorService`: doctors with no live appointment at a given instant. */
module DoctorService {
  import opened Wrappers
  import opened Records
  import opened Services
  import Seqs

  /** One answer row: `users.id, users.name, users.image, doctors.specialty`. */
  datatype DoctorRow = DoctorRow(id: Id, name: string, image: Option<string>, specialty: Option<string>)

  /**
   * An appointment selected by the subquery for doctor `id` at instant `t`: its `doctor_id`
   * is `id`, it starts exactly at `t`, its status is not the literal `cancelled`, and it is
   * not soft-deleted.
   */
  predicate Blocks(a: Appointment, id: Id, t: Instant)
  {
    a.doctorId == Some(id) && a.startDate == Some(t) && a.status != "cancelled" && !Trashed(a.deletedAt)
  }

  /** The ids the `whereNotIn` subquery returns. */
  function BusyIds(apps: seq<Appointment>, t: Instant): (busy: set<Id>)
    ensures forall id :: id in busy <==> exists a :: a in apps && Blocks(a, id, t)
  {
    set a | a in apps && a.doctorId.Some? && Blocks(a, a.doctorId.value, t) :: a.doctorId.value
  }

  /** A user the outer query considers: of type `doctor` and not soft-deleted. */
  predicate Candidate(u: User)
  {
    !Trashed(u.deletedAt) && u.userType == "doctor"
  }

  /** The users the outer query keeps, in store order (no tenant filter, no ordering). */
  function AvailableDoctors(users: seq<User>, apps: seq<Appointment>, t: Instant): (r: seq<User>)
    ensures forall u :: u in r <==> u in users && Candidate(u) && u.id !in BusyIds(apps, t)
  {
    Seqs.Filter(users, (u: User) => Candidate(u) && u.id !in BusyIds(apps, t))
  }

  /** One joined pair as an answer row. */
  function ToRow(x: (User, Option<Doctor>)): DoctorRow
  {
    DoctorRow(x.0.id, x.0.name, x.0.image, if x.1.Some? then x.1.value.specialty else None)
  }

  /** The left join with `doctors`, projected to answer rows. */
  function DoctorRows(available: seq<User>, doctors: seq<Doctor>): seq<DoctorRow>
  {
    var joined := Services.LeftJoin(available, doctors, (d: Doctor) => d.userId);
    seq(|joined|, i requires 0 <= i < |joined| => ToRow(joined[i]))
  }

  /**
   * Every row is the id, name and image of an available user, with the specialty of one of
   * that user's doctor profiles or null; every available user has at least one row.
   */
  lemma {:induction false} RowsComeFromAvailableUsers(available: seq<User>, doctors: seq<Doctor>, row: DoctorRow)
    requires row in DoctorRows(available, doctors)
    ensures exists u :: u in available && row.id == u.id && row.name == u.name && row.image == u.image
    ensures row.specialty.Some? ==> exists d :: d in doctors && d.userId == row.id && d.specialty == row.specialty
  {
    var joined := Services.LeftJoin(available, doctors, (d: Doctor) => d.userId);
    var i :| 0 <= i < |joined| && DoctorRows(available, doctors)[i] == row;
    assert joined[i] in joined;
  }

  lemma {:induction false} AvailableUsersHaveRows(available: seq<User>, doctors: seq<Doctor>, u: User)
    requires u in available
    ensures exists row :: row in DoctorRows(available, doctors) && row.id == u.id
  {
    var joined := Services.LeftJoin(available, doctors, (d: Doctor) => d.userId);
    var x :| x in joined && x.0 == u;
    var i :| 0 <= i < |joined| && joined[i] == x;
    assert DoctorRows(available, doctors)[i] in DoctorRows(available, doctors);
  }

  /** `getAvailableByDate($date)`; the date parser (Carbon) is a parameter. */
  function GetAvailableByDate(parse: string -> Option<Instant>, date: string, users: seq<User>,
                              apps: seq<Appointment>, doctors: seq<Doctor>): (resp: ServiceResponse<seq<DoctorRow>>)
    ensures parse(date).None? ==>
      resp == ServiceResponse(false, "Error al buscar doctores.", None, Some(DateParseError(date)))
    ensures parse(date).Some? ==> resp.success && resp.message == "Busqueda exitosa." && resp.errors.None?
    ensures resp.success <==> resp.data.Some?
  {
    match parse(date)
    case None => ServiceResponse(false, "Error al buscar doctores.", None, Some(DateParseError(date)))
    case Some(t) => ServiceResponse(true, "Busqueda exitosa.", Some(DoctorRows(AvailableDoctors(users, apps, t), doctors)), None)
  }

  // ------------------------------------------------------------------ properties

  /**
   * The answer lists a user id exactly when that user is a live doctor and no live,
   * uncancelled appointment of theirs starts at the requested instant.
   */
  lemma AnswerIsExactlyTheFreeDoctors(parse: string -> Option<Instant>, date: string, users: seq<User>,
                                      apps: seq<Appointment>, doctors: seq<Doctor>, t: Instant, id: Id)
    requires parse(date) == Some(t)
    ensures GetAvailableByDate(parse, date, users, apps, doctors).data.Some?
    ensures (exists row :: row in GetAvailableByDate(parse, date, users, apps, doctors).data.value && row.id == id)
        <==> (exists u :: u in users && u.id == id && Candidate(u)) && !(exists a :: a in apps && Blocks(a, id, t))
  {
    var avail := AvailableDoctors(users, apps, t);
    var rows := DoctorRows(avail, doctors);
    assert GetAvailableByDate(parse, date, users, apps, doctors).data.value == rows;
    if exists row :: row in rows && row.id == id {
      var row :| row in rows && row.id == id;
      RowsComeFromAvailableUsers(avail, doctors, row);
    }
    if (exists u :: u in users && u.id == id && Candidate(u)) && !(exists a :: a in apps && Blocks(a, id, t)) {
      var u :| u in users && u.id == id && Candidate(u);
      AvailableUsersHaveRows(avail, doctors, u);
    }
  }

  lemma NonBlockingAddsNoBusyId(apps: seq<Appointment>, a: Appointment, t: Instant)
    requires forall id :: !Blocks(a, id, t)
    ensures BusyIds(apps + [a], t) == BusyIds(apps, t)
  {
    forall id | id in BusyIds(apps + [a], t)
      ensures id in BusyIds(apps, t)
    {
      var b :| b in apps + [a] && Blocks(b, id, t);
      assert b in apps;
    }
  }

  /** Only an appointment at the very instant asked about matters. */
  lemma OtherInstantsDoNotBlock(users: seq<User>, apps: seq<Appointment>, a: Appointment, t: Instant)
    requires a.startDate != Some(t)
    ensures AvailableDoctors(users, apps + [a], t) == AvailableDoctors(users, apps, t)
  {
    NonBlockingAddsNoBusyId(apps, a, t);
  }

  /** A cancelled (lower-case) or soft-deleted appointment never takes a doctor out of the answer. */
  lemma CancelledOrDeletedDoNotBlock(users: seq<User>, apps: seq<Appointment>, a: Appointment, t: Instant)
    requires a.status == "cancelled" || Trashed(a.deletedAt)
    ensures AvailableDoctors(users, apps + [a], t) == AvailableDoctors(users, apps, t)
  {
    NonBlockingAddsNoBusyId(apps, a, t);
  }

  /**
   * Booking one more appointment removes exactly the doctor it blocks and keeps the rest in
   * order: the answer can only shrink.
   */
  lemma BookingOnlyShrinks(users: seq<User>, apps: seq<Appointment>, a: Appointment, t: Instant)
    ensures AvailableDoctors(users, apps + [a], t)
         == Seqs.Filter(AvailableDoctors(users, apps, t), (u: User) => !Blocks(a, u.id, t))
    ensures forall u :: u in AvailableDoctors(users, apps + [a], t) ==> u in AvailableDoctors(users, apps, t)
  {
    var before := (u: User) => Candidate(u) && u.id !in BusyIds(apps, t);
    var after := (u: User) => Candidate(u) && u.id !in BusyIds(apps + [a], t);
    var extra := (u: User) => !Blocks(a, u.id, t);
    forall u: User ensures after(u) == (before(u) && extra(u)) {
      if Blocks(a, u.id, t) {
        assert a in apps + [a];
      }
      if u.id in BusyIds(apps, t) {
        var b :| b in apps && Blocks(b, u.id, t);
        assert b in apps + [a];
      }
      if u.id in BusyIds(apps + [a], t) && !Blocks(a, u.id, t) {
        var b :| b in apps + [a] && Blocks(b, u.id, t);
        assert b in apps;
      }
    }
    Seqs.FilterFilter(users, before, extra, after);
  }

  /**
   * The subquery compares the status with the lower-case literal `cancelled`, while the
   * appointment factory writes `Cancelled`: such an appointment still keeps its doctor out.
   */
  lemma CapitalisedCancelledStillBlocks(users: seq<User>, apps: seq<Appointment>, a: Appointment, t: Instant, u: User)
    requires a.status == "Cancelled" && a.startDate == Some(t) && a.doctorId == Some(u.id) && a.deletedAt.None?
    ensures u !in AvailableDoctors(users, apps + [a], t)
  {
    assert a in apps + [a] && Blocks(a, u.id, t);
  }

  /**
   * Only `doctor_id` ties an appointment to a doctor; the `assigned_to` column the
   * appointments migration does define never blocks anyone. This holds because the model reads
   * `NOT IN` as plain non-membership: in SQL, an appointment at `t` whose `doctor_id` is null
   * puts a null into the subquery and empties the whole answer.
   */
  lemma AssignedToNeverBlocks(users: seq<User>, apps: seq<Appointment>, a: Appointment, t: Instant)
    requires a.doctorId.None?
    ensures AvailableDoctors(users, apps + [a], t) == AvailableDoctors(users, apps, t)
  {
    NonBlockingAddsNoBusyId(apps, a, t);
  }

  /**
   * Three doctors A, B, C and one live appointment of A at instant 10: at 10 the answer is
   * B and C; at 11 it is all three.
   */
  lemma ThreeDoctorsExample(a: User, b: User, c: User, booking: Appointment)
    requires a.id == "A" && b.id == "B" && c.id == "C"
    requires Candidate(a) && Candidate(b) && Candidate(c)
    requires booking.doctorId == Some("A") && booking.startDate == Some(10)
    requires booking.status == "Not Started" && booking.deletedAt.None?
    ensures AvailableDoctors([a, b, c], [booking], 10) == [b, c]
    ensures AvailableDoctors([a, b, c], [booking], 11) == [a, b, c]
  {
    assert BusyIds([booking], 10) == {"A"} by {
      assert Blocks(booking, "A", 10) && booking in [booking];
    }
    assert BusyIds([booking], 11) == {};
    var free10 := (u: User) => Candidate(u) && u.id !in BusyIds([booking], 10);
    assert Seqs.Filter([c], free10) == [c] + Seqs.Filter([], free10);
    assert Seqs.Filter([b, c], free10) == [b] + Seqs.Filter([c], free10) by { assert [b, c][1..] == [c]; }
    assert Seqs.Filter([a, b, c], free10) == Seqs.Filter([b, c], free10) by { assert [a, b, c][1..] == [b, c]; }
    Seqs.FilterAll([a, b, c], (u: User) => Candidate(u) && u.id !in BusyIds([booking], 11));
  }
}
