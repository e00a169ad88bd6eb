/** The five handlers of `appointmentController.js`: the doctor list, the
    free slots of a doctor's day, booking, the caller's appointments, and
    the doctor's status update. The caller is the identity the
    authentication middleware resolved; the route gates are in
    `AppointmentRoutes`. `mailDelivered` stands for the outcome of the
    `sendEmail` call the handler awaits. */
module AppointmentController {
  import opened Common
  import opened Seqs
  import opened SlotGrid
  import opened UserModel
  import opened AppointmentModel

  // ---------------------------------------------------------------- getDoctors

  /** The projection `select('name email specialization')` (with `_id`). */
  datatype DoctorSummary = DoctorSummary(id: Id, name: string, email: string, specialization: Option<string>)

  function Summary(u: User): DoctorSummary {
    DoctorSummary(u.id, u.name, u.email, u.specialization)
  }

  /** The query `{ role: 'doctor', isActive: true }`. */
  predicate ListedDoctor(u: User) {
    u.role == Doctor && u.isActive
  }

  /** `getDoctors`: exactly the active doctors, projected, one entry per
      listed account, in the order of the collection (the order `Filter`
      keeps). */
  function GetDoctors(users: seq<User>): (r: seq<DoctorSummary>)
    ensures |r| <= |users|
    ensures var listed := Filter(users, ListedDoctor);
            |r| == |listed| && forall i :: 0 <= i < |r| ==> r[i] == Summary(listed[i])
    ensures forall v :: v in r <==> exists u :: u in users && ListedDoctor(u) && v == Summary(u)
  {
    var listed := Filter(users, ListedDoctor);
    var r := seq(|listed|, i requires 0 <= i < |listed| => Summary(listed[i]));
    assert forall v :: v in r ==> exists u :: u in listed && v == Summary(u) by {
      forall v | v in r ensures exists u :: u in listed && v == Summary(u) {
        var i :| 0 <= i < |r| && r[i] == v;
        assert listed[i] in listed;
      }
    }
    assert forall u :: u in listed ==> Summary(u) in r by {
      forall u | u in listed ensures Summary(u) in r {
        var i :| 0 <= i < |listed| && listed[i] == u;
        assert r[i] == Summary(u);
      }
    }
    r
  }

  // --------------------------------------------------------- getAvailableSlots

  /** Appointment `a` takes its slot out of `doctorId`'s day `date`: the query
      `{ doctorId, date, status: { $ne: 'cancelled' } }`. */
  predicate HoldsSlot(a: Appointment, doctorId: Id, date: Date) {
    a.doctorId == doctorId && a.date == date && a.status != Cancelled
  }

  /** `.distinct('timeSlot')` of that query. */
  function BookedSlots(appts: seq<Appointment>, doctorId: Id, date: Date): (booked: set<string>)
    ensures forall s :: s in booked <==> exists a :: a in appts && HoldsSlot(a, doctorId, date) && a.timeSlot == s
  {
    set a | a in appts && HoldsSlot(a, doctorId, date) :: a.timeSlot
  }

  /** The test a grid label must pass to be offered. */
  function Unbooked(booked: set<string>): string -> bool {
    (slot: string) => slot !in booked
  }

  /** The grid without the labels in `booked`, compared as plain strings. */
  function FreeSlots(booked: set<string>): (r: seq<string>)
    ensures forall s :: s in r <==> s in Grid() && s !in booked
    ensures Ordered(r, StartsBefore)
  {
    GridShape();
    FilterKeepsOrder(Grid(), Unbooked(booked), StartsBefore);
    Filter(Grid(), Unbooked(booked))
  }

  /** The answer of `getAvailableSlots` for a doctor and a date: a label is
      offered exactly when it is in the grid and no appointment of that
      doctor on that date that is not cancelled holds it; the labels come
      in grid order, that is in increasing order of time. */
  function AvailableSlots(appts: seq<Appointment>, doctorId: Id, date: Date): (r: seq<string>)
    ensures forall s :: s in r <==>
              s in Grid() && !exists a :: a in appts && HoldsSlot(a, doctorId, date) && a.timeSlot == s
    ensures Ordered(r, StartsBefore)
    ensures forall i, j :: 0 <= i < j < |r| ==> r[i] != r[j]
  {
    var r := FreeSlots(BookedSlots(appts, doctorId, date));
    assert forall i, j :: 0 <= i < j < |r| ==> StartsBefore(r[i], r[j]);
    r
  }

  /** `getAvailableSlots`: 400 without a doctor or a date, and otherwise the
      free labels, computed by building the grid and filtering it. */
  method GetAvailableSlots<K>(appts: AppointmentStore<K>, doctorId: Option<Id>, date: Option<Date>)
    returns (r: Result<seq<string>>)
    ensures doctorId.None? || date.None? ==> r == Err(BadRequest(MissingDoctorOrDate))
    ensures doctorId.Some? && date.Some? ==> r == Ok(AvailableSlots(appts.docs, doctorId.value, date.value))
  {
    if doctorId.None? || date.None? {
      return Err(BadRequest(MissingDoctorOrDate));
    }
    var bookedSlots := BookedSlots(appts.docs, doctorId.value, date.value);
    var allSlots := BuildGrid();
    r := Ok(Filter(allSlots, (slot: string) => slot !in bookedSlots));
  }

  /** An appointment that is cancelled, or for another doctor or another
      day, never takes a slot away. */
  lemma NonHolderIgnored(appts: seq<Appointment>, a: Appointment, doctorId: Id, date: Date)
    requires !HoldsSlot(a, doctorId, date)
    ensures AvailableSlots(appts + [a], doctorId, date) == AvailableSlots(appts, doctorId, date)
  {
    assert BookedSlots(appts + [a], doctorId, date) == BookedSlots(appts, doctorId, date);
  }

  /** A doctor's day without active appointments offers the whole grid. */
  lemma FreeDayOffersGrid(appts: seq<Appointment>, doctorId: Id, date: Date)
    requires forall a :: a in appts ==> !HoldsSlot(a, doctorId, date)
    ensures AvailableSlots(appts, doctorId, date) == Grid()
  {
    var booked := BookedSlots(appts, doctorId, date);
    assert booked == {};
    FilterAll(Grid(), Unbooked(booked));
  }

  /** The test that keeps every label but `x`. */
  function Other(x: string): string -> bool {
    (s: string) => s != x
  }

  /** Filtering out one more label is filtering the previous result. */
  lemma {:induction false} UnbookedAdd(g: seq<string>, booked: set<string>, x: string)
    ensures Filter(g, Unbooked(booked + {x})) == Filter(Filter(g, Unbooked(booked)), Other(x))
  {
    forall y | y in g ensures Unbooked(booked + {x})(y) == (Unbooked(booked)(y) && Other(x)(y)) {
    }
    FilterTwice(g, Unbooked(booked), Other(x), Unbooked(booked + {x}));
  }

  /** Booking one more label removes that label, and only that label. */
  lemma {:induction false} FreeSlotsAdd(booked: set<string>, x: string)
    ensures FreeSlots(booked + {x}) == Filter(FreeSlots(booked), Other(x))
  {
    UnbookedAdd(Grid(), booked, x);
  }

  /** A new active appointment removes its own label, and only that label,
      from its doctor's day. */
  lemma BookingTakesSlot(appts: seq<Appointment>, a: Appointment)
    requires a.status != Cancelled
    ensures AvailableSlots(appts + [a], a.doctorId, a.date)
            == Filter(AvailableSlots(appts, a.doctorId, a.date), Other(a.timeSlot))
  {
    var booked := BookedSlots(appts, a.doctorId, a.date);
    assert BookedSlots(appts + [a], a.doctorId, a.date) == booked + {a.timeSlot};
    FreeSlotsAdd(booked, a.timeSlot);
  }

  /** Cancelling the only active appointment on a label frees the label. */
  lemma CancelFreesSlot(appts: seq<Appointment>, i: nat)
    requires i < |appts| && appts[i].status != Cancelled && appts[i].timeSlot in Grid()
    requires forall k :: 0 <= k < |appts| && k != i && HoldsSlot(appts[k], appts[i].doctorId, appts[i].date)
               ==> appts[k].timeSlot != appts[i].timeSlot
    ensures var a := appts[i];
            a.timeSlot !in AvailableSlots(appts, a.doctorId, a.date)
            && a.timeSlot in AvailableSlots(appts[i := a.(status := Cancelled)], a.doctorId, a.date)
  {
    var a := appts[i];
    var after := appts[i := a.(status := Cancelled)];
    assert appts[i] in appts;
    forall b | b in after && HoldsSlot(b, a.doctorId, a.date) ensures b.timeSlot != a.timeSlot {
      var k :| 0 <= k < |after| && after[k] == b;
    }
  }

  /** The grid without its first label is its last fifteen labels. */
  lemma GridWithoutFirst()
    ensures Filter(Grid(), Other("9:00-9:30")) == Grid()[1..]
    ensures |Grid()[1..]| == 15
  {
    GridShape();
    FilterDropsHead(Grid(), Other("9:00-9:30"));
  }

  /** Spelled out for the first slot: on a free day, booking "9:00-9:30"
      leaves the other fifteen labels, in order. */
  lemma BookFirstSlotOfFreeDay(appts: seq<Appointment>, a: Appointment)
    requires forall b :: b in appts ==> !HoldsSlot(b, a.doctorId, a.date)
    requires a.status != Cancelled && a.timeSlot == "9:00-9:30"
    ensures AvailableSlots(appts + [a], a.doctorId, a.date) == Grid()[1..]
    ensures |AvailableSlots(appts + [a], a.doctorId, a.date)| == 15
  {
    FreeDayOffersGrid(appts, a.doctorId, a.date);
    BookingTakesSlot(appts, a);
    GridWithoutFirst();
  }

  // ----------------------------------------------------------- bookAppointment

  /** `User.findById(doctorId)` finds an account whose role is `doctor`
      (whether it is active is not looked at). */
  predicate IsDoctorId(users: seq<User>, doctorId: Option<Id>) {
    doctorId.Some? &&
    match FindUser(users, doctorId.value)
    case None => false
    case Some(u) => u.role == Doctor
  }

  /** `bookAppointment`: the doctor check, then the insert with the caller as
      patient (neither the grid nor the free slots are consulted; only
      validation and the unique index can refuse), then the confirmation
      mail, whose failure answers 500 although the appointment stays stored.
      A refused validation is not error 11000, so it answers 500. */
  method BookAppointment<K>(users: UserStore, appts: AppointmentStore<K>, caller: Caller,
                            doctorId: Option<Id>, date: Option<Date>, timeSlot: Option<string>,
                            now: Timestamp, mailDelivered: bool)
    returns (r: Result<Appointment>)
    requires appts.Valid()
    modifies appts
    ensures appts.Valid()
    ensures !IsDoctorId(users.docs, doctorId) ==>
              r == Err(BadRequest(InvalidDoctorId))
              && appts.docs == old(appts.docs) && appts.nextId == old(appts.nextId)
    ensures IsDoctorId(users.docs, doctorId) ==>
              var d := AppointmentDraft(caller.id, doctorId.value, date, timeSlot);
              if !appts.Validates(d) then
                r == Err(ServerError)
                && appts.docs == old(appts.docs) && appts.nextId == old(appts.nextId)
              else
                var a := appts.NewAppointment(old(appts.nextId), d, now);
                if old(appts.KeyHeld(a, -1)) then
                  r == Err(BadRequest(SlotAlreadyBooked))
                  && appts.docs == old(appts.docs) && appts.nextId == old(appts.nextId)
                else
                  appts.docs == old(appts.docs) + [a] && appts.nextId == old(appts.nextId) + 1
                  && r == if mailDelivered then Ok(a) else Err(ServerError)
    ensures r.Ok? ==> r.value.patientId == caller.id && Some(r.value.doctorId) == doctorId
                      && Some(r.value.date) == date && Some(r.value.timeSlot) == timeSlot
  {
    if !IsDoctorId(users.docs, doctorId) {
      return Err(BadRequest(InvalidDoctorId));
    }
    var patientId := caller.id;
    var created := appts.Create(AppointmentDraft(patientId, doctorId.value, date, timeSlot), now);
    match created
    case Refused(DuplicateKey) =>
      r := Err(BadRequest(SlotAlreadyBooked));
    case Refused(ValidationError) =>
      r := Err(ServerError);
    case Written(a) =>
      r := if mailDelivered then Ok(a) else Err(ServerError);
  }

  // ----------------------------------------------------------- getAppointments

  /** The `filter` object the handler builds; `None` is a key left unset. */
  datatype QueryFilter = QueryFilter(patientId: Option<Id>, doctorId: Option<Id>)

  predicate Matches(f: QueryFilter, a: Appointment) {
    (f.patientId.Some? ==> a.patientId == f.patientId.value)
    && (f.doctorId.Some? ==> a.doctorId == f.doctorId.value)
  }

  /** Which appointments a caller is shown: a patient their own bookings, a
      doctor the bookings with them, anyone else every booking. */
  predicate VisibleTo(caller: Caller, a: Appointment) {
    match caller.role
    case Patient => a.patientId == caller.id
    case Doctor => a.doctorId == caller.id
    case Admin => true
  }

  function CreatedAt(a: Appointment): int {
    a.createdAt
  }

  /** `getAppointments`: the appointments visible to the caller, each as
      often as it is stored, newest first. */
  method GetAppointments<K>(appts: AppointmentStore<K>, caller: Caller) returns (r: seq<Appointment>)
    ensures forall a :: a in r <==> a in appts.docs && VisibleTo(caller, a)
    ensures multiset(r) == multiset(Filter(appts.docs, (a: Appointment) => VisibleTo(caller, a)))
    ensures DescendingBy(r, CreatedAt)
  {
    var filter := QueryFilter(None, None);
    if caller.role == Patient {
      filter := filter.(patientId := Some(caller.id));
    } else if caller.role == Doctor {
      filter := filter.(doctorId := Some(caller.id));
    }
    var matching := Filter(appts.docs, (a: Appointment) => Matches(filter, a));
    FilterSame(appts.docs, (a: Appointment) => Matches(filter, a), (a: Appointment) => VisibleTo(caller, a));
    r := SortDesc(matching, CreatedAt);
    forall a ensures a in r <==> a in matching {
      SortedMembers(matching, CreatedAt, a);
    }
  }

  // --------------------------------------------------- updateAppointmentStatus

  /** `updateAppointmentStatus`: 400 for a status outside the three names
      (whether or not the id exists), then 404 for an unknown id, then 403
      unless the caller is a doctor and the appointment's doctor; only then
      is the new status assigned, whatever the current one, and saved. A save
      the unique index refuses answers 500. After a save to `completed` the
      patient is looked up and mailed; a missing patient or a failed mail
      answers 500 although the new status stays stored. */
  method UpdateAppointmentStatus<K>(users: UserStore, appts: AppointmentStore<K>, caller: Caller,
                                    id: Id, status: string, mailDelivered: bool)
    returns (r: Result<Appointment>)
    requires appts.Valid()
    modifies appts
    ensures appts.Valid() && appts.nextId == old(appts.nextId)
    ensures ParseStatus(status).None? ==>
              r == Err(BadRequest(InvalidStatus)) && appts.docs == old(appts.docs)
    ensures ParseStatus(status).Some? && IndexOfAppointment(old(appts.docs), id).None? ==>
              r == Err(NotFound) && appts.docs == old(appts.docs)
    ensures ParseStatus(status).Some? && IndexOfAppointment(old(appts.docs), id).Some? ==>
              var i := IndexOfAppointment(old(appts.docs), id).value;
              var a := old(appts.docs)[i];
              if caller.role != Doctor || a.doctorId != caller.id then
                r == Err(NotAuthorized) && appts.docs == old(appts.docs)
              else
                var updated := a.(status := ParseStatus(status).value);
                if old(appts.KeyHeld(updated, i)) then
                  r == Err(ServerError) && appts.docs == old(appts.docs)
                else
                  appts.docs == old(appts.docs)[i := updated]
                  && r == if updated.status == Completed && (FindUser(users.docs, a.patientId).None? || !mailDelivered)
                          then Err(ServerError) else Ok(updated)
  {
    if ParseStatus(status).None? {
      return Err(BadRequest(InvalidStatus));
    }
    var found := IndexOfAppointment(appts.docs, id);
    if found.None? {
      return Err(NotFound);
    }
    var i := found.value;
    var appointment := appts.docs[i];
    if caller.role != Doctor || appointment.doctorId != caller.id {
      return Err(NotAuthorized);
    }
    appointment := appointment.(status := ParseStatus(status).value);
    var saved := appts.Save(i, appointment);
    if !saved {
      return Err(ServerError);
    }
    if appointment.status == Completed {
      var patient := FindUser(users.docs, appointment.patientId);
      if patient.None? || !mailDelivered {
        return Err(ServerError);
      }
    }
    r := Ok(appointment);
  }
}
