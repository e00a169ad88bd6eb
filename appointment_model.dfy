/** The `Appointment` collection as the controllers use it. Its schema file
    is not part of this model, so three of its facts stay parameters of the
    store: the unique index, as a function `key` from an appointment to the
    value the index compares; the status a new appointment starts in; and
    whatever further validators it has, as a test `accepts` on the fields
    `bookAppointment` hands over. */
module AppointmentModel {
  import opened Common
  import Seqs

  datatype Status = Booked | Cancelled | Completed

  /** The string the API uses for a status. */
  function StatusName(s: Status): string {
    match s
    case Booked => "booked"
    case Cancelled => "cancelled"
    case Completed => "completed"
  }

  /** The membership test `['booked', 'cancelled', 'completed'].includes(status)`:
      only the exact lowercase names are statuses. */
  function ParseStatus(s: string): (r: Option<Status>)
    ensures r.Some? ==> StatusName(r.value) == s
  {
    if s == "booked" then Some(Booked)
    else if s == "cancelled" then Some(Cancelled)
    else if s == "completed" then Some(Completed)
    else None
  }

  /** Every status name is accepted, and read back as that status. */
  lemma ParseStatusName(st: Status)
    ensures ParseStatus(StatusName(st)) == Some(st)
  {
  }

  datatype Appointment = Appointment(
    id: Id,
    patientId: Id,
    doctorId: Id,
    date: Date,
    timeSlot: string,
    status: Status,
    createdAt: Timestamp)

  /** The fields `bookAppointment` hands to `Appointment.create`. `None` is
      a `timeSlot` left undefined, or a `date` that `new Date(...)` could not
      read (an invalid date, which the cast of a date path refuses). */
  datatype AppointmentDraft = AppointmentDraft(
    patientId: Id,
    doctorId: Id,
    date: Option<Date>,
    timeSlot: Option<string>)

  /** The position of the appointment with id `id` (`findById`). */
  function IndexOfAppointment(appts: seq<Appointment>, id: Id): (r: Option<nat>)
    ensures r.Some? ==> r.value < |appts| && appts[r.value].id == id
    ensures r.None? ==> forall k :: 0 <= k < |appts| ==> appts[k].id != id
  {
    Seqs.FindIndex(appts, (a: Appointment) => a.id == id)
  }

  /** Ids are issued in increasing order below `nextId` and no two
      appointments share a key of the unique index. */
  ghost predicate Consistent<K>(appts: seq<Appointment>, nextId: Id, key: Appointment -> K) {
    && (forall i :: 0 <= i < |appts| ==> appts[i].id < nextId)
    && (forall i, j :: 0 <= i < j < |appts| ==> appts[i].id < appts[j].id)
    && (forall i, j :: 0 <= i < j < |appts| ==> key(appts[i]) != key(appts[j]))
  }

  /** The in-memory stand-in for the MongoDB `appointments` collection. */
  class AppointmentStore<K(==)> {
    /** What the unique index compares. */
    const key: Appointment -> K
    /** The schema's default for `status`. */
    const initialStatus: Status
    /** The schema's validators beyond a readable date and a given slot. */
    const accepts: AppointmentDraft -> bool
    var docs: seq<Appointment>
    var nextId: Id

    ghost predicate Valid()
      reads this
    {
      Consistent(docs, nextId, key)
    }

    constructor (key: Appointment -> K, initialStatus: Status, accepts: AppointmentDraft -> bool)
      ensures Valid() && this.key == key && this.initialStatus == initialStatus && this.accepts == accepts
      ensures docs == []
    {
      this.key := key;
      this.initialStatus := initialStatus;
      this.accepts := accepts;
      docs := [];
      nextId := 0;
    }

    /** Some appointment other than the one at position `except` already
        holds the key of `a`. */
    predicate KeyHeld(a: Appointment, except: int)
      reads this
    {
      exists k :: 0 <= k < |docs| && k != except && key(docs[k]) == key(a)
    }

    /** The draft passes validation: the date reads, the slot is given, and
        the remaining validators accept it. */
    predicate Validates(d: AppointmentDraft)
      reads this
    {
      d.date.Some? && d.timeSlot.Some? && accepts(d)
    }

    /** The appointment a validated draft becomes. */
    function NewAppointment(id: Id, d: AppointmentDraft, now: Timestamp): (a: Appointment)
      requires Validates(d)
      reads this
      ensures a.id == id && a.patientId == d.patientId && a.doctorId == d.doctorId
      ensures Some(a.date) == d.date && Some(a.timeSlot) == d.timeSlot
      ensures a.status == initialStatus && a.createdAt == now
    {
      Appointment(id, d.patientId, d.doctorId, d.date.value, d.timeSlot.value, initialStatus, now)
    }

    /** `Appointment.create`: validation, then the insert that the unique
        index may refuse. */
    method Create(draft: AppointmentDraft, now: Timestamp) returns (r: Write<Appointment>)
      requires Valid()
      modifies this
      ensures Valid()
      ensures !Validates(draft) ==>
                r == Refused(ValidationError) && docs == old(docs) && nextId == old(nextId)
      ensures Validates(draft) ==>
                var a := NewAppointment(old(nextId), draft, now);
                if old(KeyHeld(a, -1)) then
                  r == Refused(DuplicateKey) && docs == old(docs) && nextId == old(nextId)
                else
                  r == Written(a) && docs == old(docs) + [a] && nextId == old(nextId) + 1
    {
      if !Validates(draft) {
        return Refused(ValidationError);
      }
      var a := NewAppointment(nextId, draft, now);
      if KeyHeld(a, -1) {
        return Refused(DuplicateKey);
      }
      ghost var before := docs;
      docs := docs + [a];
      nextId := nextId + 1;
      assert forall k :: 0 <= k < |before| ==> docs[k] == before[k];
      r := Written(a);
    }

    /** `appointment.save()` on the appointment at position `i`: the write
        that the unique index may refuse. */
    method Save(i: nat, doc: Appointment) returns (saved: bool)
      requires Valid() && i < |docs| && doc.id == docs[i].id
      modifies this
      ensures Valid() && nextId == old(nextId)
      ensures saved == !old(KeyHeld(doc, i))
      ensures docs == if saved then old(docs)[i := doc] else old(docs)
    {
      saved := !KeyHeld(doc, i);
      if saved {
        docs := docs[i := doc];
      }
    }
  }
}
