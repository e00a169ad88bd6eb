/** The two handlers of `recordController.js`: a doctor writes a record
    for a patient, and a patient reads their own records. */
module RecordController {
  import opened Common
  import opened Seqs
  import opened UserModel
  import opened RecordModel

  /** `User.findById(patientId)` finds an account whose role is `patient`. */
  predicate IsPatientId(users: seq<User>, patientId: Option<Id>) {
    patientId.Some? &&
    match FindUser(users, patientId.value)
    case None => false
    case Some(u) => u.role == Patient
  }

  /** The draft `createRecord` hands to `MedicalRecord.create`: the request's
      fields, with the doctor taken from the caller. */
  function RecordFor(caller: Caller, patientId: Id, diagnosis: Option<string>, prescription: Option<string>,
                     notes: Option<string>, visitDate: Option<Date>): (d: RecordDraft)
    ensures d.doctorId == caller.id && d.patientId == patientId
    ensures d.diagnosis == diagnosis && d.prescription == prescription
    ensures d.notes == notes && d.visitDate == visitDate
  {
    RecordDraft(patientId, caller.id, diagnosis, prescription, notes, visitDate)
  }

  /** `createRecord`: 400 unless the patient id names a patient account;
      then the insert, whose validation failure answers 500. On success the
      one new record carries the request's patient, diagnosis, prescription,
      notes and visit date, and the caller as its doctor. */
  method CreateRecord(users: UserStore, records: RecordStore, caller: Caller, patientId: Option<Id>,
                      diagnosis: Option<string>, prescription: Option<string>,
                      notes: Option<string>, visitDate: Option<Date>)
    returns (r: Result<MedicalRecord>)
    requires caller.role == Doctor
    requires records.Valid()
    modifies records
    ensures records.Valid()
    ensures !IsPatientId(users.docs, patientId) ==>
              r == Err(BadRequest(InvalidPatientId))
              && records.docs == old(records.docs) && records.nextId == old(records.nextId)
    ensures IsPatientId(users.docs, patientId) ==>
              var d := RecordFor(caller, patientId.value, diagnosis, prescription, notes, visitDate);
              if !RecordModel.Validates(d) then
                r == Err(ServerError) && records.docs == old(records.docs) && records.nextId == old(records.nextId)
              else
                r == Ok(NewRecord(old(records.nextId), d))
                && records.docs == old(records.docs) + [r.value] && records.nextId == old(records.nextId) + 1
    ensures r.Ok? ==> r.value.doctorId == caller.id && Some(r.value.patientId) == patientId
  {
    if !IsPatientId(users.docs, patientId) {
      return Err(BadRequest(InvalidPatientId));
    }
    var doctorId := caller.id;
    var created := records.Create(RecordDraft(patientId.value, doctorId, diagnosis, prescription, notes, visitDate));
    match created
    case Written(record) =>
      r := Ok(record);
    case Refused(_) =>
      r := Err(ServerError);
  }

  /** The query `{ patientId: caller }`. */
  function OwnedBy(patientId: Id): MedicalRecord -> bool {
    (m: MedicalRecord) => m.patientId == patientId
  }

  function VisitDate(m: MedicalRecord): int {
    m.visitDate
  }

  /** `getPatientRecords`: exactly the caller's records, each as often as it
      is stored, latest visit first. */
  function GetPatientRecords(caller: Caller, records: seq<MedicalRecord>): (r: seq<MedicalRecord>)
    requires caller.role == Patient
    ensures forall m :: m in r <==> m in records && m.patientId == caller.id
    ensures multiset(r) == multiset(Filter(records, OwnedBy(caller.id)))
    ensures DescendingBy(r, VisitDate)
  {
    var own := Filter(records, OwnedBy(caller.id));
    var r := SortDesc(own, VisitDate);
    assert forall m :: m in r <==> m in own by {
      forall m ensures m in r <==> m in own {
        SortedMembers(own, VisitDate, m);
      }
    }
    r
  }

  /** Another patient's new record never shows in the caller's list. */
  lemma OthersRecordsHidden(caller: Caller, records: seq<MedicalRecord>, m: MedicalRecord)
    requires caller.role == Patient && m.patientId != caller.id
    ensures multiset(GetPatientRecords(caller, records + [m])) == multiset(GetPatientRecords(caller, records))
  {
    FilterAppend(records, [m], OwnedBy(caller.id));
  }
}
