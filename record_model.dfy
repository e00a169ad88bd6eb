/** The `MedicalRecord` collection: the record, the `trim` setters and
    `required` validators of its schema, and the insert. */
module RecordModel {
  import opened Common
  import opened Text

  datatype MedicalRecord = MedicalRecord(
    id: Id,
    patientId: Id,
    doctorId: Id,
    diagnosis: string,
    prescription: string,
    notes: Option<string>,
    visitDate: Date)

  /** The fields handed to `MedicalRecord.create`; `None` is a field left
      undefined, and for `visitDate` also a value `new Date(...)` could not
      read (an invalid date, which the schema's cast refuses). */
  datatype RecordDraft = RecordDraft(
    patientId: Id,
    doctorId: Id,
    diagnosis: Option<string>,
    prescription: Option<string>,
    notes: Option<string>,
    visitDate: Option<Date>)

  /** The `required` validators of `diagnosis` and `prescription`, which see
      the trimmed values, and of `visitDate`. */
  predicate Validates(d: RecordDraft) {
    Present(TrimField(d.diagnosis)) && Present(TrimField(d.prescription)) && d.visitDate.Some?
  }

  /** What the schema guarantees of a stored record: diagnosis and
      prescription present and trimmed, notes trimmed when given. */
  predicate WellFormed(m: MedicalRecord) {
    m.diagnosis != [] && IsTrimmed(m.diagnosis) && m.prescription != [] && IsTrimmed(m.prescription)
    && (m.notes.Some? ==> IsTrimmed(m.notes.value))
  }

  /** The record a validated draft becomes, its text fields trimmed. */
  function NewRecord(id: Id, d: RecordDraft): (r: MedicalRecord)
    requires Validates(d)
    ensures r.id == id && r.patientId == d.patientId && r.doctorId == d.doctorId
    ensures r.visitDate == d.visitDate.value
    ensures r.diagnosis == Trim(d.diagnosis.value) && r.prescription == Trim(d.prescription.value)
    ensures r.notes == TrimField(d.notes)
    ensures WellFormed(r)
  {
    MedicalRecord(id, d.patientId, d.doctorId, Trim(d.diagnosis.value), Trim(d.prescription.value),
                  TrimField(d.notes), d.visitDate.value)
  }

  /** Ids issued in increasing order below `nextId`, every record well formed. */
  ghost predicate Consistent(docs: seq<MedicalRecord>, nextId: Id) {
    && (forall i :: 0 <= i < |docs| ==> WellFormed(docs[i]))
    && (forall i :: 0 <= i < |docs| ==> docs[i].id < nextId)
    && (forall i, j :: 0 <= i < j < |docs| ==> docs[i].id < docs[j].id)
  }

  /** Appending a well-formed record with the next id keeps the store
      consistent. */
  lemma ConsistentAppend(docs: seq<MedicalRecord>, nextId: Id, m: MedicalRecord)
    requires Consistent(docs, nextId)
    requires m.id == nextId && WellFormed(m)
    ensures Consistent(docs + [m], nextId + 1)
  {
    var s := docs + [m];
    assert forall k :: 0 <= k < |docs| ==> s[k] == docs[k];
  }

  /** The in-memory stand-in for the MongoDB `medicalrecords` collection. */
  class RecordStore {
    var docs: seq<MedicalRecord>
    var nextId: Id

    /** Every stored record is well formed, and ids are issued in
        increasing order below `nextId`. */
    ghost predicate Valid()
      reads this
    {
      Consistent(docs, nextId)
    }

    constructor ()
      ensures Valid() && docs == []
    {
      docs := [];
      nextId := 0;
    }

    /** `MedicalRecord.create`: validation, then the insert. */
    method Create(draft: RecordDraft) returns (r: Write<MedicalRecord>)
      requires Valid()
      modifies this
      ensures Valid()
      ensures !Validates(draft) ==> r == Refused(ValidationError) && docs == old(docs) && nextId == old(nextId)
      ensures Validates(draft) ==>
                var rec := NewRecord(old(nextId), draft);
                r == Written(rec) && docs == old(docs) + [rec] && nextId == old(nextId) + 1
    {
      if !Validates(draft) {
        return Refused(ValidationError);
      }
      var rec := NewRecord(nextId, draft);
      ConsistentAppend(docs, nextId, rec);
      docs := docs + [rec];
      nextId := nextId + 1;
      r := Written(rec);
    }
  }
}
