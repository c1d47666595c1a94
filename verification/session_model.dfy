/**
 The `Session` document schema (models/session.js): which fields a stored
 practice session has, the defaults the document layer fills in, the
 validators that can reject a document, and the pre-save hook that stamps
 `updatedAt`.
 */
module SessionModel {
  import opened Wrappers
  import opened Crypto

  /** Who a record belongs to: an account, or nobody (a guest session). */
  datatype Owner = User(id: UserId) | Guest

  /** A stored session. `landmarks` is the serialised landmark text, or absent. */
  datatype SessionRecord = SessionRecord(
    owner: Owner,
    poseName: string,
    accuracy: int,
    feedback: string,
    landmarks: Option<string>,
    duration: int,
    date: Time,
    createdAt: Time,
    updatedAt: Time)

  /** The schema's invariant on a stored record: a non-empty pose name and an accuracy in [0, 100]. */
  predicate WellFormed(r: SessionRecord) {
    r.poseName != "" && 0 <= r.accuracy <= 100
  }

  predicate AllWellFormed(log: seq<SessionRecord>) {
    forall k :: 0 <= k < |log| ==> WellFormed(log[k])
  }

  /**
   A document as handed to `Session.create`: every field but the owner may be
   left undefined (`None`), in which case the schema default applies.
   */
  datatype SessionDoc = SessionDoc(
    owner: Owner,
    poseName: Option<string>,
    accuracy: Option<int>,
    feedback: Option<string>,
    landmarks: Option<string>,
    duration: Option<int>,
    date: Option<Time>)

  /** The validator failures the schema can report. */
  datatype SchemaError = PoseNameRequired | AccuracyRequired | AccuracyBelowMin | AccuracyAboveMax

  const DefaultPoseName: string := "General Pose"

  /** Every validator failure of a document; validation passes when the set is empty. */
  function Errors(doc: SessionDoc): (errs: set<SchemaError>)
    ensures PoseNameRequired in errs <==> doc.poseName == Some("")
    ensures AccuracyRequired in errs <==> doc.accuracy.None?
    ensures AccuracyBelowMin in errs <==> doc.accuracy.Some? && doc.accuracy.value < 0
    ensures AccuracyAboveMax in errs <==> doc.accuracy.Some? && doc.accuracy.value > 100
  {
    (if doc.poseName == Some("") then {PoseNameRequired} else {})
    + (match doc.accuracy
       case None => {AccuracyRequired}
       case Some(a) =>
         (if a < 0 then {AccuracyBelowMin} else {})
         + (if a > 100 then {AccuracyAboveMax} else {}))
  }

  /**
   The pre-save hook: stamp `updatedAt` with the save time; every other field
   is left as it was.
   */
  function PreSave(r: SessionRecord, now: Time): (r': SessionRecord)
    ensures r'.updatedAt == now
    ensures r'.(updatedAt := r.updatedAt) == r
  {
    r.(updatedAt := now)
  }

  /**
   `Session.create(doc)` at time `now`: apply the defaults (`'General Pose'`,
   `''`, `0`, and `now` for the three dates), validate, and run the pre-save
   hook. A document with any validator failure is rejected and nothing is
   stored.
   */
  function Create(doc: SessionDoc, now: Time): (r: Result<SessionRecord, set<SchemaError>>)
    ensures r.Failure? <==> Errors(doc) != {}
    ensures r.Failure? ==> r.error == Errors(doc)
    ensures r.Success? ==> WellFormed(r.value)
    ensures r.Success? ==> r.value.owner == doc.owner && r.value.landmarks == doc.landmarks
    ensures r.Success? ==> r.value.accuracy == doc.accuracy.value
    ensures r.Success? ==> r.value.poseName == doc.poseName.GetOr(DefaultPoseName)
    ensures r.Success? ==> r.value.feedback == doc.feedback.GetOr("")
    ensures r.Success? ==> r.value.duration == doc.duration.GetOr(0)
    ensures r.Success? ==> r.value.date == doc.date.GetOr(now)
    ensures r.Success? ==> r.value.createdAt == now && r.value.updatedAt == now
  {
    var errs := Errors(doc);
    if errs != {} then Failure(errs)
    else
      var filled := SessionRecord(
        doc.owner, doc.poseName.GetOr(DefaultPoseName), doc.accuracy.value,
        doc.feedback.GetOr(""), doc.landmarks, doc.duration.GetOr(0),
        doc.date.GetOr(now), now, now);
      Success(PreSave(filled, now))
  }

  /** The document that spells out every field of a record. */
  function DocOf(r: SessionRecord): (doc: SessionDoc)
    ensures doc.owner == r.owner && doc.landmarks == r.landmarks
    ensures doc.accuracy == Some(r.accuracy) && doc.poseName == Some(r.poseName)
  {
    SessionDoc(r.owner, Some(r.poseName), Some(r.accuracy), Some(r.feedback),
               r.landmarks, Some(r.duration), Some(r.date))
  }

  /** The schema accepts exactly the documents whose filled-in record keeps the invariant. */
  lemma CreateAcceptsExactlyWellFormed(doc: SessionDoc, now: Time)
    ensures Create(doc, now).Success?
        <==> doc.accuracy.Some? && 0 <= doc.accuracy.value <= 100 && doc.poseName != Some("")
  {
  }

  /**
   Storing a well-formed record's own fields gives that record back, with
   only the two timestamps the document layer owns replaced by the save time.
   */
  lemma CreateRoundTrip(r: SessionRecord, now: Time)
    requires WellFormed(r)
    ensures Create(DocOf(r), now) == Success(r.(createdAt := now, updatedAt := now))
  {
  }

  /** A guest record is exactly one created without an owner. */
  lemma GuestIffNoOwner(doc: SessionDoc, now: Time)
    requires Create(doc, now).Success?
    ensures Create(doc, now).value.owner.Guest? <==> doc.owner == Guest
  {
  }

  /** Saving twice is the same as saving once at the later time. */
  lemma PreSaveLastWins(r: SessionRecord, t1: Time, t2: Time)
    ensures PreSave(PreSave(r, t1), t2) == PreSave(r, t2)
    ensures WellFormed(PreSave(r, t1)) <==> WellFormed(r)
  {
  }
}
