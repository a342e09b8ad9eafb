/** The creation dialog (src/components/CapsuleForm.tsx): four text fields,
    the submit handler that validates them and builds a new capsule, and the
    reset on opening or closing the dialog. The clock and the id are
    parameters: `now` for `dayjs()`, `id` for `Date.now().toString()`,
    `createdAt` for `new Date().toISOString()`. */
module Form {
  import opened Types
  import opened Text
  import opened Lifecycle

  const ErrMissingFields: string := "Veuillez remplir tous les champs"
  const ErrPastDate: string := "La date d'ouverture doit être dans le futur"

  /** The first check: title and message not blank once trimmed, date string
      not empty (the date itself is not trimmed). */
  predicate FieldsFilled(title: string, message: string, unlockDate: string) {
    Trim(title) != [] && Trim(message) != [] && unlockDate != []
  }

  /** The second check, `dayjs(unlockDate).isBefore(dayjs())`: strictly
      before, so the present instant itself passes. */
  predicate InPast(selectedAt: Time, now: Time) {
    selectedAt < now
  }

  /** How one submit ends: an error text, or the capsule sent to the parent. */
  datatype Submission = Rejected(error: string) | Created(capsule: Capsule)

  /** The outcome of `handleSubmit` on the given field values. */
  function SubmitOutcome(title: string, message: string, unlockDate: string,
                         parseTime: string -> Time, now: Time,
                         id: string, createdAt: string): Submission
  {
    if !FieldsFilled(title, message, unlockDate) then Rejected(ErrMissingFields)
    else if InPast(parseTime(unlockDate), now) then Rejected(ErrPastDate)
    else Created(Capsule(id, Trim(title), Trim(message), unlockDate, createdAt, false, None, None))
  }

  /** Blank fields are reported first, whatever the date: the date is not
      even looked at. */
  lemma MissingFieldsFirst(title: string, message: string, unlockDate: string,
                           parseTime: string -> Time, now: Time, id: string, createdAt: string)
    requires (forall k :: 0 <= k < |title| ==> IsWhitespace(title[k]))
          || (forall k :: 0 <= k < |message| ==> IsWhitespace(message[k]))
          || unlockDate == []
    ensures SubmitOutcome(title, message, unlockDate, parseTime, now, id, createdAt)
         == Rejected(ErrMissingFields)
  {
    TrimEmptyIff(title);
    TrimEmptyIff(message);
  }

  /** A submit is rejected exactly when a field is blank or the date lies
      strictly before now, and the two errors are told apart. */
  lemma RejectedIff(title: string, message: string, unlockDate: string,
                    parseTime: string -> Time, now: Time, id: string, createdAt: string)
    ensures var r := SubmitOutcome(title, message, unlockDate, parseTime, now, id, createdAt);
      && (r.Rejected? <==> !FieldsFilled(title, message, unlockDate) || parseTime(unlockDate) < now)
      && (r == Rejected(ErrPastDate) <==>
            FieldsFilled(title, message, unlockDate) && parseTime(unlockDate) < now)
  {
    assert ErrMissingFields[0] != ErrPastDate[0];
  }

  /** A successful submit produces a capsule with trimmed, non-blank title and
      message, the date string as typed, `opened` false and no media; since
      its date is not before now, it is still locked at the moment it is
      created. */
  lemma CreatedCapsule(title: string, message: string, unlockDate: string,
                       parseTime: string -> Time, now: Time, id: string, createdAt: string)
    requires FieldsFilled(title, message, unlockDate) && parseTime(unlockDate) >= now
    ensures var r := SubmitOutcome(title, message, unlockDate, parseTime, now, id, createdAt);
      && r.Created?
      && r.capsule.id == id && r.capsule.createdAt == createdAt
      && r.capsule.title == Trim(title) && r.capsule.title != []
      && !IsWhitespace(r.capsule.title[0]) && !IsWhitespace(r.capsule.title[|r.capsule.title| - 1])
      && r.capsule.message == Trim(message) && r.capsule.message != []
      && r.capsule.unlockDate == unlockDate
      && !r.capsule.isOpened
      && r.capsule.mediaType == None && r.capsule.mediaPath == None
      && !IsUnlockable(parseTime(r.capsule.unlockDate), now)
  {
    var c := Capsule(id, Trim(title), Trim(message), unlockDate, createdAt, false, None, None);
    assert SubmitOutcome(title, message, unlockDate, parseTime, now, id, createdAt) == Created(c);
  }

  /** The dialog's state. */
  class CapsuleForm {
    var title: string
    var message: string
    var unlockDate: string
    var formError: string

    constructor ()
      ensures title == "" && message == "" && unlockDate == "" && formError == ""
    {
      title, message, unlockDate, formError := "", "", "", "";
    }

    /** `handleSubmit`: on a blank field set the fields error, else on a past
        date set the date error, and in both cases change nothing else and
        send nothing; otherwise send exactly one new capsule and clear all
        four fields. */
    method HandleSubmit(parseTime: string -> Time, now: Time, id: string, createdAt: string)
      returns (sent: Option<Capsule>)
      modifies this
      ensures match SubmitOutcome(old(title), old(message), old(unlockDate), parseTime, now, id, createdAt)
        case Rejected(e) =>
          && sent == None && formError == e
          && title == old(title) && message == old(message) && unlockDate == old(unlockDate)
        case Created(c) =>
          && sent == Some(c)
          && title == "" && message == "" && unlockDate == "" && formError == ""
    {
      ghost var outcome := SubmitOutcome(title, message, unlockDate, parseTime, now, id, createdAt);
      if !FieldsFilled(title, message, unlockDate) {
        assert outcome == Rejected(ErrMissingFields);
        formError := ErrMissingFields;
        return None;
      }

      var selectedDate := parseTime(unlockDate);
      if InPast(selectedDate, now) {
        assert outcome == Rejected(ErrPastDate);
        formError := ErrPastDate;
        return None;
      }

      var newCapsule := Capsule(id, Trim(title), Trim(message), unlockDate, createdAt, false, None, None);
      assert outcome == Created(newCapsule);
      sent := Some(newCapsule);

      title := "";
      message := "";
      unlockDate := "";
      formError := "";
    }

    /** `onOpenChange`: opening or closing the dialog clears every field and
        the error. */
    method OnOpenChange()
      modifies this
      ensures title == "" && message == "" && unlockDate == "" && formError == ""
    {
      formError := "";
      title := "";
      message := "";
      unlockDate := "";
    }
  }
}
