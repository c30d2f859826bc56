/**
 * The collaborators of SubmissionAttributes whose code is not part of this
 * model: the field validator, the sanitizer, the datastore's `Text` container,
 * the details bundle and the storage `Submission` entity. Only their shape is
 * modelled; validator and sanitizer are uninterpreted function values.
 */
module Collaborators {
  import opened Wrappers

  /** The kinds of field the validator knows about (the ones used here). */
  datatype FieldType = CourseId | EvaluationName | TeamName | Email

  /**
   * `FieldValidator.getInvalidityInfo`: field kind, optional role label (the
   * three-argument overload passes one) and the value to check. It answers
   * `""` when the value is valid, and an error message otherwise.
   */
  type Validator = (FieldType, Option<string>, Option<string>) -> string

  /** The abstract content of a nullable `Text` reference. */
  datatype TextState = NullText | TextHolding(value: Option<string>)

  /** The datastore's long-text container, holding a nullable string. */
  class Text {
    var value: Option<string>

    constructor (value: Option<string>)
      ensures this.value == value
    {
      this.value := value;
    }
  }

  /** What a nullable `Text` reference currently holds. */
  function ContentOf(t: Text?): (s: TextState)
    reads t
    ensures s.NullText? <==> t == null
    ensures t != null ==> s.value == t.value
  {
    if t == null then NullText else TextHolding(t.value)
  }

  /** `Sanitizer`: the three transforms SubmissionAttributes calls. */
  datatype Sanitizer = Sanitizer(
    sanitizeTitle: Option<string> -> Option<string>,
    sanitizeName: Option<string> -> Option<string>,
    sanitizeTextField: TextState -> TextState)

  /** `SubmissionDetailsBundle`: display names and normalized points. */
  class SubmissionDetailsBundle {
    var reviewerName: Option<string>
    var revieweeName: Option<string>
    var normalizedToStudent: int
    var normalizedToInstructor: int

    /** Every field keeps its Java default: null names and zero points. */
    constructor ()
      ensures reviewerName == None && revieweeName == None
      ensures normalizedToStudent == 0 && normalizedToInstructor == 0
    {
      reviewerName, revieweeName := None, None;
      normalizedToStudent, normalizedToInstructor := 0, 0;
    }
  }

  /** A persisted `Submission` entity, as seen through its accessors. */
  datatype Submission = Submission(
    courseId: Option<string>,
    evaluationName: Option<string>,
    reviewerEmail: Option<string>,
    revieweeEmail: Option<string>,
    teamName: Option<string>,
    points: int,
    justification: Text?,
    commentsToStudent: Text?)

  /** The five arguments of `new Submission(reviewer, reviewee, course, evaluation, team)`. */
  datatype NewSubmission = NewSubmission(
    reviewerEmail: Option<string>,
    revieweeEmail: Option<string>,
    courseId: Option<string>,
    evaluationName: Option<string>,
    teamName: Option<string>)
}
