/**
 * `SubmissionAttributes`: the data-transfer object for one peer-evaluation
 * submission, in which one reviewer rates one reviewee in one evaluation of
 * one course.
 */
module Datatransfer {
  import opened Wrappers
  import opened Collaborators
  import Invalidity

  /** How Java's string concatenation renders a nullable string. */
  function JavaText(s: Option<string>): (r: string)
    ensures s.Some? ==> r == s.value
    ensures s.None? ==> r == "null"
  {
    match s
    case None => "null"
    case Some(t) => t
  }

  class SubmissionAttributes {
    var course: Option<string>
    var evaluation: Option<string>
    var team: Option<string>
    var reviewer: Option<string>
    var reviewee: Option<string>
    var points: int
    var justification: Text?
    var p2pFeedback: Text?
    var details: SubmissionDetailsBundle

    /** The no-argument constructor: Java defaults and a fresh details bundle. */
    constructor ()
      ensures course == None && evaluation == None && team == None
      ensures reviewer == None && reviewee == None
      ensures points == 0 && justification == null && p2pFeedback == null
      ensures fresh(details)
      ensures details.reviewerName == None && details.revieweeName == None
      ensures details.normalizedToStudent == 0 && details.normalizedToInstructor == 0
    {
      course, evaluation, team := None, None, None;
      reviewer, reviewee := None, None;
      points := 0;
      justification, p2pFeedback := null, null;
      details := new SubmissionDetailsBundle();
    }

    /**
     * Construction from raw fields: titles and names go through the
     * sanitizer. The two text fields are sanitized from their own current
     * value, which is still null, so each becomes `sanitizeTextField(null)`.
     */
    constructor FromFields(sanitizer: Sanitizer, courseId: Option<string>, evalName: Option<string>,
                           teamName: Option<string>, toStudent: Option<string>,
                           fromStudent: Option<string>)
      ensures course == sanitizer.sanitizeTitle(courseId)
      ensures evaluation == sanitizer.sanitizeTitle(evalName)
      ensures team == sanitizer.sanitizeTitle(teamName)
      ensures reviewee == sanitizer.sanitizeName(toStudent)
      ensures reviewer == sanitizer.sanitizeName(fromStudent)
      ensures points == 0
      ensures ContentOf(justification) == sanitizer.sanitizeTextField(NullText)
      ensures ContentOf(p2pFeedback) == sanitizer.sanitizeTextField(NullText)
      ensures justification != null ==> fresh(justification)
      ensures p2pFeedback != null ==> fresh(p2pFeedback) && p2pFeedback != justification
      ensures fresh(details)
      ensures details.reviewerName == None && details.revieweeName == None
      ensures details.normalizedToStudent == 0 && details.normalizedToInstructor == 0
    {
      var sanitized := sanitizer.sanitizeTextField(NullText);
      var j: Text? := null;
      var f: Text? := null;
      if sanitized.TextHolding? {
        j := new Text(sanitized.value);
        f := new Text(sanitized.value);
      }
      course := sanitizer.sanitizeTitle(courseId);
      evaluation := sanitizer.sanitizeTitle(evalName);
      team := sanitizer.sanitizeTitle(teamName);
      reviewee := sanitizer.sanitizeName(toStudent);
      reviewer := sanitizer.sanitizeName(fromStudent);
      points := 0;
      justification := j;
      p2pFeedback := f;
      details := new SubmissionDetailsBundle();
    }

    /**
     * Construction from a persisted entity: the scalar fields are copied
     * verbatim; an absent justification becomes `Text("")` and absent peer
     * feedback `Text("N/A")`; a present one is the entity's own container.
     */
    constructor FromEntity(s: Submission)
      ensures course == s.courseId && evaluation == s.evaluationName && team == s.teamName
      ensures reviewer == s.reviewerEmail && reviewee == s.revieweeEmail
      ensures points == s.points
      ensures s.justification != null ==> justification == s.justification
      ensures s.justification == null ==>
        justification != null && fresh(justification) && justification.value == Some("")
      ensures s.commentsToStudent != null ==> p2pFeedback == s.commentsToStudent
      ensures s.commentsToStudent == null ==>
        p2pFeedback != null && fresh(p2pFeedback) && p2pFeedback.value == Some("N/A")
      ensures fresh(details)
      ensures details.reviewerName == None && details.revieweeName == None
      ensures details.normalizedToStudent == 0 && details.normalizedToInstructor == 0
    {
      var j := s.justification;
      if j == null {
        j := new Text(Some(""));
      }
      var f := s.commentsToStudent;
      if f == null {
        f := new Text(Some("N/A"));
      }
      course := s.courseId;
      evaluation := s.evaluationName;
      reviewer := s.reviewerEmail;
      reviewee := s.revieweeEmail;
      team := s.teamName;
      points := s.points;
      justification := j;
      p2pFeedback := f;
      details := new SubmissionDetailsBundle();
    }

    /** The storage entity built from this object: only the five key fields travel. */
    function ToEntity(): (e: NewSubmission)
      reads this
      ensures e.reviewerEmail == reviewer && e.revieweeEmail == reviewee
      ensures e.courseId == course && e.evaluationName == evaluation && e.teamName == team
    {
      NewSubmission(reviewer, reviewee, course, evaluation, team)
    }

    /**
     * A field-by-field copy. Both text containers of the copy are new,
     * non-null objects holding the original's value (a null value when the
     * original container is null); the details bundle is new as well.
     */
    method GetCopy() returns (c: SubmissionAttributes)
      ensures fresh(c) && fresh(c.details)
      ensures c.course == course && c.evaluation == evaluation && c.team == team
      ensures c.reviewer == reviewer && c.reviewee == reviewee && c.points == points
      ensures c.details.reviewerName == details.reviewerName
      ensures c.details.revieweeName == details.revieweeName
      ensures c.details.normalizedToStudent == details.normalizedToStudent
      ensures c.details.normalizedToInstructor == details.normalizedToInstructor
      ensures c.justification != null && fresh(c.justification)
      ensures c.justification.value == (if justification == null then None else justification.value)
      ensures c.p2pFeedback != null && fresh(c.p2pFeedback) && c.p2pFeedback != c.justification
      ensures c.p2pFeedback.value == (if p2pFeedback == null then None else p2pFeedback.value)
    {
      c := new SubmissionAttributes();
      c.course := course;
      c.evaluation := evaluation;
      c.team := team;
      c.reviewer := reviewer;
      c.details.reviewerName := details.reviewerName;
      c.reviewee := reviewee;
      c.details.revieweeName := details.revieweeName;
      c.points := points;
      c.justification := new Text(if justification == null then None else justification.value);
      c.p2pFeedback := new Text(if p2pFeedback == null then None else p2pFeedback.value);
      c.details.normalizedToStudent := details.normalizedToStudent;
      c.details.normalizedToInstructor := details.normalizedToInstructor;
    }

    /**
     * `reviewee.equals(reviewer)`: true exactly when both are the same
     * string; a null reviewee raises NullPointerException.
     */
    function IsSelfEvaluation(): (r: Result<bool>)
      reads this
      ensures r == Thrown(NullPointerException) <==> reviewee == None
      ensures r == Ok(true) <==> reviewee != None && reviewee == reviewer
      ensures r == Ok(false) <==> reviewee != None && reviewee != reviewer
    {
      match reviewee
      case None => Thrown(NullPointerException)
      case Some(email) => Ok(reviewer == Some(email))
    }

    /**
     * The validation messages. A null justification fails the assertion,
     * a channel separate from the messages; a null peer feedback is allowed.
     * Otherwise exactly the validator's non-empty answers come back, in the
     * order course, evaluation, team, reviewee email, reviewer email.
     */
    method GetInvalidityInfo(validator: Validator) returns (r: Result<seq<string>>)
      ensures justification == null ==> r == Thrown(AssertionError)
      ensures justification != null ==>
        r == Ok(Invalidity.NonEmpty(Invalidity.CheckResults(validator, course, evaluation, team, reviewee, reviewer)))
    {
      if justification == null {
        return Thrown(AssertionError);
      }
      ghost var answers := Invalidity.CheckResults(validator, course, evaluation, team, reviewee, reviewer);
      var errors: seq<string> := [];
      var error: string;
      assert answers[..0] == [];

      error := validator(CourseId, None, course);
      if error != "" { errors := errors + [error]; }
      Invalidity.NonEmptyStep(answers, 0);
      assert errors == Invalidity.NonEmpty(answers[..1]);

      error := validator(EvaluationName, None, evaluation);
      if error != "" { errors := errors + [error]; }
      Invalidity.NonEmptyStep(answers, 1);
      assert errors == Invalidity.NonEmpty(answers[..2]);

      error := validator(TeamName, None, team);
      if error != "" { errors := errors + [error]; }
      Invalidity.NonEmptyStep(answers, 2);
      assert errors == Invalidity.NonEmpty(answers[..3]);

      error := validator(Email, Some(Invalidity.ReceivingLabel), reviewee);
      if error != "" { errors := errors + [error]; }
      Invalidity.NonEmptyStep(answers, 3);
      assert errors == Invalidity.NonEmpty(answers[..4]);

      error := validator(Email, Some(Invalidity.GivingLabel), reviewer);
      if error != "" { errors := errors + [error]; }
      Invalidity.NonEmptyStep(answers, 4);
      assert errors == Invalidity.NonEmpty(answers[..5]);
      assert answers[..5] == answers;

      return Ok(errors);
    }

    /** The logging key `course/evaluation | to: reviewee | from: reviewer`. */
    function GetIdentificationString(): (r: string)
      reads this
      ensures var c, e, to, from := JavaText(course), JavaText(evaluation), JavaText(reviewee), JavaText(reviewer);
        && |r| == |c| + |e| + |to| + |from| + 17
        && r[..|c|] == c && r[|c|] == '/'
        && r[|c| + 1..|c| + 1 + |e|] == e
        && r[|c| + 1 + |e|..|c| + 8 + |e|] == " | to: "
        && r[|c| + 8 + |e|..|r| - |from| - 9] == to
        && r[|r| - |from| - 9..|r| - |from|] == " | from: "
        && r[|r| - |from|..] == from
    {
      var c, e, to, from := JavaText(course), JavaText(evaluation), JavaText(reviewee), JavaText(reviewer);
      var head := c + "/" + e + " | to: ";
      var tail := " | from: " + from;
      var r := head + to + tail;
      assert r[..|head|] == head && r[|r| - |tail|..] == tail;
      assert r[|head|..|r| - |tail|] == to;
      assert head[..|c|] == c && head[|c| + 1..|c| + 1 + |e|] == e;
      assert tail[9..] == from;
      r
    }

    /** The entity-type label used by generic logging. */
    function GetEntityTypeAsString(): (r: string)
      ensures r == "Submission"
    {
      "Submission"
    }
  }

  /**
   * Reading an entity and converting it back keeps the five key fields;
   * points, justification and peer feedback are not carried back.
   */
  method EntityRoundTrip(s: Submission) returns (e: NewSubmission)
    ensures e == NewSubmission(s.reviewerEmail, s.revieweeEmail, s.courseId, s.evaluationName, s.teamName)
  {
    var a := new SubmissionAttributes.FromEntity(s);
    e := a.ToEntity();
  }

  /**
   * A record read from storage always has both text containers, so its
   * validation never takes the assertion channel.
   */
  method ValidateFromEntity(s: Submission, validator: Validator) returns (r: Result<seq<string>>)
    ensures r == Ok(Invalidity.Messages(validator, s.courseId, s.evaluationName, s.teamName,
                                        s.revieweeEmail, s.reviewerEmail))
  {
    var a := new SubmissionAttributes.FromEntity(s);
    r := a.GetInvalidityInfo(validator);
  }

  /**
   * A record built from raw fields can be validated only when the sanitizer
   * turns the null text field into a container; otherwise the assertion fails.
   */
  method ValidateFromFields(sanitizer: Sanitizer, validator: Validator, courseId: Option<string>,
                            evalName: Option<string>, teamName: Option<string>,
                            toStudent: Option<string>, fromStudent: Option<string>)
    returns (r: Result<seq<string>>)
    ensures sanitizer.sanitizeTextField(NullText).NullText? ==> r == Thrown(AssertionError)
    ensures sanitizer.sanitizeTextField(NullText).TextHolding? ==>
      r == Ok(Invalidity.Messages(validator,
        sanitizer.sanitizeTitle(courseId), sanitizer.sanitizeTitle(evalName),
        sanitizer.sanitizeTitle(teamName), sanitizer.sanitizeName(toStudent),
        sanitizer.sanitizeName(fromStudent)))
  {
    var a := new SubmissionAttributes.FromFields(sanitizer, courseId, evalName, teamName, toStudent, fromStudent);
    r := a.GetInvalidityInfo(validator);
  }

  /**
   * Validating a copy never fails the assertion (its justification container
   * is always present), and yields the original's messages whenever the
   * original can be validated at all.
   */
  method ValidateCopy(a: SubmissionAttributes, validator: Validator)
    returns (original: Result<seq<string>>, copied: Result<seq<string>>)
    ensures copied == Ok(Invalidity.Messages(validator, a.course, a.evaluation, a.team, a.reviewee, a.reviewer))
    ensures original.Ok? ==> copied == original
    ensures original.Thrown? <==> a.justification == null
  {
    original := a.GetInvalidityInfo(validator);
    var c := a.GetCopy();
    copied := c.GetInvalidityInfo(validator);
  }

  /** The copy answers the self-evaluation, identification and entity questions as the original does. */
  method CopyKeepsIdentity(a: SubmissionAttributes) returns (c: SubmissionAttributes)
    ensures c != a
    ensures c.IsSelfEvaluation() == a.IsSelfEvaluation()
    ensures c.GetIdentificationString() == a.GetIdentificationString()
    ensures c.ToEntity() == a.ToEntity()
  {
    c := a.GetCopy();
  }

  /**
   * Changing the copy (its fields, its text containers and its details)
   * leaves every field of the original, and the values its containers hold,
   * as they were.
   */
  method MutateCopy(a: SubmissionAttributes, text: Option<string>, name: Option<string>)
    returns (c: SubmissionAttributes)
    ensures c.course == name && c.details.reviewerName == name
    ensures c.justification != null && c.justification.value == text
    ensures c.p2pFeedback != null && c.p2pFeedback.value == text
    ensures a.course == old(a.course) && a.details == old(a.details)
    ensures a.details.reviewerName == old(a.details.reviewerName)
    ensures a.justification == old(a.justification) && a.p2pFeedback == old(a.p2pFeedback)
    ensures a.justification != null ==> a.justification.value == old(a.justification.value)
    ensures a.p2pFeedback != null ==> a.p2pFeedback.value == old(a.p2pFeedback.value)
  {
    c := a.GetCopy();
    c.course := name;
    c.details.reviewerName := name;
    c.justification.value := text;
    c.p2pFeedback.value := text;
  }

  /**
   * Changing the original after copying it (its fields, its text containers
   * and its details) leaves every field of the copy, and the values the
   * copy's containers hold, as they were.
   */
  method MutateOriginal(a: SubmissionAttributes, text: Option<string>, name: Option<string>)
    returns (c: SubmissionAttributes)
    modifies a, a.details, a.justification, a.p2pFeedback
    ensures a.course == name && a.details.reviewerName == name
    ensures a.justification != null ==> a.justification.value == text
    ensures a.p2pFeedback != null ==> a.p2pFeedback.value == text
    ensures c.course == old(a.course) && c.details.reviewerName == old(a.details.reviewerName)
    ensures c.justification != null
    ensures c.justification.value == (if old(a.justification) == null then None else old(a.justification.value))
    ensures c.p2pFeedback != null
    ensures c.p2pFeedback.value == (if old(a.p2pFeedback) == null then None else old(a.p2pFeedback.value))
  {
    c := a.GetCopy();
    a.course := name;
    a.details.reviewerName := name;
    if a.justification != null { a.justification.value := text; }
    if a.p2pFeedback != null { a.p2pFeedback.value := text; }
  }

  /** The identification string of a concrete record. */
  lemma IdentificationExample(a: SubmissionAttributes)
    requires a.course == Some("CS101") && a.evaluation == Some("Midterm")
    requires a.reviewer == Some("a@x.com") && a.reviewee == Some("b@x.com")
    ensures a.GetIdentificationString() == "CS101/Midterm | to: b@x.com | from: a@x.com"
  {
  }
}
