/**
 * The specification of `SubmissionAttributes.getInvalidityInfo`: which
 * validator questions it asks, in which order, and how the answers become the
 * returned list of messages.
 */
module Invalidity {
  import opened Wrappers
  import opened Collaborators

  /** Role label passed when checking the reviewee's email. */
  const ReceivingLabel := "email address for the student receiving the evaluation"
  /** Role label passed when checking the reviewer's email. */
  const GivingLabel := "email address for the student giving the evaluation"

  /**
   * The validator's five answers, in the order they are asked: course,
   * evaluation, team, reviewee email, reviewer email. The element-wise
   * clauses below document that order and the role labels for callers.
   */
  function CheckResults(v: Validator, course: Option<string>, evaluation: Option<string>,
                        team: Option<string>, reviewee: Option<string>,
                        reviewer: Option<string>): (answers: seq<string>)
    ensures |answers| == 5
    ensures answers[0] == v(CourseId, None, course)
    ensures answers[1] == v(EvaluationName, None, evaluation)
    ensures answers[2] == v(TeamName, None, team)
    ensures answers[3] == v(Email, Some(ReceivingLabel), reviewee)
    ensures answers[4] == v(Email, Some(GivingLabel), reviewer)
  {
    [v(CourseId, None, course), v(EvaluationName, None, evaluation), v(TeamName, None, team),
     v(Email, Some(ReceivingLabel), reviewee), v(Email, Some(GivingLabel), reviewer)]
  }

  /** The answers that are error messages (not `""`), in their original order. */
  function NonEmpty(answers: seq<string>): (errors: seq<string>)
    ensures |errors| <= |answers|
    ensures forall i :: 0 <= i < |errors| ==> errors[i] != ""
  {
    if answers == [] then []
    else if answers[0] == "" then NonEmpty(answers[1..])
    else [answers[0]] + NonEmpty(answers[1..])
  }

  /** Filtering distributes over concatenation: earlier answers come first. */
  lemma {:induction false} NonEmptyAppend(a: seq<string>, b: seq<string>)
    ensures NonEmpty(a + b) == NonEmpty(a) + NonEmpty(b)
  {
    if a == [] {
      assert a + b == b;
    } else {
      assert (a + b)[1..] == a[1..] + b;
      NonEmptyAppend(a[1..], b);
    }
  }

  /** Asking one more question adds its answer to the messages when it is not `""`. */
  lemma NonEmptyStep(answers: seq<string>, k: nat)
    requires k < |answers|
    ensures NonEmpty(answers[..k + 1]) ==
      NonEmpty(answers[..k]) + (if answers[k] == "" then [] else [answers[k]])
  {
    assert answers[..k + 1] == answers[..k] + [answers[k]];
    NonEmptyAppend(answers[..k], [answers[k]]);
    assert [answers[k]][1..] == [];
  }

  /** A message is reported exactly when some answer is that non-empty message. */
  lemma {:induction false} NonEmptyMembers(answers: seq<string>, m: string)
    ensures m in NonEmpty(answers) <==> m in answers && m != ""
  {
    if answers != [] {
      NonEmptyMembers(answers[1..], m);
      assert answers == [answers[0]] + answers[1..];
    }
  }

  /** Nothing is reported exactly when every answer is `""`. */
  lemma {:induction false} NonEmptyIsEmpty(answers: seq<string>)
    ensures NonEmpty(answers) == [] <==> forall i :: 0 <= i < |answers| ==> answers[i] == ""
  {
    if answers != [] {
      NonEmptyIsEmpty(answers[1..]);
      assert forall i :: 1 <= i < |answers| ==> answers[i] == answers[1..][i - 1];
    }
  }

  /** When every answer is a message, all of them are reported, in order. */
  lemma {:induction false} NonEmptyKeepsAll(answers: seq<string>)
    requires forall i :: 0 <= i < |answers| ==> answers[i] != ""
    ensures NonEmpty(answers) == answers
  {
    if answers != [] {
      NonEmptyKeepsAll(answers[1..]);
      assert answers == [answers[0]] + answers[1..];
    }
  }

  /** The messages `getInvalidityInfo` returns for the given field values. */
  function Messages(v: Validator, course: Option<string>, evaluation: Option<string>,
                    team: Option<string>, reviewee: Option<string>,
                    reviewer: Option<string>): seq<string>
  {
    NonEmpty(CheckResults(v, course, evaluation, team, reviewee, reviewer))
  }

  /** At most five messages come back, none of them empty. */
  lemma AtMostFiveMessages(v: Validator, course: Option<string>, evaluation: Option<string>,
                           team: Option<string>, reviewee: Option<string>,
                           reviewer: Option<string>)
    ensures var errors := Messages(v, course, evaluation, team, reviewee, reviewer);
      |errors| <= 5 && forall i :: 0 <= i < |errors| ==> errors[i] != ""
  {
  }

  /** The list is empty exactly when all five validator calls answer `""`. */
  lemma NoMessagesIffAllValid(v: Validator, course: Option<string>, evaluation: Option<string>,
                              team: Option<string>, reviewee: Option<string>,
                              reviewer: Option<string>)
    ensures Messages(v, course, evaluation, team, reviewee, reviewer) == [] <==>
      && v(CourseId, None, course) == ""
      && v(EvaluationName, None, evaluation) == ""
      && v(TeamName, None, team) == ""
      && v(Email, Some(ReceivingLabel), reviewee) == ""
      && v(Email, Some(GivingLabel), reviewer) == ""
  {
    var answers := CheckResults(v, course, evaluation, team, reviewee, reviewer);
    NonEmptyIsEmpty(answers);
    if Messages(v, course, evaluation, team, reviewee, reviewer) != [] {
      var i :| 0 <= i < 5 && answers[i] != "";
    }
  }

  /** Exactly the non-empty answers are reported. */
  lemma MessagesAreTheFailedChecks(v: Validator, course: Option<string>, evaluation: Option<string>,
                                   team: Option<string>, reviewee: Option<string>,
                                   reviewer: Option<string>, m: string)
    ensures m in Messages(v, course, evaluation, team, reviewee, reviewer) <==>
      m != "" &&
      (|| m == v(CourseId, None, course)
       || m == v(EvaluationName, None, evaluation)
       || m == v(TeamName, None, team)
       || m == v(Email, Some(ReceivingLabel), reviewee)
       || m == v(Email, Some(GivingLabel), reviewer))
  {
    var answers := CheckResults(v, course, evaluation, team, reviewee, reviewer);
    NonEmptyMembers(answers, m);
    assert m in answers <==> exists i :: 0 <= i < 5 && answers[i] == m;
  }

  /**
   * The messages are ordered course, evaluation, team, reviewee email,
   * reviewer email: the list is the concatenation of each check's own
   * contribution, taken in that order.
   */
  lemma MessagesInFixedOrder(v: Validator, course: Option<string>, evaluation: Option<string>,
                             team: Option<string>, reviewee: Option<string>,
                             reviewer: Option<string>)
    ensures Messages(v, course, evaluation, team, reviewee, reviewer) ==
      var course', evaluation', team' := v(CourseId, None, course), v(EvaluationName, None, evaluation), v(TeamName, None, team);
      var reviewee', reviewer' := v(Email, Some(ReceivingLabel), reviewee), v(Email, Some(GivingLabel), reviewer);
      (if course' == "" then [] else [course'])
      + (if evaluation' == "" then [] else [evaluation'])
      + (if team' == "" then [] else [team'])
      + (if reviewee' == "" then [] else [reviewee'])
      + (if reviewer' == "" then [] else [reviewer'])
  {
    var a := CheckResults(v, course, evaluation, team, reviewee, reviewer);
    assert a[..0] == [];
    NonEmptyStep(a, 0);
    NonEmptyStep(a, 1);
    NonEmptyStep(a, 2);
    NonEmptyStep(a, 3);
    NonEmptyStep(a, 4);
    assert a[..5] == a;
  }

  /** An invalid course and an invalid team give exactly two messages, course first. */
  lemma CourseErrorBeforeTeamError(v: Validator, course: Option<string>, evaluation: Option<string>,
                                   team: Option<string>, reviewee: Option<string>,
                                   reviewer: Option<string>)
    requires v(CourseId, None, course) != "" && v(TeamName, None, team) != ""
    requires v(EvaluationName, None, evaluation) == ""
    requires v(Email, Some(ReceivingLabel), reviewee) == "" && v(Email, Some(GivingLabel), reviewer) == ""
    ensures Messages(v, course, evaluation, team, reviewee, reviewer) ==
      [v(CourseId, None, course), v(TeamName, None, team)]
  {
    MessagesInFixedOrder(v, course, evaluation, team, reviewee, reviewer);
  }

  /**
   * The two email checks differ only in their role label; when an address is
   * invalid in one role only, the single message is the one asked with that
   * role's label.
   */
  lemma EmailMessagesAreRoleSpecific(v: Validator, course: Option<string>, evaluation: Option<string>,
                                     team: Option<string>, email: Option<string>, other: Option<string>)
    requires v(CourseId, None, course) == "" && v(EvaluationName, None, evaluation) == ""
    requires v(TeamName, None, team) == ""
    requires v(Email, Some(ReceivingLabel), other) == "" && v(Email, Some(GivingLabel), other) == ""
    ensures ReceivingLabel != GivingLabel
    ensures v(Email, Some(GivingLabel), email) != "" ==>
      Messages(v, course, evaluation, team, other, email) == [v(Email, Some(GivingLabel), email)]
    ensures v(Email, Some(ReceivingLabel), email) != "" ==>
      Messages(v, course, evaluation, team, email, other) == [v(Email, Some(ReceivingLabel), email)]
  {
    assert ReceivingLabel[30] != GivingLabel[30];
    MessagesInFixedOrder(v, course, evaluation, team, other, email);
    MessagesInFixedOrder(v, course, evaluation, team, email, other);
  }
}
