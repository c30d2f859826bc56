# SubmissionAttributes — a Dafny model

This project models `SubmissionAttributes`, the data-transfer object of the
TEAMMATES peer-evaluation system. One instance stands for one submission: a
reviewer rating a reviewee in one evaluation of one course. The model covers:

- the three constructors: no-argument, from raw fields, and from a persisted `Submission` entity;
- the conversion back to a storage entity;
- the deep copy;
- the self-evaluation test;
- validation;
- the identification string;
- the entity-type label.

Layout:

- `wrappers.dfy` (module `Wrappers`): `Option` for Java references that may be
  null, and `Result` for a return value or an escaping exception
  (`NullPointerException`, or the `AssertionError` raised by `Assumption.assertTrue`).
- `collaborators.dfy` (module `Collaborators`): the types the class uses but
  whose code is not part of this model. `FieldValidator.getInvalidityInfo` is a function value
  `(FieldType, label, value) -> string` where `""` means valid. `Sanitizer` is
  a record of three function values. The datastore `Text` is a class holding a
  nullable string. `SubmissionDetailsBundle` is a class with four fields. The
  storage `Submission` is a record seen through its accessors.
- `invalidity.dfy` (module `Invalidity`): the specification of validation.
  It fixes the five validator questions, with their order and role labels. It
  filters the answers into messages, and proves what the message list means.
- `submission_attributes.dfy` (module `Datatransfer`): the class
  `SubmissionAttributes`, with fields updated in place as in the source. It
  also holds client methods that combine its operations: entity round trip,
  validating a copy, and mutating a copy.

Java `String` fields are `Option<string>`, because the no-argument
constructor leaves them null. String concatenation renders null as `"null"`,
and `reviewee.equals(reviewer)` with a null reviewee raises
`NullPointerException`. The raw-field constructor sanitizes the object's own
text fields, which are still null at that point. Each therefore becomes
whatever `sanitizeTextField(null)` yields. `ValidateFromFields` shows the
consequence: such a record can be validated only if the sanitizer turns null
into a container.

## Model

| member | source | states |
|---|---|---|
| `Datatransfer.SubmissionAttributes.constructor` | src/main/java/teammates/common/datatransfer/SubmissionAttributes.java:36-40 | all string fields and both text containers are null, points are 0, and a fresh details bundle holds defaults |
| `Datatransfer.SubmissionAttributes.FromFields` | src/main/java/teammates/common/datatransfer/SubmissionAttributes.java:42-51 | course, evaluation and team are title-sanitized; reviewee and reviewer are name-sanitized; both text fields hold `sanitizeTextField(null)`, in containers that are fresh and distinct; points are 0 and a fresh details bundle holds defaults |
| `Datatransfer.SubmissionAttributes.FromEntity` | src/main/java/teammates/common/datatransfer/SubmissionAttributes.java:53-62 | scalars copied verbatim; a missing justification becomes a fresh `Text("")` and missing feedback a fresh `Text("N/A")`; a present container is the entity's own; a fresh details bundle holds defaults |
| `Datatransfer.SubmissionAttributes.ToEntity` | src/main/java/teammates/common/datatransfer/SubmissionAttributes.java:64-66 | the entity carries reviewer, reviewee, course, evaluation and team, and nothing else |
| `Datatransfer.EntityRoundTrip` | src/main/java/teammates/common/datatransfer/SubmissionAttributes.java:53-66 | reading an entity and converting back returns exactly its five key fields; points, justification and feedback are dropped |
| `Datatransfer.SubmissionAttributes.GetCopy` | src/main/java/teammates/common/datatransfer/SubmissionAttributes.java:75-92 | the copy and its details bundle are new objects, equal field by field; both containers are new, non-null, distinct from each other, and hold the original's value (null when the original container is null) |
| `Datatransfer.CopyKeepsIdentity` | src/main/java/teammates/common/datatransfer/SubmissionAttributes.java:75-92 | a copy is a different object with the same self-evaluation answer, identification string and storage entity |
| `Datatransfer.MutateCopy` | src/main/java/teammates/common/datatransfer/SubmissionAttributes.java:85-88 | changing the copy's fields, details and text containers leaves the original's fields and container values unchanged |
| `Datatransfer.MutateOriginal` | src/main/java/teammates/common/datatransfer/SubmissionAttributes.java:75-92 | changing the original's fields, details and text containers after copying leaves the copy's fields and container values as copied |
| `Datatransfer.SubmissionAttributes.IsSelfEvaluation` | src/main/java/teammates/common/datatransfer/SubmissionAttributes.java:94-96 | true iff reviewee and reviewer are the same string; false iff they differ; NullPointerException iff the reviewee is null |
| `Datatransfer.SubmissionAttributes.GetInvalidityInfo` | src/main/java/teammates/common/datatransfer/SubmissionAttributes.java:98-125 | a null justification raises AssertionError instead of returning messages; otherwise the result is the validator's non-empty answers to the five checks, in order; a null peer feedback plays no part |
| `Datatransfer.ValidateFromEntity` | src/main/java/teammates/common/datatransfer/SubmissionAttributes.java:53-62 | a record read from storage always has a justification, so validation returns messages and never the assertion failure |
| `Datatransfer.ValidateFromFields` | src/main/java/teammates/common/datatransfer/SubmissionAttributes.java:42-51 | validating a raw-field record fails the assertion iff `sanitizeTextField(null)` is null; otherwise it reports the messages for the sanitized fields |
| `Datatransfer.ValidateCopy` | src/main/java/teammates/common/datatransfer/SubmissionAttributes.java:85-88 | a copy always validates without the assertion failure; its messages equal the original's whenever the original validates |
| `Invalidity.CheckResults` | src/main/java/teammates/common/datatransfer/SubmissionAttributes.java:107-122 | the five questions in order: course id, evaluation name, team name, reviewee email with the "receiving" label, reviewer email with the "giving" label |
| `Invalidity.NonEmpty` | src/main/java/teammates/common/datatransfer/SubmissionAttributes.java:107-124 | the conditional `add` calls keep at most as many entries as answers, none of them empty |
| `Invalidity.NonEmptyStep` | src/main/java/teammates/common/datatransfer/SubmissionAttributes.java:107-108 | one more check appends its answer exactly when the answer is not empty |
| `Invalidity.NonEmptyAppend` | src/main/java/teammates/common/datatransfer/SubmissionAttributes.java:107-124 | filtering preserves order: messages from earlier checks precede messages from later ones |
| `Invalidity.NonEmptyMembers` | src/main/java/teammates/common/datatransfer/SubmissionAttributes.java:107-124 | a string is reported iff it is a non-empty answer |
| `Invalidity.NonEmptyIsEmpty` | src/main/java/teammates/common/datatransfer/SubmissionAttributes.java:107-124 | nothing is reported iff every answer is empty |
| `Invalidity.NonEmptyKeepsAll` | src/main/java/teammates/common/datatransfer/SubmissionAttributes.java:107-124 | when every answer is a message, all are reported in order |
| `Invalidity.AtMostFiveMessages` | src/main/java/teammates/common/datatransfer/SubmissionAttributes.java:107-124 | at most five messages, none empty |
| `Invalidity.NoMessagesIffAllValid` | src/main/java/teammates/common/datatransfer/SubmissionAttributes.java:98-125 | the list is empty iff all five validator calls answer `""` |
| `Invalidity.MessagesAreTheFailedChecks` | src/main/java/teammates/common/datatransfer/SubmissionAttributes.java:107-124 | a string is in the list iff it is non-empty and is one of the five answers |
| `Invalidity.MessagesInFixedOrder` | src/main/java/teammates/common/datatransfer/SubmissionAttributes.java:107-122 | the list is the course, evaluation, team, reviewee-email and reviewer-email answers, each included only when non-empty, concatenated in that order |
| `Invalidity.CourseErrorBeforeTeamError` | src/main/java/teammates/common/datatransfer/SubmissionAttributes.java:107-114 | an invalid course and an invalid team with everything else valid give exactly two messages, course first |
| `Invalidity.EmailMessagesAreRoleSpecific` | src/main/java/teammates/common/datatransfer/SubmissionAttributes.java:116-122 | the two role labels differ; an address invalid only as reviewer yields the single "giving" message, and one invalid only as reviewee the single "receiving" message |
| `Datatransfer.SubmissionAttributes.GetIdentificationString` | src/main/java/teammates/common/datatransfer/SubmissionAttributes.java:145-150 | the string splits into course, a slash, evaluation, the "to" separator, reviewee, the "from" separator, reviewer (a null field rendered as `null`); its length is their sum |
| `Datatransfer.IdentificationExample` | src/main/java/teammates/common/datatransfer/SubmissionAttributes.java:146-150 | for course CS101, evaluation Midterm, reviewer a@x.com and reviewee b@x.com the key is the fixed format filled with those four values, reviewee after "to" and reviewer after "from" |
| `Datatransfer.JavaText` | src/main/java/teammates/common/datatransfer/SubmissionAttributes.java:147-149 | a null string is rendered as `null` in concatenation; any other string is rendered as itself |
| `Datatransfer.SubmissionAttributes.GetEntityTypeAsString` | src/main/java/teammates/common/datatransfer/SubmissionAttributes.java:152-155 | the label is the constant `Submission` |

## Left out

- `toString()` and `toString(int)`: these depend on `Common.getIndent`, `EOL` and Java's number formatting, which are not part of this model. The second one prints `normalizedToStudent` in the "normalized-to-instructor" slot, and it dereferences a possibly-null `p2pFeedback`.
- `FieldValidator` and `Sanitizer` internals: the course-id, title and email syntax rules and the sanitizing transforms are not part of this model. They are uninterpreted function values, and the validator is taken to be total (it always returns a non-null string, even for a null value).
- `Datatransfer.SubmissionAttributes.FromFields`: when `sanitizeTextField(null)` returns a container, the model gives each text field its own fresh one. What the real sanitizer returns for null is not part of this model.
- `SubmissionDetailsBundle` is not part of this model. The default values of its fields are taken to be Java's defaults (null names, zero normalized points), and the normalized points are modelled as `int`.
- The storage `Submission` entity is not part of this model beyond its accessors and its five-argument constructor. The values that constructor gives the other entity fields are unknown, so `ToEntity` returns the five constructor arguments.
- `details` is taken to be non-null: every constructor allocates it. In Java it is a public field a client could set to null, and `getCopy` would then raise NullPointerException; the model does not capture that failure.
- The App Engine `Text` type is immutable. The model gives it a mutable value, which only makes the no-aliasing claims about `GetCopy` stronger.
- The logger and the JSON field-naming conventions have no behaviour to model.
