# Profile screen: validation and submission logic

A Dafny model of the decision logic of the profile-editing screen of a web
front end. The screen lets a signed-in user change name, e-mail, password and
avatar. Two pieces of it carry behaviour:

- **The validation-error adapter** (`getValidationErrors`). A validation
  failure carries an ordered list of `(path, message)` entries. The adapter
  folds that list, left to right, into a map from field path to message, so
  a later entry overwrites an earlier one with the same path. It is modelled
  in `validation_errors.dfy` (module `ValidationErrors`).
- **The profile form's submit handler** (`handleSubmit`) **and avatar
  handler** (`handleAvatarChange`), with their I/O turned into an event
  trace.
  - `profile_form.dfy` (module `ProfileForm`) holds the five-string form
    record, the field keys, and each field's rule in plain terms.
  - `schema.dfy` (module `Schema`) is a small interpreter for the part of the
    schema-validation library the form uses. It covers `required`, `email`,
    `oneOf` with a sibling reference, and `when` on non-zero length. It also
    holds the profile schema written in that interpreter. Lemmas prove that
    the schema reports an issue for exactly the fields whose plain rule
    fails, with one issue per failing field.
  - `profile_controller.dfy` (module `ProfileController`) covers the request
    payload and the two handlers as functions from their inputs to a trace
    of events. The server's answer is a parameter. Observers over a trace
    (cached user, number of requests, navigations and toasts) state the
    outcomes.

The library's e-mail syntax check is not visible, so it enters as a parameter
`isEmail: string -> bool`. The library's e-mail test leaves the empty string
to `required`. So an empty e-mail is reported with the "required" message and
a non-empty malformed one with the "invalid" message. The password's
`required()` carries no message in the source. The library's default text for
it is kept as the opaque constant `Schema.PasswordRequired`.

The confirmation test `oneOf([ref('password'), ''])` accepts an empty
confirmation whatever the password is. A confirmation would usually be
expected to match a non-empty password. The model keeps the test as written,
and `Schema.ConfirmationRule` states this.

## Model

| member | source | states |
|---|---|---|
| ValidationErrors.Fold | src/utils/getValidationErrors.ts:10-12 | the `forEach` pass keeps the accumulator's keys and adds exactly the paths of the entries |
| ValidationErrors.GetValidationErrors | src/utils/getValidationErrors.ts:7-15 | total on every list; the result's keys are exactly the paths in the list, and each path maps to the message of its last occurrence |
| ValidationErrors.FoldLastWins | src/utils/getValidationErrors.ts:10-11 | the entry at the last occurrence of a path decides that path's message, whatever the accumulator held |
| ValidationErrors.FoldKeepsUntouched | src/utils/getValidationErrors.ts:10-11 | a key that no entry names keeps its earlier value |
| ValidationErrors.EmptyHasNoErrors | src/utils/getValidationErrors.ts:8-14 | an empty entry list yields the empty map |
| ValidationErrors.AppendOverwrites | src/utils/getValidationErrors.ts:10-11 | appending `(p, m)` gives the previous result updated at `p` to `m`, every other key unchanged |
| ValidationErrors.ResultEntriesOccur | src/utils/getValidationErrors.ts:10-11 | every (path, message) pair of the result is an entry of the input |
| ValidationErrors.DistinctEntriesSurvive | src/utils/getValidationErrors.ts:10-11 | with pairwise distinct paths every entry appears unchanged in the result |
| ValidationErrors.ReorderDistinctPaths | src/utils/getValidationErrors.ts:10-11 | any permutation of entries with pairwise distinct paths gives the same map |
| Schema.Failures | src/pages/Profile/index.tsx:67-69 | with `abortEarly: false` a field's tests yield no more issues than there are tests, all under that field's key, and nothing iff every test passes |
| Schema.FailuresReportExactly | src/pages/Profile/index.tsx:67-69 | every failing test's message is reported under the field's key, and every reported issue is the message of a failing test |
| Schema.Allowed | src/pages/Profile/index.tsx:61-64 | `oneOf` accepts a value iff it equals one of the resolved allowed operands |
| Schema.EmailIssuesMatchRule | src/pages/Profile/index.tsx:54 | an empty e-mail is reported only as missing, a non-empty malformed one only as invalid, a well-formed one not at all |
| Schema.ConfirmationIssuesMatchRule | src/pages/Profile/index.tsx:61-64 | the confirmation yields the mismatch issue exactly when it is neither the submitted password nor empty |
| Schema.FieldIssuesMatchRule | src/pages/Profile/index.tsx:52-65 | the schema's tests for each field report nothing iff that field's plain rule holds, and otherwise exactly one issue under the field's key with the expected message |
| Schema.ValidationAgreesWithRules | src/pages/Profile/index.tsx:52-69 | validating the whole form reports pairwise distinct keys, exactly the keys of the failing fields, and nothing iff every rule holds |
| Schema.Validate | src/pages/Profile/index.tsx:67-69 | validation succeeds iff every field rule holds; a failure carries a non-empty issue list with distinct keys that are exactly the failing fields' keys |
| Schema.ErrorMapMatchesRules | src/pages/Profile/index.tsx:99-102 | the error map handed to the form has an entry for every failing field and none for a passing one, each with that field's message |
| Schema.NameAndEmailRules | src/pages/Profile/index.tsx:53-54 | `name` is reported iff it is empty; `email` is reported iff it is empty or fails the e-mail check |
| Schema.PasswordRule | src/pages/Profile/index.tsx:56-60 | `password` is reported iff the current password has non-zero length and the new one is empty; with no current password any new password passes |
| Schema.ConfirmationRule | src/pages/Profile/index.tsx:61-64 | the confirmation is reported iff it is neither the password nor empty, so an empty confirmation passes even with a non-empty password |
| ProfileController.BuildPayload | src/pages/Profile/index.tsx:71-86 | the payload always holds `name` and `email`; it holds the three password keys iff the current password is non-empty; every value is the form's value unchanged |
| ProfileController.SentPasswordIsNonEmpty | src/pages/Profile/index.tsx:56-60 | once validation passes, the password is sent exactly when the rule required it, so a sent password is never empty |
| ProfileController.HandleSubmit | src/pages/Profile/index.tsx:49-113 | errors are cleared first; a failing form yields one error map over exactly the failing fields and nothing else; a valid form sends the payload, then on success updates the user, goes to `/dashboard` and shows the success toast, on failure shows the error toast only |
| ProfileController.InvalidSubmitStaysLocal | src/pages/Profile/index.tsx:99-105 | a failed validation makes no request, no navigation, no toast and leaves the cached user unchanged |
| ProfileController.AcceptedSubmitReplacesUser | src/pages/Profile/index.tsx:88-97 | an accepted update sends one request, makes the returned user the cached one, navigates once and shows one success toast and no error toast |
| ProfileController.RejectedSubmitKeepsUser | src/pages/Profile/index.tsx:107-111 | a rejected update keeps the cached user, never navigates and shows exactly one error toast and no success toast |
| ProfileController.HandleAvatarChange | src/pages/Profile/index.tsx:115-132 | a `null` file list gives no events. Any list, even an empty one, sends the upload first. The upload carries the first file; for an empty list, `PatchAvatar(None)` is the request carrying `files[0] === undefined`, which `FormData.append` sends as the text "undefined". On success the upload is followed by exactly the user update and the success toast; on rejection nothing follows it |
| ProfileController.NoFilesNoRequest | src/pages/Profile/index.tsx:116-118 | with a `null` file list there is no request, no toast and no change to the cached user. This covers only `null`, which a file input's change event does not produce |
| ProfileController.AcceptedUploadReplacesUser | src/pages/Profile/index.tsx:123-130 | an accepted upload makes the returned user the cached one and shows one success toast |
| ProfileController.RejectedUploadIsSilent | src/pages/Profile/index.tsx:123-131 | a rejected upload emits nothing after the request: no toast, no change to the cached user |
| ProfileController.EmptySelectionStillUploads | src/pages/Profile/index.tsx:120-123 | a cancelled selection (an empty list, not `null`) still sends exactly one upload, carrying no file |

## Left out

- Rendering: the JSX, styled components, icons, the back link and the form
  component wiring (`index.tsx:134-191`). They are UI with no behaviour to state.
- Network calls: `api.put` and `api.patch` are the trace events `PutProfile` and
  `PatchAvatar`, and their outcome is the `Response` parameter. Multipart
  packaging is the file carried by `PatchAvatar`. `console.log` is dropped.
- The library's e-mail regular expression is the `isEmail` parameter. Its
  default locale text for `required()` is an opaque constant.
- Form-reference null checks: `formRef.current?.setErrors` does nothing when
  the form is not mounted. The model assumes a mounted form.
- Exceptions thrown by `updateUser`, `history.push` or `addToast` inside the
  `try` block would also end in the error toast. The model treats these
  collaborators as not throwing.
- Concurrency: a profile submit and an avatar upload in flight together, where
  the last response to arrive wins the cached user. The model treats each
  handler as one sequential trace.
- Avatar upload failure: the request has no rejection handler
  (`index.tsx:123-131`). The model emits nothing after a rejected upload
  (`RejectedUploadIsSilent`) and adds no error policy of its own. The missing
  user feedback is a gap in the source.
- Form data contents: `formData.append('avatar', undefined)` sends the text
  "undefined" as the avatar part. The model represents that request as
  `PatchAvatar(None)`, and the server's answer stays the `Response` parameter.
- Error-map keys: paths are modelled as plain map keys. A JavaScript object
  treats the key `__proto__` as the prototype setter, which ignores a string
  value, so an entry with that path would not appear in the real object. The
  schema's paths never take that value, and the model does not represent it.
