/**
 The subset of the schema-validation library the profile form uses, and the
 profile schema written in it. Validation runs every field's tests without
 stopping at the first failure and reports one `Issue` per failing test, in
 schema order.
 */
module Schema {
  import opened ValidationErrors
  import opened ProfileForm

  /** A value a `OneOf` test accepts: a fixed string, or a sibling field's value. */
  datatype Operand = Literal(text: string) | Ref(field: Field)

  /** A test on a string field, with the message reported when it fails. */
  datatype Test =
    | Required(message: string)
    | EmailFormat(message: string)
    | OneOf(allowed: seq<Operand>, message: string)

  /** A field's tests: fixed, or chosen by whether another field's value has
      non-zero length. */
  datatype FieldSchema =
    | Tests(tests: seq<Test>)
    | WhenNonEmpty(dependsOn: Field, whenTrue: seq<Test>, otherwise: seq<Test>)

  datatype Entry = Entry(field: Field, schema: FieldSchema)

  /** The outcome of validating a whole submission. */
  datatype Validation = Valid | Invalid(inner: seq<Issue>)

  const NameRequired := "name obrigatório"
  const EmailRequired := "E-mail obrigatório"
  const EmailInvalid := "Digite um e-mail válido"
  /** The library's default message for a `required()` test on `password`. */
  const PasswordRequired := "password is a required field"
  const ConfirmationMismatch := "Confirmação incorreta"

  /** The profile schema: name and e-mail required, e-mail well formed,
      password required when a current password was typed, confirmation equal
      to the password or empty. */
  const NameEntry := Entry(Name, Tests([Required(NameRequired)]))
  const EmailEntry := Entry(Email, Tests([Required(EmailRequired), EmailFormat(EmailInvalid)]))
  const OldPasswordEntry := Entry(OldPassword, Tests([]))
  const PasswordEntry := Entry(Password, WhenNonEmpty(OldPassword, [Required(PasswordRequired)], []))
  const ConfirmationEntry :=
    Entry(PasswordConfirmation, Tests([OneOf([Ref(Password), Literal("")], ConfirmationMismatch)]))

  const ProfileSchema: seq<Entry> :=
    [EntryOf(Name), EntryOf(Email), EntryOf(OldPassword), EntryOf(Password),
     EntryOf(PasswordConfirmation)]

  function Resolve(d: ProfileFormData, o: Operand): string
  {
    match o
    case Literal(s) => s
    case Ref(f) => f.Of(d)
  }

  /** Whether `value` is among the resolved `allowed` operands. */
  function Allowed(d: ProfileFormData, allowed: seq<Operand>, value: string): (b: bool)
    ensures b <==> exists k :: 0 <= k < |allowed| && Resolve(d, allowed[k]) == value
  {
    if |allowed| == 0 then false
    else if Resolve(d, allowed[0]) == value then true
    else
      assert forall k :: 1 <= k < |allowed| ==> allowed[k] == allowed[1..][k - 1];
      Allowed(d, allowed[1..], value)
  }

  /** Whether `value` passes one test. The e-mail format test leaves the empty
      string to `Required`. */
  predicate Passes(t: Test, d: ProfileFormData, isEmail: string -> bool, value: string)
  {
    match t
    case Required(_) => value != ""
    case EmailFormat(_) => value == "" || isEmail(value)
    case OneOf(allowed, _) => Allowed(d, allowed, value)
  }

  /** Every test `value` fails appears in `r` with that test's message. */
  predicate EveryFailureReported(tests: seq<Test>, d: ProfileFormData, isEmail: string -> bool,
                                 path: string, value: string, r: seq<Issue>)
  {
    forall k :: 0 <= k < |tests| && !Passes(tests[k], d, isEmail, value) ==>
      Issue(path, tests[k].message) in r
  }

  /** Every issue in `r` is the message of a test `value` fails. */
  predicate OnlyFailuresReported(tests: seq<Test>, d: ProfileFormData, isEmail: string -> bool,
                                 path: string, value: string, r: seq<Issue>)
  {
    forall i :: 0 <= i < |r| ==>
      exists k :: 0 <= k < |tests| && !Passes(tests[k], d, isEmail, value) &&
                  r[i] == Issue(path, tests[k].message)
  }

  /** One issue under `path` for every test `value` fails, in test order. */
  function Failures(tests: seq<Test>, d: ProfileFormData, isEmail: string -> bool,
                    path: string, value: string): (r: seq<Issue>)
    ensures |r| <= |tests|
    ensures forall k :: 0 <= k < |r| ==> r[k].path == path
    ensures |r| == 0 <==> forall k :: 0 <= k < |tests| ==> Passes(tests[k], d, isEmail, value)
  {
    if |tests| == 0 then []
    else
      assert forall k :: 1 <= k < |tests| ==> tests[k] == tests[1..][k - 1];
      var here := if Passes(tests[0], d, isEmail, value) then []
                  else [Issue(path, tests[0].message)];
      here + Failures(tests[1..], d, isEmail, path, value)
  }

  /** With `abortEarly: false` the issues for one value are exactly the
      messages of the tests it fails: each failing test is reported, and
      nothing else is. */
  lemma {:induction false} FailuresReportExactly(tests: seq<Test>, d: ProfileFormData,
                                                 isEmail: string -> bool, path: string, value: string)
    ensures EveryFailureReported(tests, d, isEmail, path, value, Failures(tests, d, isEmail, path, value))
    ensures OnlyFailuresReported(tests, d, isEmail, path, value, Failures(tests, d, isEmail, path, value))
    decreases |tests|
  {
    if |tests| > 0 {
      var r := Failures(tests, d, isEmail, path, value);
      var rest := Failures(tests[1..], d, isEmail, path, value);
      var here := if Passes(tests[0], d, isEmail, value) then [] else [Issue(path, tests[0].message)];
      assert r == here + rest;
      FailuresReportExactly(tests[1..], d, isEmail, path, value);
      forall k | 0 <= k < |tests| && !Passes(tests[k], d, isEmail, value)
        ensures Issue(path, tests[k].message) in r
      {
        if k > 0 {
          assert tests[1..][k - 1] == tests[k];
          assert Issue(path, tests[k].message) in rest;
        }
      }
      forall i | 0 <= i < |r|
        ensures exists k :: 0 <= k < |tests| && !Passes(tests[k], d, isEmail, value) &&
                            r[i] == Issue(path, tests[k].message)
      {
        if i >= |here| {
          assert r[i] == rest[i - |here|];
          var k :| 0 <= k < |tests[1..]| && !Passes(tests[1..][k], d, isEmail, value) &&
                   rest[i - |here|] == Issue(path, tests[1..][k].message);
          assert tests[1..][k] == tests[k + 1];
        } else {
          assert r[i] == Issue(path, tests[0].message);
        }
      }
    }
  }

  /** The tests a field schema applies to submission `d`. */
  function ActiveTests(s: FieldSchema, d: ProfileFormData): seq<Test>
  {
    match s
    case Tests(tests) => tests
    case WhenNonEmpty(dep, whenTrue, otherwise) =>
      if |dep.Of(d)| != 0 then whenTrue else otherwise
  }

  function EntryIssues(e: Entry, d: ProfileFormData, isEmail: string -> bool): seq<Issue>
  {
    Failures(ActiveTests(e.schema, d), d, isEmail, e.field.Path(), e.field.Of(d))
  }

  /** Validate every entry, collecting all issues rather than stopping early. */
  function ValidateEntries(schema: seq<Entry>, d: ProfileFormData,
                           isEmail: string -> bool): seq<Issue>
  {
    if |schema| == 0 then []
    else EntryIssues(schema[0], d, isEmail) + ValidateEntries(schema[1..], d, isEmail)
  }

  /** The profile schema's entry for a field. */
  function EntryOf(f: Field): Entry
  {
    match f
    case Name => NameEntry
    case Email => EmailEntry
    case OldPassword => OldPasswordEntry
    case Password => PasswordEntry
    case PasswordConfirmation => ConfirmationEntry
  }

  /** The issues the profile schema reports for one field: those of the
      one-entry schema holding the field's entry. */
  function FieldIssues(d: ProfileFormData, isEmail: string -> bool, f: Field): seq<Issue>
  {
    ValidateEntries([EntryOf(f)], d, isEmail)
  }

  /** Validating a concatenation of schemas reports the first part's issues,
      then the second's. */
  lemma {:induction false} ValidateAppend(a: seq<Entry>, b: seq<Entry>,
                                          d: ProfileFormData, isEmail: string -> bool)
    ensures ValidateEntries(a + b, d, isEmail) ==
            ValidateEntries(a, d, isEmail) + ValidateEntries(b, d, isEmail)
    decreases |a|
  {
    if |a| == 0 {
      assert a + b == b;
    } else {
      assert (a + b)[0] == a[0] && (a + b)[1..] == a[1..] + b;
      ValidateAppend(a[1..], b, d, isEmail);
    }
  }

  /** Validating a one-entry schema reports that entry's issues. */
  lemma ValidateSingle(e: Entry, d: ProfileFormData, isEmail: string -> bool)
    ensures ValidateEntries([e], d, isEmail) == EntryIssues(e, d, isEmail)
  {
  }

  /** Validating five consecutive parts of a schema reports their issues in order. */
  lemma ValidateFiveParts(a: seq<Entry>, b: seq<Entry>, c: seq<Entry>, e: seq<Entry>, f: seq<Entry>,
                          d: ProfileFormData, isEmail: string -> bool)
    ensures ValidateEntries(a + b + c + e + f, d, isEmail) ==
            ValidateEntries(a, d, isEmail) + ValidateEntries(b, d, isEmail)
            + ValidateEntries(c, d, isEmail) + ValidateEntries(e, d, isEmail)
            + ValidateEntries(f, d, isEmail)
  {
    ValidateAppend(a + b + c + e, f, d, isEmail);
    ValidateAppend(a + b + c, e, d, isEmail);
    ValidateAppend(a + b, c, d, isEmail);
    ValidateAppend(a, b, d, isEmail);
  }

  /** Validating with the profile schema reports each field's issues in field order. */
  lemma ProfileIssuesByField(d: ProfileFormData, isEmail: string -> bool)
    ensures ValidateEntries(ProfileSchema, d, isEmail) ==
            FieldIssues(d, isEmail, Name) + FieldIssues(d, isEmail, Email)
            + FieldIssues(d, isEmail, OldPassword) + FieldIssues(d, isEmail, Password)
            + FieldIssues(d, isEmail, PasswordConfirmation)
  {
    var n, e, o, p, c := [EntryOf(Name)], [EntryOf(Email)], [EntryOf(OldPassword)],
      [EntryOf(Password)], [EntryOf(PasswordConfirmation)];
    assert ProfileSchema == n + e + o + p + c;
    ValidateFiveParts(n, e, o, p, c, d, isEmail);
  }

  /** The message shown for a field whose rule fails: an empty e-mail is
      reported as missing, a non-empty one as malformed. */
  function ExpectedMessage(d: ProfileFormData, f: Field): string
  {
    match f
    case Name => NameRequired
    case Email => if d.email == "" then EmailRequired else EmailInvalid
    // Never reported: the current password's rule always holds.
    case OldPassword => ""
    case Password => PasswordRequired
    case PasswordConfirmation => ConfirmationMismatch
  }

  /** The e-mail field's two tests: an empty e-mail fails only `required`, a
      non-empty one only the format check. */
  lemma EmailIssuesMatchRule(d: ProfileFormData, isEmail: string -> bool)
    ensures FieldIssues(d, isEmail, Email) ==
              if RuleHolds(d, isEmail, Email) then []
              else [Issue("email", ExpectedMessage(d, Email))]
  {
    ValidateSingle(EntryOf(Email), d, isEmail);
    var t := ActiveTests(EmailEntry.schema, d);
    assert t == [Required(EmailRequired), EmailFormat(EmailInvalid)];
    assert t[1..] == [EmailFormat(EmailInvalid)] && t[1..][1..] == [];
    var tail := Failures(t[1..], d, isEmail, "email", d.email);
    assert tail == (if d.email == "" || isEmail(d.email) then [] else [Issue("email", EmailInvalid)]);
    assert FieldIssues(d, isEmail, Email) ==
      (if d.email != "" then [] else [Issue("email", EmailRequired)]) + tail;
  }

  /** The confirmation's `oneOf` resolves the password reference against the
      same submission. */
  lemma ConfirmationIssuesMatchRule(d: ProfileFormData, isEmail: string -> bool)
    ensures FieldIssues(d, isEmail, PasswordConfirmation) ==
              if RuleHolds(d, isEmail, PasswordConfirmation) then []
              else [Issue("password_confirmation", ConfirmationMismatch)]
  {
    ValidateSingle(EntryOf(PasswordConfirmation), d, isEmail);
    var allowed := [Ref(Password), Literal("")];
    assert Resolve(d, allowed[0]) == d.password && Resolve(d, allowed[1]) == "";
  }

  /** The schema's tests for one field agree with that field's rule: nothing
      is reported when the rule holds, and one issue under the field's own key
      with the expected message when it fails. */
  lemma FieldIssuesMatchRule(d: ProfileFormData, isEmail: string -> bool, f: Field)
    ensures |FieldIssues(d, isEmail, f)| <= 1
    ensures forall k :: 0 <= k < |FieldIssues(d, isEmail, f)| ==>
              FieldIssues(d, isEmail, f)[k].path == f.Path()
    ensures FieldIssues(d, isEmail, f) == [] <==> RuleHolds(d, isEmail, f)
    ensures !RuleHolds(d, isEmail, f) ==>
              FieldIssues(d, isEmail, f) == [Issue(f.Path(), ExpectedMessage(d, f))]
  {
    match f
    case Name => ValidateSingle(EntryOf(f), d, isEmail);
    case Email => EmailIssuesMatchRule(d, isEmail);
    case OldPassword => ValidateSingle(EntryOf(f), d, isEmail);
    case Password => ValidateSingle(EntryOf(f), d, isEmail);
    case PasswordConfirmation => ConfirmationIssuesMatchRule(d, isEmail);
  }

  /** Validate the submission with the profile schema. */
  function Validate(d: ProfileFormData, isEmail: string -> bool): (v: Validation)
    ensures v.Valid? <==> AllRulesHold(d, isEmail)
    ensures v.Invalid? ==> |v.inner| > 0 && DistinctPaths(v.inner)
    ensures v.Invalid? ==> forall f: Field ::
              f.Path() in Paths(v.inner) <==> !RuleHolds(d, isEmail, f)
    ensures v.Invalid? ==> Paths(v.inner) <= FieldPaths
  {
    var inner := ValidateEntries(ProfileSchema, d, isEmail);
    ValidationAgreesWithRules(d, isEmail);
    FailingPathsCharacterized(d, isEmail);
    if |inner| == 0 then Valid else Invalid(inner)
  }

  /** The key a field contributes to the reported issues: its own when its
      rule fails, none otherwise. */
  function FailingPath(d: ProfileFormData, isEmail: string -> bool, f: Field): set<string>
  {
    if RuleHolds(d, isEmail, f) then {} else {f.Path()}
  }

  lemma FieldBlock(d: ProfileFormData, isEmail: string -> bool, f: Field)
    ensures Paths(FieldIssues(d, isEmail, f)) == FailingPath(d, isEmail, f)
    ensures DistinctPaths(FieldIssues(d, isEmail, f))
  {
    FieldIssuesMatchRule(d, isEmail, f);
    var b := FieldIssues(d, isEmail, f);
    if |b| == 1 {
      assert Paths(b) == {b[0].path};
    }
  }

  /** Five blocks with distinct paths and pairwise disjoint path sets
      concatenate into a list with distinct paths. */
  lemma FiveBlocks(n: seq<Issue>, e: seq<Issue>, o: seq<Issue>, p: seq<Issue>, c: seq<Issue>)
    requires DistinctPaths(n) && DistinctPaths(e) && DistinctPaths(o)
    requires DistinctPaths(p) && DistinctPaths(c)
    requires Paths(n) !! Paths(e) && Paths(n) !! Paths(o) && Paths(n) !! Paths(p) && Paths(n) !! Paths(c)
    requires Paths(e) !! Paths(o) && Paths(e) !! Paths(p) && Paths(e) !! Paths(c)
    requires Paths(o) !! Paths(p) && Paths(o) !! Paths(c) && Paths(p) !! Paths(c)
    ensures Paths(n + e + o + p + c) == Paths(n) + Paths(e) + Paths(o) + Paths(p) + Paths(c)
    ensures DistinctPaths(n + e + o + p + c)
  {
    PathsAppend(n, e);
    DistinctAppend(n, e);
    PathsAppend(n + e, o);
    DistinctAppend(n + e, o);
    PathsAppend(n + e + o, p);
    DistinctAppend(n + e + o, p);
    PathsAppend(n + e + o + p, c);
    DistinctAppend(n + e + o + p, c);
  }

  /** Distinct fields never report under the same key. */
  lemma FailingPathsDisjoint(d: ProfileFormData, isEmail: string -> bool)
    ensures forall f: Field, g: Field :: f != g ==>
              FailingPath(d, isEmail, f) !! FailingPath(d, isEmail, g)
  {
    PathsIdentifyFields();
  }

  /** The failing fields' keys are exactly the keys of the reported issues,
      and no key is reported twice. */
  lemma ProfileIssueBlocks(d: ProfileFormData, isEmail: string -> bool)
    ensures Paths(ValidateEntries(ProfileSchema, d, isEmail)) ==
            FailingPath(d, isEmail, Name) + FailingPath(d, isEmail, Email)
            + FailingPath(d, isEmail, OldPassword) + FailingPath(d, isEmail, Password)
            + FailingPath(d, isEmail, PasswordConfirmation)
    ensures DistinctPaths(ValidateEntries(ProfileSchema, d, isEmail))
  {
    ProfileIssuesByField(d, isEmail);
    FailingPathsDisjoint(d, isEmail);
    FieldBlock(d, isEmail, Name);
    FieldBlock(d, isEmail, Email);
    FieldBlock(d, isEmail, OldPassword);
    FieldBlock(d, isEmail, Password);
    FieldBlock(d, isEmail, PasswordConfirmation);
    FiveBlocks(FieldIssues(d, isEmail, Name), FieldIssues(d, isEmail, Email),
      FieldIssues(d, isEmail, OldPassword), FieldIssues(d, isEmail, Password),
      FieldIssues(d, isEmail, PasswordConfirmation));
  }

  /** The keys of all failing fields. */
  function FailingPaths(d: ProfileFormData, isEmail: string -> bool): set<string>
  {
    FailingPath(d, isEmail, Name) + FailingPath(d, isEmail, Email)
    + FailingPath(d, isEmail, OldPassword) + FailingPath(d, isEmail, Password)
    + FailingPath(d, isEmail, PasswordConfirmation)
  }

  /** A field's key is among the failing keys exactly when its rule fails. */
  lemma FailingPathsCharacterized(d: ProfileFormData, isEmail: string -> bool)
    ensures forall f: Field :: f.Path() in FailingPaths(d, isEmail) <==> !RuleHolds(d, isEmail, f)
    ensures FailingPaths(d, isEmail) <= FieldPaths
    ensures FailingPaths(d, isEmail) == {} <==> AllRulesHold(d, isEmail)
  {
  }

  /** What `Validate` promises, proved about the issues the schema reports. */
  lemma ValidationAgreesWithRules(d: ProfileFormData, isEmail: string -> bool)
    ensures var inner := ValidateEntries(ProfileSchema, d, isEmail);
      && DistinctPaths(inner)
      && (|inner| == 0 <==> AllRulesHold(d, isEmail))
      && Paths(inner) == FailingPaths(d, isEmail)
  {
    var inner := ValidateEntries(ProfileSchema, d, isEmail);
    ProfileIssueBlocks(d, isEmail);
    FailingPathsCharacterized(d, isEmail);
    if |inner| != 0 {
      assert inner[0].path in Paths(inner);
    }
  }

  /** A failing field's issue is among the issues the profile schema reports. */
  lemma FailingFieldReported(d: ProfileFormData, isEmail: string -> bool, f: Field)
    requires !RuleHolds(d, isEmail, f)
    ensures Issue(f.Path(), ExpectedMessage(d, f)) in ValidateEntries(ProfileSchema, d, isEmail)
  {
    ProfileIssuesByField(d, isEmail);
    FieldIssuesMatchRule(d, isEmail, f);
    assert Issue(f.Path(), ExpectedMessage(d, f)) in FieldIssues(d, isEmail, f);
  }

  /** The error map built from a failed validation has an entry for exactly
      the failing fields, each holding that field's message. */
  lemma ErrorMapMatchesRules(d: ProfileFormData, isEmail: string -> bool)
    requires !AllRulesHold(d, isEmail)
    ensures var errors := GetValidationErrors(Validate(d, isEmail).inner);
      && errors.Keys <= FieldPaths
      && (forall f: Field :: f.Path() in errors <==> !RuleHolds(d, isEmail, f))
      && (forall f: Field :: f.Path() in errors ==> errors[f.Path()] == ExpectedMessage(d, f))
  {
    var inner := Validate(d, isEmail).inner;
    forall f: Field | !RuleHolds(d, isEmail, f)
      ensures GetValidationErrors(inner)[f.Path()] == ExpectedMessage(d, f)
    {
      FailingFieldReported(d, isEmail, f);
      DistinctEntriesSurvive(inner, f.Path(), ExpectedMessage(d, f));
    }
  }

  /** Keys under which the profile schema reports issues for `d`. */
  function ReportedPaths(d: ProfileFormData, isEmail: string -> bool): set<string>
  {
    Paths(ValidateEntries(ProfileSchema, d, isEmail))
  }

  /** Name and e-mail: an empty name is reported under `name`; an empty or
      malformed e-mail under `email`; otherwise neither is reported. */
  lemma NameAndEmailRules(d: ProfileFormData, isEmail: string -> bool)
    ensures "name" in ReportedPaths(d, isEmail) <==> d.name == ""
    ensures "email" in ReportedPaths(d, isEmail) <==> d.email == "" || !isEmail(d.email)
  {
    ValidationAgreesWithRules(d, isEmail);
    FailingPathsCharacterized(d, isEmail);
    assert Name.Path() == "name" && Email.Path() == "email";
  }

  /** The password is reported exactly when a current password was typed and
      the new password is empty; with no current password any new password,
      empty included, passes. */
  lemma PasswordRule(d: ProfileFormData, isEmail: string -> bool)
    ensures "password" in ReportedPaths(d, isEmail) <==> |d.oldPassword| != 0 && d.password == ""
    ensures d.oldPassword == "" ==> "password" !in ReportedPaths(d, isEmail)
  {
    ValidationAgreesWithRules(d, isEmail);
    FailingPathsCharacterized(d, isEmail);
    assert Password.Path() == "password";
  }

  /** The confirmation is reported exactly when it is neither the password nor
      empty. An empty confirmation passes even when a new password was typed. */
  lemma ConfirmationRule(d: ProfileFormData, isEmail: string -> bool)
    ensures "password_confirmation" in ReportedPaths(d, isEmail) <==>
            d.passwordConfirmation != d.password && d.passwordConfirmation != ""
    ensures d.password != "" && d.passwordConfirmation == "" ==>
            "password_confirmation" !in ReportedPaths(d, isEmail)
  {
    ValidationAgreesWithRules(d, isEmail);
    FailingPathsCharacterized(d, isEmail);
    assert PasswordConfirmation.Path() == "password_confirmation";
  }
}
