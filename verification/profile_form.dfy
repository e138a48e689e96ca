/**
 The profile form's data: the five string fields a submission carries, the
 field names they travel under, and the validation rules stated field by
 field in plain terms. `isEmail` stands for the validation library's e-mail
 syntax check, whose definition is not part of this model.
 */
module ProfileForm {

  /** One submission of the profile form. */
  datatype ProfileFormData = ProfileFormData(
    name: string,
    email: string,
    oldPassword: string,
    password: string,
    passwordConfirmation: string)

  /** The fields of the form, in the order the schema declares them. */
  datatype Field = Name | Email | OldPassword | Password | PasswordConfirmation
  {
    /** The key the field is known by, in error maps and in request payloads. */
    function Path(): string
    {
      match this
      case Name => "name"
      case Email => "email"
      case OldPassword => "old_password"
      case Password => "password"
      case PasswordConfirmation => "password_confirmation"
    }

    /** The field's current value in a submission. */
    function Of(d: ProfileFormData): string
    {
      match this
      case Name => d.name
      case Email => d.email
      case OldPassword => d.oldPassword
      case Password => d.password
      case PasswordConfirmation => d.passwordConfirmation
    }

    /** Fields that take part in changing the password. */
    predicate IsPasswordField()
    {
      OldPassword? || Password? || PasswordConfirmation?
    }
  }

  /** The key of every field. */
  const FieldPaths: set<string> :=
    {"name", "email", "old_password", "password", "password_confirmation"}

  /** Distinct fields travel under distinct keys, and every key is a field's. */
  lemma PathsIdentifyFields()
    ensures forall f: Field, g: Field :: f.Path() == g.Path() ==> f == g
    ensures forall f: Field :: f.Path() in FieldPaths
    ensures forall p :: p in FieldPaths ==> exists f: Field :: f.Path() == p
  {
    assert Name.Path() == "name" && Email.Path() == "email";
    assert OldPassword.Path() == "old_password" && Password.Path() == "password";
    assert PasswordConfirmation.Path() == "password_confirmation";
  }

  /** The user asks for a password change: the current password was typed
      (its length is non-zero). */
  predicate ChangesPassword(d: ProfileFormData)
  {
    |d.oldPassword| != 0
  }

  /** The rule each field must satisfy for the submission to be accepted. */
  predicate RuleHolds(d: ProfileFormData, isEmail: string -> bool, f: Field)
  {
    match f
    case Name => d.name != ""
    case Email => d.email != "" && isEmail(d.email)
    case OldPassword => true
    case Password => ChangesPassword(d) ==> d.password != ""
    case PasswordConfirmation =>
      d.passwordConfirmation == d.password || d.passwordConfirmation == ""
  }

  /** Every field's rule holds. */
  predicate AllRulesHold(d: ProfileFormData, isEmail: string -> bool)
  {
    forall f: Field :: RuleHolds(d, isEmail, f)
  }
}
