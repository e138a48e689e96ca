/**
 The profile screen's two handlers with their I/O made visible: each handler
 is a function from its inputs, and from how the server answers, to the trace
 of events the screen emits (form errors set, requests sent, cached user
 replaced, route changed, toast shown). The server's answer is a parameter;
 the handlers themselves never fail.
 */
module ProfileController {
  import opened ValidationErrors
  import opened ProfileForm
  import opened Schema

  datatype Option<T> = None | Some(value: T)

  /** The signed-in user, as the server returns it. */
  datatype User = User(name: string, email: string, avatarUrl: string)

  /** A file picked in the avatar input. */
  datatype File = File(name: string, content: seq<bv8>)

  datatype ToastKind = Success | Error

  datatype Toast = Toast(kind: ToastKind, title: string, description: string)

  /** Something the screen does that can be observed from outside it. */
  datatype Event =
    | SetErrors(errors: Errors)                   // the form shows these inline errors
    | PutProfile(payload: map<string, string>)    // PUT /profile
    | PatchAvatar(avatar: Option<File>)           // PATCH /users/avatar, multipart field "avatar"
    | UpdateUser(user: User)                      // the cached user is replaced
    | Navigate(route: string)
    | AddToast(toast: Toast)
  {
    predicate IsRequest()
    {
      PutProfile? || PatchAvatar?
    }

    predicate IsToast(kind: ToastKind)
    {
      AddToast? && toast.kind == kind
    }
  }

  /** How the server answers a request: with the updated user, or not at all. */
  datatype Response = Ok(user: User) | Rejected

  const Dashboard := "/dashboard"

  const ProfileUpdated := Toast(Success, "Perfil Atualizado!",
    "Suas informações do perfil foram atualizadas com sucesso!")

  const ProfileUpdateFailed := Toast(Error, "Erro na atualização",
    "Ocorreu um eror ao atualizar o perfil, tente novamente.")

  const AvatarUpdated := Toast(Success, "Avatar atualizado", "")

  /** JavaScript truthiness of a string: only the empty string is false. */
  predicate Truthy(s: string)
  {
    s != ""
  }

  /** The request body of a profile update: name and e-mail always, the three
      password fields only when a current password was typed. */
  function BuildPayload(d: ProfileFormData): (r: map<string, string>)
    ensures forall f: Field :: f.Path() in r <==> (!f.IsPasswordField() || ChangesPassword(d))
    ensures forall f: Field :: f.Path() in r ==> r[f.Path()] == f.Of(d)
    ensures r.Keys <= FieldPaths
  {
    var always := map["name" := d.name, "email" := d.email];
    if Truthy(d.oldPassword) then
      always + map["old_password" := d.oldPassword, "password" := d.password,
                   "password_confirmation" := d.passwordConfirmation]
    else always
  }

  /** handleSubmit: clear the form's errors, validate, and either show the
      errors or send the update and report how the server answered. */
  function HandleSubmit(d: ProfileFormData, isEmail: string -> bool,
                        response: Response): (trace: seq<Event>)
    ensures |trace| >= 2 && trace[0] == SetErrors(map[])
    ensures !AllRulesHold(d, isEmail) ==>
              && |trace| == 2
              && trace[1].SetErrors?
              && trace[1].errors.Keys <= FieldPaths
              && (forall f: Field :: f.Path() in trace[1].errors <==> !RuleHolds(d, isEmail, f))
              && (forall f: Field :: f.Path() in trace[1].errors ==>
                    trace[1].errors[f.Path()] == ExpectedMessage(d, f))
    ensures AllRulesHold(d, isEmail) ==> trace[1] == PutProfile(BuildPayload(d))
    ensures AllRulesHold(d, isEmail) && response.Ok? ==>
              trace[2..] == [UpdateUser(response.user), Navigate(Dashboard), AddToast(ProfileUpdated)]
    ensures AllRulesHold(d, isEmail) && response.Rejected? ==>
              trace[2..] == [AddToast(ProfileUpdateFailed)]
  {
    var cleared := [SetErrors(map[])];
    match Validate(d, isEmail)
    case Invalid(inner) =>
      ErrorMapMatchesRules(d, isEmail);
      cleared + [SetErrors(GetValidationErrors(inner))]
    case Valid =>
      var sent := cleared + [PutProfile(BuildPayload(d))];
      match response
      case Ok(user) => sent + [UpdateUser(user), Navigate(Dashboard), AddToast(ProfileUpdated)]
      case Rejected => sent + [AddToast(ProfileUpdateFailed)]
  }

  /** handleAvatarChange: with no file list, do nothing; otherwise upload the
      list's first entry and, when the server answers, replace the cached user
      and confirm. `PatchAvatar(None)` is the request sent for an empty list,
      whose first entry is `undefined`. A rejected upload is not handled. */
  function HandleAvatarChange(files: Option<seq<File>>, response: Response): (trace: seq<Event>)
    ensures files.None? ==> trace == []
    ensures files.Some? ==> |trace| >= 1 && trace[0].PatchAvatar?
    ensures files.Some? && |files.value| > 0 ==> trace[0].avatar == Some(files.value[0])
    ensures files.Some? && |files.value| == 0 ==> trace[0].avatar == None
    ensures files.Some? && response.Ok? ==>
              trace[1..] == [UpdateUser(response.user), AddToast(AvatarUpdated)]
    ensures files.Some? && response.Rejected? ==> |trace| == 1
  {
    match files
    case None => []
    case Some(list) =>
      var sent := [PatchAvatar(if |list| > 0 then Some(list[0]) else None)];
      match response
      case Ok(user) => sent + [UpdateUser(user), AddToast(AvatarUpdated)]
      case Rejected => sent
  }

  /** The cached user after the events of `trace`, starting from `current`. */
  function CachedUser(current: User, trace: seq<Event>): User
    decreases |trace|
  {
    if |trace| == 0 then current
    else CachedUser(if trace[0].UpdateUser? then trace[0].user else current, trace[1..])
  }

  function Requests(trace: seq<Event>): nat
  {
    if |trace| == 0 then 0 else (if trace[0].IsRequest() then 1 else 0) + Requests(trace[1..])
  }

  function Navigations(trace: seq<Event>): nat
  {
    if |trace| == 0 then 0 else (if trace[0].Navigate? then 1 else 0) + Navigations(trace[1..])
  }

  function Toasts(trace: seq<Event>, kind: ToastKind): nat
  {
    if |trace| == 0 then 0 else (if trace[0].IsToast(kind) then 1 else 0) + Toasts(trace[1..], kind)
  }

  /** Replaying a concatenation replays its parts in turn. */
  lemma {:induction false} CachedUserAppend(current: User, a: seq<Event>, b: seq<Event>)
    ensures CachedUser(current, a + b) == CachedUser(CachedUser(current, a), b)
    decreases |a|
  {
    if |a| == 0 {
      assert a + b == b;
    } else {
      assert (a + b)[0] == a[0] && (a + b)[1..] == a[1..] + b;
      CachedUserAppend(if a[0].UpdateUser? then a[0].user else current, a[1..], b);
    }
  }

  /** Counting events distributes over concatenation. */
  lemma {:induction false} CountsAppend(a: seq<Event>, b: seq<Event>)
    ensures Requests(a + b) == Requests(a) + Requests(b)
    ensures Navigations(a + b) == Navigations(a) + Navigations(b)
    ensures forall kind :: Toasts(a + b, kind) == Toasts(a, kind) + Toasts(b, kind)
    decreases |a|
  {
    if |a| == 0 {
      assert a + b == b;
    } else {
      assert (a + b)[0] == a[0] && (a + b)[1..] == a[1..] + b;
      CountsAppend(a[1..], b);
    }
  }

  /** What a single event contributes to the observers. */
  lemma SingleEventObservers(e: Event, current: User)
    ensures Requests([e]) == (if e.IsRequest() then 1 else 0)
    ensures Navigations([e]) == (if e.Navigate? then 1 else 0)
    ensures forall kind :: Toasts([e], kind) == (if e.IsToast(kind) then 1 else 0)
    ensures CachedUser(current, [e]) == (if e.UpdateUser? then e.user else current)
  {
  }

  /** A failed validation sends nothing, changes no user, goes nowhere and
      shows no toast: the errors are only handed to the form. */
  lemma InvalidSubmitStaysLocal(d: ProfileFormData, isEmail: string -> bool,
                                response: Response, current: User)
    requires !AllRulesHold(d, isEmail)
    ensures var trace := HandleSubmit(d, isEmail, response);
      && Requests(trace) == 0
      && Navigations(trace) == 0
      && Toasts(trace, Success) == 0 && Toasts(trace, Error) == 0
      && CachedUser(current, trace) == current
  {
    var trace := HandleSubmit(d, isEmail, response);
    assert trace == [trace[0]] + [trace[1]];
    SingleEventObservers(trace[0], current);
    SingleEventObservers(trace[1], current);
    CountsAppend([trace[0]], [trace[1]]);
    CachedUserAppend(current, [trace[0]], [trace[1]]);
  }

  /** A valid submission the server accepts sends one request, makes the
      returned user the cached one, navigates to the dashboard once and shows
      one success toast and no error toast. */
  lemma AcceptedSubmitReplacesUser(d: ProfileFormData, isEmail: string -> bool,
                                   user: User, current: User)
    requires AllRulesHold(d, isEmail)
    ensures var trace := HandleSubmit(d, isEmail, Ok(user));
      && Requests(trace) == 1
      && Navigations(trace) == 1
      && Toasts(trace, Success) == 1 && Toasts(trace, Error) == 0
      && CachedUser(current, trace) == user
  {
    var trace := HandleSubmit(d, isEmail, Ok(user));
    var e0, e1, e2, e3, e4 := trace[0], trace[1], trace[2], trace[3], trace[4];
    assert trace == [e0] + [e1] + [e2] + [e3] + [e4];
    SingleEventObservers(e0, current);
    SingleEventObservers(e1, current);
    SingleEventObservers(e2, current);
    SingleEventObservers(e3, user);
    SingleEventObservers(e4, user);
    CountsAppend([e0], [e1]);
    CachedUserAppend(current, [e0], [e1]);
    CountsAppend([e0] + [e1], [e2]);
    CachedUserAppend(current, [e0] + [e1], [e2]);
    CountsAppend([e0] + [e1] + [e2], [e3]);
    CachedUserAppend(current, [e0] + [e1] + [e2], [e3]);
    CountsAppend([e0] + [e1] + [e2] + [e3], [e4]);
    CachedUserAppend(current, [e0] + [e1] + [e2] + [e3], [e4]);
  }

  /** A valid submission the server rejects sends one request, keeps the
      cached user, does not navigate and shows exactly one error toast. */
  lemma RejectedSubmitKeepsUser(d: ProfileFormData, isEmail: string -> bool, current: User)
    requires AllRulesHold(d, isEmail)
    ensures var trace := HandleSubmit(d, isEmail, Rejected);
      && Requests(trace) == 1
      && Navigations(trace) == 0
      && Toasts(trace, Error) == 1 && Toasts(trace, Success) == 0
      && CachedUser(current, trace) == current
  {
    var trace := HandleSubmit(d, isEmail, Rejected);
    var e0, e1, e2 := trace[0], trace[1], trace[2];
    assert trace == [e0] + [e1] + [e2];
    SingleEventObservers(e0, current);
    SingleEventObservers(e1, current);
    SingleEventObservers(e2, current);
    CountsAppend([e0], [e1]);
    CachedUserAppend(current, [e0], [e1]);
    CountsAppend([e0] + [e1], [e2]);
    CachedUserAppend(current, [e0] + [e1], [e2]);
  }

  /** The password fields are sent exactly when the password is required, so
      a password that is sent is never empty once validation has passed. */
  lemma SentPasswordIsNonEmpty(d: ProfileFormData, isEmail: string -> bool)
    requires AllRulesHold(d, isEmail)
    ensures "password" in BuildPayload(d) <==> ChangesPassword(d)
    ensures "password" in BuildPayload(d) ==> BuildPayload(d)["password"] != ""
  {
    assert Password.Path() == "password";
    assert RuleHolds(d, isEmail, Password);
  }

  /** With no file list the avatar handler sends nothing and changes nothing. */
  lemma NoFilesNoRequest(response: Response, current: User)
    ensures var trace := HandleAvatarChange(None, response);
      && Requests(trace) == 0
      && Toasts(trace, Success) == 0 && Toasts(trace, Error) == 0
      && CachedUser(current, trace) == current
  {
  }

  /** An accepted upload makes the returned user the cached one and shows one
      success toast. */
  lemma AcceptedUploadReplacesUser(files: seq<File>, user: User, current: User)
    ensures var trace := HandleAvatarChange(Some(files), Ok(user));
      && Requests(trace) == 1
      && Toasts(trace, Success) == 1 && Toasts(trace, Error) == 0
      && CachedUser(current, trace) == user
  {
    var trace := HandleAvatarChange(Some(files), Ok(user));
    var e0, e1, e2 := trace[0], trace[1], trace[2];
    assert trace == [e0] + [e1] + [e2];
    SingleEventObservers(e0, current);
    SingleEventObservers(e1, current);
    SingleEventObservers(e2, user);
    CountsAppend([e0], [e1]);
    CachedUserAppend(current, [e0], [e1]);
    CountsAppend([e0] + [e1], [e2]);
    CachedUserAppend(current, [e0] + [e1], [e2]);
  }

  /** A rejected upload is silent: after the request nothing happens, no
      toast of either kind is shown and the cached user stays as it was. */
  lemma RejectedUploadIsSilent(files: seq<File>, current: User)
    ensures var trace := HandleAvatarChange(Some(files), Rejected);
      && |trace| == 1 && Requests(trace) == 1
      && Toasts(trace, Success) == 0 && Toasts(trace, Error) == 0
      && CachedUser(current, trace) == current
  {
  }

  /** A cancelled selection arrives as an empty list, not as no list: the
      upload is still sent, carrying no file. */
  lemma EmptySelectionStillUploads(response: Response, current: User)
    ensures var trace := HandleAvatarChange(Some([]), response);
      && trace[0] == PatchAvatar(None)
      && Requests(trace) == 1
  {
    var trace := HandleAvatarChange(Some([]), response);
    var rest := trace[1..];
    assert trace == [trace[0]] + rest;
    SingleEventObservers(trace[0], current);
    CountsAppend([trace[0]], rest);
    if response.Ok? {
      var e1, e2 := rest[0], rest[1];
      assert rest == [e1] + [e2];
      SingleEventObservers(e1, current);
      SingleEventObservers(e2, current);
      CountsAppend([e1], [e2]);
    } else {
      assert rest == [];
    }
  }
}
