/**
 * The login / register form: the email pattern, the validation rules that
 * fill the `errors` dictionary, the per-field input handler, the submit
 * handler and the three ways it is reached, its simulated two-second
 * requests, and the mode toggle.
 */
module LoginPage {
  import opened JsText
  import opened Timers

  // ---------------------------------------------------------------------
  // The email pattern `\S+@\S+\.\S+`, without anchors
  // ---------------------------------------------------------------------

  /** `\S+`: one or more characters, none of them whitespace. */
  predicate NonSpaceRun(t: string) {
    |t| > 0 && forall i :: 0 <= i < |t| ==> !IsSpace(t[i])
  }

  /** `t` is matched in full by `\S+@\S+\.\S+`. */
  ghost predicate WholeMatch(t: string) {
    exists p, q :: 0 < p < q < |t| && t[p] == '@' && t[q] == '.'
                   && NonSpaceRun(t[..p]) && NonSpaceRun(t[p + 1..q]) && NonSpaceRun(t[q + 1..])
  }

  /** `/\S+@\S+\.\S+/.test(s)`: some stretch of `s` is matched in full. */
  ghost predicate PatternTest(s: string) {
    exists a, e :: 0 <= a <= e <= |s| && WholeMatch(s[a..e])
  }

  /** The test by positions: an '@' with a non-space character before it, then a '.'
      with at least one character between them and one after it, none of which is
      whitespace. */
  predicate LooksLikeEmail(s: string) {
    exists i, j | 0 < i < j < |s| - 1 :: EmailAt(s, i, j)
  }

  /** An '@' at `i` and a '.' at `j` around which the pattern matches. */
  predicate EmailAt(s: string, i: int, j: int)
    requires 0 < i < j < |s| - 1
  {
    && i + 1 < j && s[i] == '@' && s[j] == '.'
    && !IsSpace(s[i - 1]) && !IsSpace(s[j + 1])
    && (forall k | i < k < j :: !IsSpace(s[k]))
  }

  /** A stretch matched in full by the pattern yields an '@' and a '.' that pass the
      position test. */
  lemma MatchIsEmailAt(s: string, a: nat, e: nat, p: nat, q: nat)
    requires a <= e <= |s|
    requires 0 < p < q < e - a && s[a + p] == '@' && s[a + q] == '.'
    requires NonSpaceRun(s[a..e][..p]) && NonSpaceRun(s[a..e][p + 1..q]) && NonSpaceRun(s[a..e][q + 1..])
    ensures 0 < a + p < a + q < |s| - 1 && EmailAt(s, a + p, a + q)
  {
    var t := s[a..e];
    var i, j := a + p, a + q;
    assert s[i - 1] == t[..p][p - 1];
    assert s[j + 1] == t[q + 1..][0];
    var mid := t[p + 1..q];
    forall k | i < k < j
      ensures !IsSpace(s[k])
    {
      assert s[k] == mid[k - i - 1];
    }
  }

  /** An '@' and a '.' that pass the position test are the middle of a stretch matched
      in full: one character before the '@' to one character after the '.'. */
  lemma EmailAtIsMatch(s: string, i: nat, j: nat)
    requires 0 < i < j < |s| - 1 && EmailAt(s, i, j)
    ensures WholeMatch(s[i - 1..j + 2])
  {
    var t := s[i - 1..j + 2];
    var p, q := 1, j - i + 1;
    assert t[..p] == [s[i - 1]];
    assert t[q + 1..] == [s[j + 1]];
    var mid := t[p + 1..q];
    forall k | 0 <= k < |mid|
      ensures !IsSpace(mid[k])
    {
      assert mid[k] == s[i + 1 + k];
    }
    assert t[p] == '@' && t[q] == '.';
  }

  /** The position test accepts exactly the strings the regular expression accepts. */
  lemma EmailTestExact(s: string)
    ensures PatternTest(s) <==> LooksLikeEmail(s)
  {
    if PatternTest(s) {
      var a, e :| 0 <= a <= e <= |s| && WholeMatch(s[a..e]);
      var t := s[a..e];
      var p, q :| 0 < p < q < |t| && t[p] == '@' && t[q] == '.'
                  && NonSpaceRun(t[..p]) && NonSpaceRun(t[p + 1..q]) && NonSpaceRun(t[q + 1..]);
      assert s[a + p] == t[p] && s[a + q] == t[q];
      MatchIsEmailAt(s, a, e, p, q);
    }
    if LooksLikeEmail(s) {
      var i, j :| 0 < i < j < |s| - 1 && EmailAt(s, i, j);
      EmailAtIsMatch(s, i, j);
    }
  }

  // ---------------------------------------------------------------------
  // Validation
  // ---------------------------------------------------------------------

  /** `loginType`: "login" or "register". */
  datatype Mode = SignIn | Register

  const EmailKey := "email"
  const PasswordKey := "password"
  const NameKey := "name"
  const ConfirmKey := "confirmPassword"

  /** The four form fields; also every key validation can record an error under. */
  const FieldKeys: set<string> := {EmailKey, PasswordKey, NameKey, ConfirmKey}

  /** The four field names are different keys. */
  lemma KeysDistinct()
    ensures EmailKey != PasswordKey && EmailKey != NameKey && EmailKey != ConfirmKey
    ensures PasswordKey != NameKey && PasswordKey != ConfirmKey && NameKey != ConfirmKey
  {
  }

  const EmailRequired := "Email é obrigatório"
  const EmailInvalid := "Email inválido"
  const PasswordRequired := "Senha é obrigatória"
  const PasswordTooShort := "Senha deve ter pelo menos 6 caracteres"
  const NameRequired := "Nome é obrigatório"
  const PasswordsDiffer := "Senhas não coincidem"

  /** The email rule: present, then shaped like an address. */
  function EmailError(email: string): Option<string> {
    if email == "" then Some(EmailRequired)
    else if !LooksLikeEmail(email) then Some(EmailInvalid)
    else None
  }

  /** The password rule: present, then at least six characters. */
  function PasswordError(password: string): Option<string> {
    if password == "" then Some(PasswordRequired)
    else if |password| < 6 then Some(PasswordTooShort)
    else None
  }

  /** The name rule, applied only when registering. */
  function NameError(mode: Mode, name: string): Option<string> {
    if mode == Register && name == "" then Some(NameRequired) else None
  }

  /** The confirmation rule, applied only when registering. */
  function ConfirmError(mode: Mode, password: string, confirm: string): Option<string> {
    if mode == Register && password != confirm then Some(PasswordsDiffer) else None
  }

  /** The message the rules give for `key`, or None when that field passes. */
  function FieldError(mode: Mode, data: map<string, string>, key: string): Option<string>
    requires FieldKeys <= data.Keys
  {
    if key == EmailKey then EmailError(data[EmailKey])
    else if key == PasswordKey then PasswordError(data[PasswordKey])
    else if key == NameKey then NameError(mode, data[NameKey])
    else if key == ConfirmKey then ConfirmError(mode, data[PasswordKey], data[ConfirmKey])
    else None
  }

  /** `m[key] = message` when a rule gives a message; `m` unchanged otherwise. */
  function Put(m: map<string, string>, key: string, message: Option<string>): map<string, string> {
    if message.Some? then m[key := message.value] else m
  }

  /** The dictionary validation should produce: each field's own rule, key by key.
      Only the four field names can appear, and every recorded message is non-empty,
      so each one is displayed under its field. */
  function ExpectedErrors(mode: Mode, data: map<string, string>): (m: map<string, string>)
    requires FieldKeys <= data.Keys
    ensures m.Keys <= FieldKeys
    ensures forall k :: k in m ==> m[k] != ""
    ensures forall k :: k in FieldKeys ==> (k in m <==> FieldError(mode, data, k).Some?)
  {
    map k | k in FieldKeys && FieldError(mode, data, k).Some? :: FieldError(mode, data, k).value
  }

  /** A dictionary that agrees with each field's rule, and holds nothing else, is the
      expected one. */
  lemma ErrorsByField(mode: Mode, data: map<string, string>, m: map<string, string>)
    requires FieldKeys <= data.Keys && m.Keys <= FieldKeys
    requires forall k :: k in FieldKeys ==> (k in m <==> FieldError(mode, data, k).Some?)
    requires forall k :: k in m ==> m[k] == FieldError(mode, data, k).value
    ensures m == ExpectedErrors(mode, data)
  {
  }

  /** Inserting each rule's message in turn, as the form does, gives the expected
      dictionary. */
  lemma ExpectedByInserts(mode: Mode, data: map<string, string>,
                          afterEmail: map<string, string>, afterPassword: map<string, string>,
                          afterName: map<string, string>, afterConfirm: map<string, string>)
    requires FieldKeys <= data.Keys
    requires afterEmail == Put(map[], EmailKey, EmailError(data[EmailKey]))
    requires afterPassword == Put(afterEmail, PasswordKey, PasswordError(data[PasswordKey]))
    requires afterName == Put(afterPassword, NameKey, NameError(mode, data[NameKey]))
    requires afterConfirm == Put(afterName, ConfirmKey, ConfirmError(mode, data[PasswordKey], data[ConfirmKey]))
    ensures afterConfirm == ExpectedErrors(mode, data)
  {
    KeysDistinct();
    ErrorsByField(mode, data, afterConfirm);
  }

  /** The form passes exactly when the email is present and well formed, the password has
      at least six characters and, when registering, the name is present and the
      confirmation equals the password. */
  lemma ValidIff(mode: Mode, data: map<string, string>)
    requires FieldKeys <= data.Keys
    ensures ExpectedErrors(mode, data) == map[] <==>
              && data[EmailKey] != "" && LooksLikeEmail(data[EmailKey])
              && |data[PasswordKey]| >= 6
              && (mode == Register ==> data[NameKey] != "" && data[PasswordKey] == data[ConfirmKey])
  {
    var m := ExpectedErrors(mode, data);
    if m == map[] {
      assert EmailKey !in m && PasswordKey !in m && NameKey !in m && ConfirmKey !in m;
    } else {
      var k :| k in m;
      assert FieldError(mode, data, k).Some?;
    }
  }

  /** Signing in never reports the name or the confirmation. */
  lemma SignInChecksEmailAndPasswordOnly(data: map<string, string>)
    requires FieldKeys <= data.Keys
    ensures NameKey !in ExpectedErrors(SignIn, data) && ConfirmKey !in ExpectedErrors(SignIn, data)
  {
  }

  /** When registering, the confirmation error depends only on the two passwords being
      different, whatever the password rules say. */
  lemma ConfirmIndependent(data: map<string, string>)
    requires FieldKeys <= data.Keys
    ensures ConfirmKey in ExpectedErrors(Register, data) <==> data[PasswordKey] != data[ConfirmKey]
    ensures ConfirmKey in ExpectedErrors(Register, data) ==>
              ExpectedErrors(Register, data)[ConfirmKey] == PasswordsDiffer
  {
  }

  /** The messages chosen for the email and the password. */
  lemma EmailAndPasswordMessages(mode: Mode, data: map<string, string>)
    requires FieldKeys <= data.Keys
    ensures var m := ExpectedErrors(mode, data);
            && (data[EmailKey] == "" ==> m[EmailKey] == EmailRequired)
            && (data[EmailKey] != "" && !LooksLikeEmail(data[EmailKey]) ==> m[EmailKey] == EmailInvalid)
            && (data[PasswordKey] == "" ==> m[PasswordKey] == PasswordRequired)
            && (0 < |data[PasswordKey]| < 6 ==> m[PasswordKey] == PasswordTooShort)
  {
  }

  /** The form data on mount and after each toggle: the four fields, empty. */
  const BlankForm: map<string, string> :=
    map[EmailKey := "", PasswordKey := "", NameKey := "", ConfirmKey := ""]

  /** A field's message is displayed only while it is present and non-empty. */
  predicate Shown(errors: map<string, string>, key: string) {
    key in errors && errors[key] != ""
  }

  function Toggled(mode: Mode): Mode {
    match mode
    case SignIn => Register
    case Register => SignIn
  }

  /** The body of validateForm up to `setErrors`: the rules checked one after the
      other, each inserting its message into a fresh dictionary when it fails. */
  method CollectErrors(mode: Mode, data: map<string, string>) returns (newErrors: map<string, string>)
    requires FieldKeys <= data.Keys
    ensures newErrors == ExpectedErrors(mode, data)
  {
    newErrors := map[];
    if data[EmailKey] == "" {
      newErrors := newErrors[EmailKey := EmailRequired];
    } else if !LooksLikeEmail(data[EmailKey]) {
      newErrors := newErrors[EmailKey := EmailInvalid];
    }
    ghost var afterEmail := newErrors;
    assert afterEmail == Put(map[], EmailKey, EmailError(data[EmailKey]));
    if data[PasswordKey] == "" {
      newErrors := newErrors[PasswordKey := PasswordRequired];
    } else if |data[PasswordKey]| < 6 {
      newErrors := newErrors[PasswordKey := PasswordTooShort];
    }
    ghost var afterPassword := newErrors;
    assert afterPassword == Put(afterEmail, PasswordKey, PasswordError(data[PasswordKey]));
    if mode == Register {
      if data[NameKey] == "" {
        newErrors := newErrors[NameKey := NameRequired];
      }
    }
    ghost var afterName := newErrors;
    assert afterName == Put(afterPassword, NameKey, NameError(mode, data[NameKey]));
    if mode == Register {
      if data[PasswordKey] != data[ConfirmKey] {
        newErrors := newErrors[ConfirmKey := PasswordsDiffer];
      }
    }
    ExpectedByInserts(mode, data, afterEmail, afterPassword, afterName, newErrors);
  }

  // ---------------------------------------------------------------------
  // The page's state
  // ---------------------------------------------------------------------

  /** The browser's constraint validation before a submission. The email field has
      `type="email"` and no `required`, and the form has no `noValidate`: an empty
      email always passes, and a non-empty one passes when the browser judges it a
      valid e-mail address (`emailWellFormed`, the browser's own verdict). When this
      fails the browser reports the field itself and `handleSubmit` does not run. */
  predicate BrowserAccepts(email: string, emailWellFormed: bool) {
    email == "" || emailWellFormed
  }

  class LoginForm {
    var loginType: Mode
    var formData: map<string, string>
    var errors: map<string, string>
    var isLoading: bool
    var now: nat
    var pending: seq<Timer<()>>

    /** The four fields are always present, the simulated requests' timers form an
        ordered queue inside the window, and while the page is loading the timer of the
        request that set it is still pending. Several requests can be in flight. */
    ghost predicate Valid()
      reads this
    {
      && FieldKeys <= formData.Keys
      && Ordered(pending) && Window(pending, now)
      && (isLoading ==> pending != [])
    }

    /** The page on mount: login mode, empty fields, no errors, not loading. */
    constructor ()
      ensures Valid()
      ensures loginType == SignIn && formData == BlankForm && errors == map[]
      ensures !isLoading && now == 0 && pending == []
    {
      loginType := SignIn;
      formData, errors := BlankForm, map[];
      isLoading, now, pending := false, 0, [];
    }

    /** handleInputChange(field, value): sets that one field; if its error is showing,
        the error is replaced by "" (the key stays), and no other error changes. */
    method InputChange(field: string, value: string)
      requires Valid()
      modifies this`formData, this`errors
      ensures Valid()
      ensures formData == old(formData)[field := value]
      ensures errors.Keys == old(errors).Keys
      ensures !Shown(errors, field)
      ensures Shown(old(errors), field) ==> errors[field] == ""
      ensures forall k :: k in errors && k != field ==> errors[k] == old(errors)[k]
    {
      formData := formData[field := value];
      if field in errors && errors[field] != "" {
        errors := errors[field := ""];
      }
    }

    /** validateForm: builds a fresh dictionary by one conditional insert per rule,
        replaces `errors` with it, and reports whether it is empty. */
    method ValidateForm() returns (valid: bool)
      requires Valid()
      modifies this`errors
      ensures errors == ExpectedErrors(loginType, formData)
      ensures valid <==> errors == map[]
    {
      var newErrors := CollectErrors(loginType, formData);
      errors := newErrors;
      valid := |newErrors| == 0;
    }

    /** handleSubmit: validates the form; a valid form starts loading and schedules the
        timer that ends it `Delay` later. It does not look at `isLoading`. */
    method HandleSubmit()
      requires Valid()
      modifies this`errors, this`isLoading, this`pending
      ensures Valid()
      ensures errors == ExpectedErrors(loginType, formData)
      ensures errors == map[] ==> isLoading && pending == old(pending) + [Timer(now + Delay, ())]
      ensures errors != map[] ==> isLoading == old(isLoading) && pending == old(pending)
    {
      var valid := ValidateForm();
      if !valid {
        return;
      }
      Schedule(pending, now, ());
      isLoading := true;
      pending := pending + [Timer(now + Delay, ())];
    }

    /** A click on the main "Entrar" / "Criar conta" button, which is `disabled` while
        loading. When enabled, the click submits the form if the browser's constraint
        validation lets it through. */
    method Submit(emailWellFormed: bool)
      requires Valid()
      modifies this`errors, this`isLoading, this`pending
      ensures Valid()
      ensures old(isLoading) || !BrowserAccepts(formData[EmailKey], emailWellFormed) ==>
                errors == old(errors) && isLoading == old(isLoading) && pending == old(pending)
      ensures !old(isLoading) && BrowserAccepts(formData[EmailKey], emailWellFormed) ==>
                && errors == ExpectedErrors(loginType, formData)
                && isLoading == (errors == map[])
                && pending == old(pending) + (if isLoading then [Timer(now + Delay, ())] else [])
    {
      if !isLoading && BrowserAccepts(formData[EmailKey], emailWellFormed) {
        HandleSubmit();
      }
    }

    /** A click on "Esqueci minha senha". It is rendered only in login mode, inside the
        form, with no `type` and no `disabled`, so it is a submit button that is never
        disabled; the browser's constraint validation still applies. */
    method ForgotPassword(emailWellFormed: bool)
      requires Valid()
      modifies this`errors, this`isLoading, this`pending
      ensures Valid()
      ensures loginType == Register || !BrowserAccepts(formData[EmailKey], emailWellFormed) ==>
                errors == old(errors) && isLoading == old(isLoading) && pending == old(pending)
      ensures loginType == SignIn && BrowserAccepts(formData[EmailKey], emailWellFormed) ==>
                && errors == ExpectedErrors(loginType, formData)
                && (errors == map[] ==> isLoading && pending == old(pending) + [Timer(now + Delay, ())])
                && (errors != map[] ==> isLoading == old(isLoading) && pending == old(pending))
    {
      if loginType == SignIn && BrowserAccepts(formData[EmailKey], emailWellFormed) {
        HandleSubmit();
      }
    }

    /** Enter in a text field: implicit submission goes through the form's default
        button, the first submit button in tree order. In login mode that is
        "Esqueci minha senha", which is never disabled; in register mode it is the main
        button, and a disabled default button blocks the submission. The browser's
        constraint validation applies either way. */
    method PressEnter(emailWellFormed: bool)
      requires Valid()
      modifies this`errors, this`isLoading, this`pending
      ensures Valid()
      ensures (loginType == Register && old(isLoading)) || !BrowserAccepts(formData[EmailKey], emailWellFormed) ==>
                errors == old(errors) && isLoading == old(isLoading) && pending == old(pending)
      ensures (loginType == SignIn || !old(isLoading)) && BrowserAccepts(formData[EmailKey], emailWellFormed) ==>
                && errors == ExpectedErrors(loginType, formData)
                && (errors == map[] ==> isLoading && pending == old(pending) + [Timer(now + Delay, ())])
                && (errors != map[] ==> isLoading == old(isLoading) && pending == old(pending))
    {
      if (loginType == SignIn || !isLoading) && BrowserAccepts(formData[EmailKey], emailWellFormed) {
        HandleSubmit();
      }
    }

    /** The "Cadastre-se" / "Faça login" button: flips the mode, clears every error and
        empties the four fields; a request in flight is left alone. */
    method ToggleMode()
      requires Valid()
      modifies this`loginType, this`errors, this`formData
      ensures Valid()
      ensures loginType == Toggled(old(loginType)) && errors == map[] && formData == BlankForm
    {
      loginType := Toggled(loginType);
      errors := map[];
      formData := BlankForm;
    }

    /** Lets the clock run to `t`: every request timer that comes due sets `isLoading`
        to false, whether or not other requests are still pending. */
    method AdvanceTo(t: nat)
      requires Valid() && now <= t
      modifies this`isLoading, this`pending, this`now
      ensures Valid() && now == t
      ensures pending == old(pending)[DueCount(old(pending), t)..]
      ensures isLoading == (old(isLoading) && DueCount(old(pending), t) == 0)
      ensures old(pending) != [] && old(pending)[0].deadline <= t ==> !isLoading
      ensures old(now) + Delay <= t ==> !isLoading && pending == []
    {
      ghost var k := DueCount(pending, t);
      var loading, rest := FireLoadingResets(isLoading, pending, t);
      FiredPrefix(pending, now, t, k);
      isLoading, pending, now := loading, rest, t;
    }
  }

  /** The request timers at the head of `queue` that are due at `t` fire one after the
      other, each setting loading to false; the rest stay pending. */
  method FireLoadingResets(isLoading: bool, queue: seq<Timer<()>>, t: nat)
    returns (loading: bool, rest: seq<Timer<()>>)
    ensures rest == queue[DueCount(queue, t)..]
    ensures loading == (isLoading && DueCount(queue, t) == 0)
  {
    loading, rest := isLoading, queue;
    ghost var fired := 0;
    while rest != [] && rest[0].deadline <= t
      invariant fired <= |queue| && rest == queue[fired..]
      invariant forall j :: 0 <= j < fired ==> queue[j].deadline <= t
      invariant loading == (isLoading && fired == 0)
    {
      loading := false;
      rest := rest[1..];
      fired := fired + 1;
    }
    DueCountStop(queue, t, fired);
  }

  /** Clicking the main button twice on an idle form: the second click, while the first
      request is in flight, changes nothing, and the form is no longer loading `Delay`
      after the first. */
  method DoubleSubmit(form: LoginForm, emailWellFormed: bool)
    requires form.Valid() && !form.isLoading && form.pending == []
    requires BrowserAccepts(form.formData[EmailKey], emailWellFormed)
    requires ExpectedErrors(form.loginType, form.formData) == map[]
    modifies form
    ensures form.Valid() && !form.isLoading && form.pending == [] && form.now == old(form.now) + Delay
  {
    var t0 := form.now;
    form.Submit(emailWellFormed);
    assert form.pending == [Timer(t0 + Delay, ())];
    form.AdvanceTo(t0 + 1);
    form.Submit(emailWellFormed);
    assert form.isLoading && form.pending == [Timer(t0 + Delay, ())];
    form.AdvanceTo(t0 + Delay);
  }

  /** In login mode the main button's `disabled` does not stop a second request: Enter,
      500 ms after the click, submits through "Esqueci minha senha" while the first
      request is in flight, and a second timer joins the queue. */
  method EnterWhileLoading(form: LoginForm, emailWellFormed: bool)
    requires form.Valid() && !form.isLoading && form.pending == [] && form.loginType == SignIn
    requires BrowserAccepts(form.formData[EmailKey], emailWellFormed)
    requires ExpectedErrors(SignIn, form.formData) == map[]
    modifies form`errors, form`isLoading, form`pending, form`now
    ensures form.Valid() && form.now == old(form.now) + 500 && form.isLoading
    ensures form.pending == [Timer(old(form.now) + Delay, ()), Timer(old(form.now) + 500 + Delay, ())]
  {
    var t0 := form.now;
    form.Submit(emailWellFormed);
    assert form.pending == [Timer(t0 + Delay, ())];
    form.AdvanceTo(t0 + 500);
    assert DueCount([Timer(t0 + Delay, ())], t0 + 500) == 0;
    form.PressEnter(emailWellFormed);
  }

  /** Continuing that scenario: the first timer ends loading at `t0 + 2000`, the main
      button starts a third request at `t0 + 2100`, and at `t0 + 2500` the second
      request's timer ends loading while the third request is still pending. */
  method EarlyTimerEndsLaterRequest(form: LoginForm, emailWellFormed: bool)
    requires form.Valid() && !form.isLoading && form.pending == [] && form.loginType == SignIn
    requires BrowserAccepts(form.formData[EmailKey], emailWellFormed)
    requires ExpectedErrors(SignIn, form.formData) == map[]
    modifies form`errors, form`isLoading, form`pending, form`now
    ensures form.Valid() && form.now == old(form.now) + 2500
    ensures !form.isLoading && form.pending == [Timer(old(form.now) + 2100 + Delay, ())]
  {
    var t0 := form.now;
    var first, second, third := Timer(t0 + Delay, ()), Timer(t0 + 500 + Delay, ()), Timer(t0 + 2100 + Delay, ());
    EnterWhileLoading(form, emailWellFormed);
    form.AdvanceTo(t0 + 2100);
    assert DueCount([first, second], t0 + 2100) == 1 by {
      DueCountStop([first, second], t0 + 2100, 1);
    }
    assert !form.isLoading && form.pending == [second];
    form.Submit(emailWellFormed);
    assert form.pending == [second, third];
    form.AdvanceTo(t0 + 2500);
    assert DueCount([second, third], t0 + 2500) == 1 by {
      DueCountStop([second, third], t0 + 2500, 1);
    }
  }
}
