/**
 * The sign-up form: the password-strength meter, the pre-checks of the
 * submit handler, the classification of the server's answer and the rule
 * that disables the submit button.
 */
module SignupPage {
  import opened Wrappers
  import opened Http
  import opened Ui
  import JsText
  import AuthContext

  datatype Strength = Strength(score: nat, message: string, color: string)

  datatype SignupForm = SignupForm(name: string, email: string, password: string, confirmPassword: string)

  /** The sign-up endpoint answers with any status (`validateStatus` accepts
      them all) and possibly a `message`. */
  datatype SignupResponse = SignupResponse(status: int, message: Option<string>)

  /** The result of one submit: whether the request was sent, the effects in
      the order they were issued (a toast with the loading toast's id
      replaces it), the form afterwards and the session afterwards. */
  datatype Submitted = Submitted(requested: bool, effects: seq<Effect>, form: SignupForm, session: AuthContext.AuthState)

  const EmptyForm := SignupForm("", "", "", "")
  const ShortPassword := "\U{274C} Password must be at least 6 characters"
  const Mismatch := "\U{274C} Passwords do not match"
  const FailedPrefix := "Signup failed: "
  const Creating := "Creating your account..."

  /** `/[A-Z]/` */
  predicate HasUpper(pw: string) {
    exists i :: 0 <= i < |pw| && 'A' <= pw[i] <= 'Z'
  }

  /** `/\d/` (ASCII digits only, as in ECMAScript). */
  predicate HasDigit(pw: string) {
    exists i :: 0 <= i < |pw| && '0' <= pw[i] <= '9'
  }

  predicate IsAlphanumeric(c: char) {
    'A' <= c <= 'Z' || 'a' <= c <= 'z' || '0' <= c <= '9'
  }

  /** `/[^A-Za-z0-9]/` */
  predicate HasSpecial(pw: string) {
    exists i :: 0 <= i < |pw| && !IsAlphanumeric(pw[i])
  }

  function Bit(b: bool): nat {
    if b then 1 else 0
  }

  /** The four things the meter rewards once the length minimum is met. */
  datatype Criterion = Upper | Digit | Special | Long

  const Criteria: seq<Criterion> := [Upper, Digit, Special, Long]

  predicate Meets(pw: string, c: Criterion) {
    match c
    case Upper => HasUpper(pw)
    case Digit => HasDigit(pw)
    case Special => HasSpecial(pw)
    case Long => |pw| >= 8
  }

  /** How many of the criteria `cs` the password meets. */
  function CountMet(pw: string, cs: seq<Criterion>): (n: nat)
    ensures n <= |cs|
    ensures n == |cs| <==> forall i :: 0 <= i < |cs| ==> Meets(pw, cs[i])
    ensures n == 0 <==> forall i :: 0 <= i < |cs| ==> !Meets(pw, cs[i])
  {
    if cs == [] then 0
    else
      assert forall i :: 0 < i < |cs| ==> cs[i] == cs[1..][i - 1];
      Bit(Meets(pw, cs[0])) + CountMet(pw, cs[1..])
  }

  /** The number of the four criteria a password meets. */
  function CriteriaMet(pw: string): (n: nat)
    ensures n <= 4
  {
    CountMet(pw, Criteria)
  }

  /** Each of the four criteria is worth one point. */
  lemma CriteriaScore(pw: string)
    ensures CriteriaMet(pw)
         == Bit(HasUpper(pw)) + Bit(HasDigit(pw)) + Bit(HasSpecial(pw)) + Bit(|pw| >= 8)
  {
    var cs := Criteria;
    assert cs[1..] == [Digit, Special, Long];
    assert cs[1..][1..] == [Special, Long];
    assert cs[1..][1..][1..] == [Long];
    assert cs[1..][1..][1..][1..] == [];
    assert CountMet(pw, [Long]) == Bit(|pw| >= 8);
    assert CountMet(pw, [Special, Long]) == Bit(HasSpecial(pw)) + Bit(|pw| >= 8);
    assert CountMet(pw, [Digit, Special, Long])
        == Bit(HasDigit(pw)) + Bit(HasSpecial(pw)) + Bit(|pw| >= 8);
  }

  /** The label and colour of a score of a long-enough password. */
  function Band(score: nat): (r: (string, string))
    ensures score <= 2 ==> r == ("Weak", "red")
    ensures score == 3 ==> r == ("Medium", "orange")
    ensures score >= 4 ==> r == ("Strong", "green")
  {
    if score <= 2 then ("Weak", "red")
    else if score <= 3 then ("Medium", "orange")
    else ("Strong", "green")
  }

  /** `checkPasswordStrength`: a password shorter than 6 scores 0; otherwise
      one point for the length and one per criterion met (an upper-case
      letter, a digit, a symbol, at least 8 characters). */
  function CheckPasswordStrength(pw: string): (r: Strength)
    ensures r.score == 0 <==> |pw| < 6
    ensures |pw| < 6 ==> r == Strength(0, "Password must be at least 6 characters", "red")
    ensures |pw| >= 6 ==> 1 <= r.score <= 5 && (r.message, r.color) == Band(r.score)
    ensures |pw| >= 6 ==> r.score == 1 + CriteriaMet(pw)
    ensures r.score == 5 <==> |pw| >= 8 && HasUpper(pw) && HasDigit(pw) && HasSpecial(pw)
    ensures r.score == 1 <==> |pw| in {6, 7} && !HasUpper(pw) && !HasDigit(pw) && !HasSpecial(pw)
  {
    CriteriaScore(pw);
    if |pw| < 6 then Strength(0, "Password must be at least 6 characters", "red")
    else
      var score := 1 + Bit(HasUpper(pw)) + Bit(HasDigit(pw)) + Bit(HasSpecial(pw)) + Bit(|pw| >= 8);
      var band := Band(score);
      Strength(score, band.0, band.1)
  }

  /** Typing more characters never lowers the score of a password that is
      already long enough. */
  lemma StrengthMonotone(pw: string, more: string)
    requires |pw| >= 6
    ensures CheckPasswordStrength(pw).score <= CheckPasswordStrength(pw + more).score
  {
    var longer := pw + more;
    if HasUpper(pw) {
      var i :| 0 <= i < |pw| && 'A' <= pw[i] <= 'Z';
      assert longer[i] == pw[i];
    }
    if HasDigit(pw) {
      var i :| 0 <= i < |pw| && '0' <= pw[i] <= '9';
      assert longer[i] == pw[i];
    }
    if HasSpecial(pw) {
      var i :| 0 <= i < |pw| && !IsAlphanumeric(pw[i]);
      assert longer[i] == pw[i];
    }
  }

  /** The meter as the effect on `formData.password` drives it: an empty
      password resets it to score 0, no message, grey. */
  function StrengthFor(pw: string): (r: Strength)
    ensures pw == "" ==> r == Strength(0, "", "gray")
    ensures pw != "" ==> r == CheckPasswordStrength(pw)
    ensures r.score == 0 <==> |pw| < 6
  {
    if pw == "" then Strength(0, "", "gray") else CheckPasswordStrength(pw)
  }

  /** The submit button's `disabled` attribute. */
  function SubmitDisabled(strength: Strength, form: SignupForm): bool {
    strength.score == 0 || form.password != form.confirmPassword
  }

  /** The pre-checks of `handleSubmit` that run before any request. */
  predicate PassesPrechecks(form: SignupForm) {
    |form.password| >= 6 && form.password == form.confirmPassword
  }

  /** The button is enabled exactly when the submit handler's pre-checks
      would pass, so a click on an enabled button always sends the request. */
  lemma EnabledIffPrechecksPass(form: SignupForm)
    ensures !SubmitDisabled(StrengthFor(form.password), form) <==> PassesPrechecks(form)
  {
  }

  /** The toast text for a non-201 answer: a 400 always means the e-mail is
      taken, whatever the server said; any other status shows the server's
      message, or a default when it has none. */
  function FailureText(resp: SignupResponse): (text: string)
    ensures resp.status == 400 ==> text == FailedPrefix + "Email already exists"
    ensures resp.status != 400 && JsText.Truthy(resp.message) ==> text == FailedPrefix + resp.message.value
    ensures resp.status != 400 && !JsText.Truthy(resp.message) ==>
      text == FailedPrefix + "Something went wrong during signup"
  {
    if resp.status == 400 then FailedPrefix + "Email already exists"
    else FailedPrefix + JsText.OrElse(resp.message, "Something went wrong during signup")
  }

  /** `handleSubmit` as written. The pre-checks reject a short password, then
      a mismatched confirmation, before any request. On a 201 the success
      toast is issued and then `setIsAuthenticated(true)` is called; the auth
      context exposes no such member, so the call throws inside the `try`
      and the catch replaces the success toast with the network-error text;
      no navigation happens and the form keeps its values. */
  function Submit(form: SignupForm, session: AuthContext.AuthState, reply: Reply<SignupResponse>): (r: Submitted)
    ensures |form.password| < 6 ==> r == Submitted(false, [ToastError(ShortPassword)], form, session)
    ensures |form.password| >= 6 && form.password != form.confirmPassword ==>
      r == Submitted(false, [ToastError(Mismatch)], form, session)
    ensures PassesPrechecks(form) ==> r.requested && |r.effects| >= 2 && r.effects[0] == ToastLoading(Creating)
    ensures PassesPrechecks(form) && reply.Fail? ==>
      r.effects == [ToastLoading(Creating), ToastError("Signup failed: Network error")]
    ensures PassesPrechecks(form) && reply.Ok? && reply.body.status != 201 ==>
      r.effects == [ToastLoading(Creating), ToastError(FailureText(reply.body))] && r.form == form
    ensures r.session == session
  {
    if |form.password| < 6 then Submitted(false, [ToastError(ShortPassword)], form, session)
    else if form.password != form.confirmPassword then Submitted(false, [ToastError(Mismatch)], form, session)
    else
      match reply
      case Fail(_) => Submitted(true, [ToastLoading(Creating), ToastError("Signup failed: Network error")], form, session)
      case Ok(resp) =>
        if resp.status != 201 then Submitted(true, [ToastLoading(Creating), ToastError(FailureText(resp))], form, session)
        else if "setIsAuthenticated" in AuthContext.ProvidedMembers then
          Submitted(true, [ToastLoading(Creating), ToastSuccess("Signup successful!"), Navigate("/")],
                    EmptyForm, session.(isAuthenticated := true))
        else
          Submitted(true, [ToastLoading(Creating), ToastSuccess("Signup successful!"),
                           ToastError("Signup failed: Network error")], form, session)
  }

  /** A created account is reported as a network failure: the last toast is
      the error, nothing navigates, the form is not cleared and the session
      is not marked signed in. */
  lemma CreatedAccountReportedAsFailure(form: SignupForm, session: AuthContext.AuthState, message: Option<string>)
    requires PassesPrechecks(form)
    ensures var r := Submit(form, session, Ok(SignupResponse(201, message)));
      && r.effects[|r.effects| - 1] == ToastError("Signup failed: Network error")
      && !Navigates(r.effects)
      && r.form == form
      && r.session == session
  {
    var r := Submit(form, session, Ok(SignupResponse(201, message)));
    assert "setIsAuthenticated" !in AuthContext.ProvidedMembers;
    assert r.effects == [ToastLoading(Creating), ToastSuccess("Signup successful!"), ToastError("Signup failed: Network error")];
  }

  /** `handleSubmit` as evidently intended: a 201 marks the session signed
      in, goes home and clears the form. */
  function SubmitIntended(form: SignupForm, session: AuthContext.AuthState, reply: Reply<SignupResponse>): (r: Submitted)
    ensures PassesPrechecks(form) && reply.Ok? && reply.body.status == 201 ==>
      && r.requested
      && r.effects == [ToastLoading(Creating), ToastSuccess("Signup successful!"), Navigate("/")]
      && r.form == EmptyForm
      && r.session == session.(isAuthenticated := true)
      && !ReportsError(r.effects)
  {
    if PassesPrechecks(form) && reply.Ok? && reply.body.status == 201 then
      Submitted(true, [ToastLoading(Creating), ToastSuccess("Signup successful!"), Navigate("/")],
                EmptyForm, session.(isAuthenticated := true))
    else Submit(form, session, reply)
  }

  /** The correction touches only the 201 path and keeps the session
      invariant of the auth context. */
  lemma IntendedDiffersOnlyOnCreated(form: SignupForm, session: AuthContext.AuthState, reply: Reply<SignupResponse>)
    ensures !(PassesPrechecks(form) && reply.Ok? && reply.body.status == 201) ==>
      SubmitIntended(form, session, reply) == Submit(form, session, reply)
    ensures AuthContext.SignedOutHasNoUser(session) ==>
      AuthContext.SignedOutHasNoUser(SubmitIntended(form, session, reply).session)
  {
  }
}
