/**
 * The registration form: the password rules and the order in which the
 * submit handler checks phone, password strength and confirmation before
 * handing the data to the user registry.
 */
module RegisterForm {
  import opened Types
  import opened Text
  import Store

  const MSG_MIN_LENGTH := "8 caracteres"
  const MSG_LOWERCASE := "una min\U{FA}scula"
  const MSG_UPPERCASE := "una may\U{FA}scula"
  const MSG_DIGIT := "un n\U{FA}mero"
  const MSG_SYMBOL := "un s\U{ED}mbolo"

  /** The five rules in the order the validator checks them. */
  const RULE_MESSAGES := [MSG_MIN_LENGTH, MSG_LOWERCASE, MSG_UPPERCASE, MSG_DIGIT, MSG_SYMBOL]

  /** The characters of the symbol class `[!@#$%^&*()_+\-=\[\]{};':"\\|,.<>\/?]`. */
  predicate IsSymbol(c: char)
  {
    c in "!@#$%^&*()_+-=[]{};':\"\\|,.<>/?"
  }

  predicate HasLower(p: string) { exists i :: 0 <= i < |p| && IsAsciiLower(p[i]) }
  predicate HasUpper(p: string) { exists i :: 0 <= i < |p| && IsAsciiUpper(p[i]) }
  predicate HasDigit(p: string) { exists i :: 0 <= i < |p| && IsAsciiDigit(p[i]) }
  predicate HasSymbol(p: string) { exists i :: 0 <= i < |p| && IsSymbol(p[i]) }

  /** Whether rule `k` (0 to 4, in `RULE_MESSAGES` order) holds of the password. */
  predicate RuleHolds(p: string, k: nat)
    requires k < 5
  {
    if k == 0 then |p| >= 8
    else if k == 1 then HasLower(p)
    else if k == 2 then HasUpper(p)
    else if k == 3 then HasDigit(p)
    else HasSymbol(p)
  }

  /** The messages of the rules among the first `k` that fail, in rule order. */
  function FailedRules(p: string, k: nat): (r: seq<string>)
    requires k <= 5
    ensures |r| <= k
    ensures forall m :: m in r ==> m in RULE_MESSAGES
  {
    if k == 0 then []
    else FailedRules(p, k - 1) + (if RuleHolds(p, k - 1) then [] else [RULE_MESSAGES[k - 1]])
  }

  lemma {:induction false} FailedRulesMembers(p: string, k: nat)
    requires k <= 5
    ensures forall j :: 0 <= j < 5 ==> (RULE_MESSAGES[j] in FailedRules(p, k) <==> j < k && !RuleHolds(p, j))
  {
    if k > 0 {
      FailedRulesMembers(p, k - 1);
    }
  }

  /** The messages in the list appear in rule order. */
  predicate InRuleOrder(errors: seq<string>)
  {
    forall i, j, a, b ::
      (0 <= i < j < |errors| && 0 <= a < 5 && 0 <= b < 5 && errors[i] == RULE_MESSAGES[a] && errors[j] == RULE_MESSAGES[b])
      ==> a < b
  }

  lemma {:induction false} FailedRulesOrdered(p: string, k: nat)
    requires k <= 5
    ensures InRuleOrder(FailedRules(p, k))
  {
    if k > 0 {
      FailedRulesOrdered(p, k - 1);
      FailedRulesMembers(p, k - 1);
      var pre := FailedRules(p, k - 1);
      var r := FailedRules(p, k);
      forall i, j, a, b | 0 <= i < j < |r| && 0 <= a < 5 && 0 <= b < 5 &&
        r[i] == RULE_MESSAGES[a] && r[j] == RULE_MESSAGES[b]
        ensures a < b
      {
        if j < |pre| {
          assert r[i] == pre[i] && r[j] == pre[j];
        } else {
          assert r[j] == RULE_MESSAGES[k - 1];
          assert b == k - 1;
          assert r[i] == pre[i];
          assert pre[i] in pre;
        }
      }
    }
  }

  /** All five rules hold. */
  predicate StrongPassword(p: string)
  {
    |p| >= 8 && HasLower(p) && HasUpper(p) && HasDigit(p) && HasSymbol(p)
  }

  lemma StrongIffAllRules(p: string)
    ensures StrongPassword(p) <==> forall j :: 0 <= j < 5 ==> RuleHolds(p, j)
  {
    assert RuleHolds(p, 0) <==> |p| >= 8;
    assert RuleHolds(p, 1) <==> HasLower(p);
    assert RuleHolds(p, 2) <==> HasUpper(p);
    assert RuleHolds(p, 3) <==> HasDigit(p);
    assert RuleHolds(p, 4) <==> HasSymbol(p);
  }

  /** No message at all exactly when the password is strong. */
  lemma NoFailedRulesIffStrong(p: string)
    ensures FailedRules(p, 5) == [] <==> StrongPassword(p)
  {
    FailedRulesMembers(p, 5);
    StrongIffAllRules(p);
    var r := FailedRules(p, 5);
    if r != [] {
      assert r[0] in r;
    }
  }

  /**
   * `validatePassword`: one message per failed rule, in rule order; none
   * exactly when the password is strong.
   */
  method ValidatePassword(pass: string) returns (errors: seq<string>)
    ensures errors == FailedRules(pass, 5)
    ensures |errors| <= 5
    ensures errors == [] <==> StrongPassword(pass)
    ensures forall j :: 0 <= j < 5 ==> (RULE_MESSAGES[j] in errors <==> !RuleHolds(pass, j))
    ensures InRuleOrder(errors)
  {
    errors := [];
    if |pass| < 8 { errors := errors + [MSG_MIN_LENGTH]; }
    assert errors == FailedRules(pass, 1);
    if !HasLower(pass) { errors := errors + [MSG_LOWERCASE]; }
    assert errors == FailedRules(pass, 2);
    if !HasUpper(pass) { errors := errors + [MSG_UPPERCASE]; }
    assert errors == FailedRules(pass, 3);
    if !HasDigit(pass) { errors := errors + [MSG_DIGIT]; }
    assert errors == FailedRules(pass, 4);
    if !HasSymbol(pass) { errors := errors + [MSG_SYMBOL]; }
    assert errors == FailedRules(pass, 5);
    FailedRulesMembers(pass, 5);
    FailedRulesOrdered(pass, 5);
    NoFailedRulesIffStrong(pass);
  }

  const MSG_PHONE_REQUIRED := "El n\U{FA}mero de tel\U{E9}fono es obligatorio."
  const MSG_WEAK_PASSWORD := "La contrase\U{F1}a no cumple con los requisitos."
  const MSG_PASSWORD_MISMATCH := "Las contrase\U{F1}as no coinciden."

  /** What the submit handler ends with: an error shown on the form, or a login as the new user. */
  datatype FormOutcome = FormError(message: string) | LoggedIn(phone: string)

  /** `email.trim() || undefined` and `password || undefined`. */
  function OrUndefined(s: string): (r: Option<string>)
    ensures r.Some? <==> s != ""
    ensures r.Some? ==> r.value == s
  {
    if s == "" then None else Some(s)
  }

  /**
   * `handleSubmit`: a blank phone is refused first; with an email, a weak
   * password and then a mismatching confirmation are refused; otherwise the
   * registry decides. Returns the new user list and the outcome.
   */
  function HandleSubmit(users: seq<RegisteredUser>, phone: string, email: string, password: string,
                        confirmPassword: string, userId: string): (seq<RegisteredUser>, FormOutcome)
  {
    if Trim(phone) == "" then (users, FormError(MSG_PHONE_REQUIRED))
    else if Trim(email) != "" && FailedRules(password, 5) != [] then (users, FormError(MSG_WEAK_PASSWORD))
    else if Trim(email) != "" && password != confirmPassword then (users, FormError(MSG_PASSWORD_MISMATCH))
    else
      var r := Store.Register(users, Trim(phone), OrUndefined(Trim(email)), OrUndefined(password), userId);
      if r.1.success && r.1.user.Some? then (r.0, LoggedIn(r.1.user.value.phone))
      else (r.0, FormError(r.1.message))
  }

  /** A blank phone is refused before anything else is looked at, and nothing is registered. */
  lemma BlankPhoneFirst(users: seq<RegisteredUser>, phone: string, email: string, password: string,
                        confirmPassword: string, userId: string)
    requires forall i :: 0 <= i < |phone| ==> IsWhitespace(phone[i])
    ensures HandleSubmit(users, phone, email, password, confirmPassword, userId) == (users, FormError(MSG_PHONE_REQUIRED))
  {
    TrimEmpty(phone);
  }

  /** With an email given, a weak password is refused even when the confirmation also differs. */
  lemma WeakPasswordBeforeMismatch(users: seq<RegisteredUser>, phone: string, email: string, password: string,
                                   confirmPassword: string, userId: string)
    requires Trim(phone) != "" && Trim(email) != ""
    requires !StrongPassword(password)
    ensures HandleSubmit(users, phone, email, password, confirmPassword, userId) == (users, FormError(MSG_WEAK_PASSWORD))
  {
    NoFailedRulesIffStrong(password);
  }

  /**
   * A login after submit means: the phone was not blank, an email brought a
   * strong, confirmed password, and the registry took the trimmed phone.
   */
  lemma LoggedInMeans(users: seq<RegisteredUser>, phone: string, email: string, password: string,
                      confirmPassword: string, userId: string)
    requires HandleSubmit(users, phone, email, password, confirmPassword, userId).1.LoggedIn?
    ensures Trim(phone) != ""
    ensures Trim(email) != "" ==> StrongPassword(password) && password == confirmPassword
    ensures HandleSubmit(users, phone, email, password, confirmPassword, userId).1 == LoggedIn(Trim(phone))
    ensures Store.Register(users, Trim(phone), OrUndefined(Trim(email)), OrUndefined(password), userId).1.success
  {
    NoFailedRulesIffStrong(password);
  }

  /** Without an email no password rule applies: a fresh phone always registers. */
  lemma PhoneOnlyRegisters(users: seq<RegisteredUser>, phone: string, password: string,
                           confirmPassword: string, userId: string)
    requires Trim(phone) != ""
    requires forall i :: 0 <= i < |users| ==> users[i].phone != Trim(phone)
    ensures HandleSubmit(users, phone, "", password, confirmPassword, userId).1 == LoggedIn(Trim(phone))
  {
    assert Trim("") == "";
  }
}
