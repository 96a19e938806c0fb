/** The password rules of the reset-password form
    (`src/app/login/reset-password/page.tsx`): `newPassword` must match
    `/^(?=.*[0-9])(?=.*[!@#$%^&*])[a-zA-Z0-9!@#$%^&*]{8,}$/` and is required,
    and `confirmNewPassword`, when it is not empty, must equal it. */
module ResetPassword {
  import opened Wrappers

  predicate IsDigit(c: char) {
    '0' <= c <= '9'
  }

  predicate IsLetter(c: char) {
    'a' <= c <= 'z' || 'A' <= c <= 'Z'
  }

  /** The character class `[!@#$%^&*]`. */
  predicate IsSymbol(c: char) {
    c in "!@#$%^&*"
  }

  /** The character class `[a-zA-Z0-9!@#$%^&*]`. */
  predicate InPasswordClass(c: char) {
    IsLetter(c) || IsDigit(c) || IsSymbol(c)
  }

  /** The characters a JavaScript `.` does not match (no `s` flag). */
  predicate IsLineTerminator(c: char) {
    c == '\n' || c == '\r' || c == '\U{2028}' || c == '\U{2029}'
  }

  predicate NoLineTerminator(s: string) {
    forall j | 0 <= j < |s| :: !IsLineTerminator(s[j])
  }

  // ---- The regular expression, part by part ----

  /** `(?=.*[0-9])` at the start of the input. */
  predicate DigitLookahead(s: string) {
    exists k | 0 <= k < |s| :: IsDigit(s[k]) && NoLineTerminator(s[..k])
  }

  /** `(?=.*[!@#$%^&*])` at the start of the input. */
  predicate SymbolLookahead(s: string) {
    exists k | 0 <= k < |s| :: IsSymbol(s[k]) && NoLineTerminator(s[..k])
  }

  /** `[a-zA-Z0-9!@#$%^&*]{8,}$`, anchored at the start. */
  predicate ClassRunMatches(s: string) {
    |s| >= 8 && forall i | 0 <= i < |s| :: InPasswordClass(s[i])
  }

  predicate MatchesPattern(s: string) {
    DigitLookahead(s) && SymbolLookahead(s) && ClassRunMatches(s)
  }

  // ---- The rule in words ----

  /** At least eight characters, all from the class, at least one digit and at
      least one symbol. No letter is required and there is no maximum length. */
  predicate StrongPassword(s: string) {
    |s| >= 8 &&
    (forall i | 0 <= i < |s| :: InPasswordClass(s[i])) &&
    (exists i | 0 <= i < |s| :: IsDigit(s[i])) &&
    (exists i | 0 <= i < |s| :: IsSymbol(s[i]))
  }

  /** The pattern says what the rule says: a class character is never a line
      terminator, so the `.*` of each lookahead can always reach the digit or
      symbol the rule asks for. */
  lemma PatternIsStrongPassword(s: string)
    ensures MatchesPattern(s) <==> StrongPassword(s)
  {
  }

  /** The validation errors Yup reports for the two password fields. */
  datatype FieldError = NewPasswordRequired | NewPasswordPattern | PasswordsDiffer

  /** Formik hands Yup a copy of the form values in which every "" field is
      `undefined` (`None`). */
  function Prepared(s: string): (v: Option<string>)
    ensures v == None <==> s == ""
    ensures v.Some? ==> v.value == s
  {
    if s == "" then None else Some(s)
  }

  /** `newPassword`: `.matches(pattern).required()`; `confirmNewPassword`:
      `.oneOf([ref("newPassword")])`, both run on the prepared values. Only
      `required` fails on `undefined`: `matches` and `oneOf` skip it, so an
      empty password gets only the required error and an empty confirmation
      none at all. */
  function ResetPasswordErrors(newPassword: string, confirmNewPassword: string): (errs: set<FieldError>)
    ensures errs == {} <==>
              StrongPassword(newPassword) && (confirmNewPassword == "" || confirmNewPassword == newPassword)
    ensures NewPasswordRequired in errs <==> newPassword == ""
    ensures NewPasswordPattern in errs <==> newPassword != "" && !StrongPassword(newPassword)
    ensures PasswordsDiffer in errs <==> confirmNewPassword != "" && confirmNewPassword != newPassword
  {
    PatternIsStrongPassword(newPassword);
    var password := Prepared(newPassword);
    var confirmation := Prepared(confirmNewPassword);
    (if password == None then {NewPasswordRequired} else {}) +
    (if password.Some? && !MatchesPattern(password.value) then {NewPasswordPattern} else {}) +
    (if confirmation.Some? && confirmation != password then {PasswordsDiffer} else {})
  }

  /** An empty password gets the required error and never the pattern error. */
  lemma EmptyPasswordOnlyRequired(confirmNewPassword: string)
    ensures NewPasswordRequired in ResetPasswordErrors("", confirmNewPassword)
    ensures NewPasswordPattern !in ResetPasswordErrors("", confirmNewPassword)
    ensures ResetPasswordErrors("", "") == {NewPasswordRequired}
  {
  }

  /** Each requirement on its own decides. */
  lemma PasswordExamples()
    ensures StrongPassword("12345678!")    // no letter needed
    ensures StrongPassword("abcdef1!")     // exactly eight characters
    ensures !StrongPassword("abcde1!")     // seven characters
    ensures !StrongPassword("abcdef1!.")   // '.' is outside the class
    ensures !StrongPassword("abcdefgh!")   // no digit
    ensures !StrongPassword("abcdefgh1")   // no symbol
  {
    assert IsDigit("12345678!"[0]) && IsSymbol("12345678!"[8]);
    assert IsDigit("abcdef1!"[6]) && IsSymbol("abcdef1!"[7]);
    assert !InPasswordClass("abcdef1!."[8]);
    var noDigit := "abcdefgh!";
    assert forall i | 0 <= i < |noDigit| :: !IsDigit(noDigit[i]);
    var noSymbol := "abcdefgh1";
    assert forall i | 0 <= i < |noSymbol| :: !IsSymbol(noSymbol[i]);
  }

  /** There is no maximum length: appending class characters to a strong
      password keeps it strong. */
  lemma NoMaximumLength(s: string, t: string)
    requires StrongPassword(s)
    requires forall i | 0 <= i < |t| :: InPasswordClass(t[i])
    ensures StrongPassword(s + t)
  {
    var d :| 0 <= d < |s| && IsDigit(s[d]);
    var y :| 0 <= y < |s| && IsSymbol(s[y]);
    assert (s + t)[d] == s[d] && (s + t)[y] == s[y];
    forall i | 0 <= i < |s + t| ensures InPasswordClass((s + t)[i]) {
      if i < |s| {
        assert (s + t)[i] == s[i];
      } else {
        assert (s + t)[i] == t[i - |s|];
      }
    }
  }

  /** A strong password is accepted when confirmed by the same text or when
      the confirmation is left empty; any other confirmation is a mismatch. */
  lemma ConfirmationMustMatch(newPassword: string, other: string)
    requires StrongPassword(newPassword) && other != newPassword
    ensures ResetPasswordErrors(newPassword, newPassword) == {}
    ensures ResetPasswordErrors(newPassword, "") == {}
    ensures other != "" ==> ResetPasswordErrors(newPassword, other) == {PasswordsDiffer}
  {
  }

  /** As written, a strong password with no confirmation gives the two
      password fields no error: once `email` and `code` are valid, the submit
      button is enabled without the password being typed twice. */
  lemma EmptyConfirmationAccepted()
    ensures ResetPasswordErrors("abcdef1!", "") == {}
  {
    assert IsDigit("abcdef1!"[6]) && IsSymbol("abcdef1!"[7]);
  }

  /** The evidently intended rule: the confirmation must equal the password,
      the empty confirmation included. */
  function IntendedResetPasswordErrors(newPassword: string, confirmNewPassword: string): (errs: set<FieldError>)
    ensures errs == {} <==> StrongPassword(newPassword) && confirmNewPassword == newPassword
    ensures NewPasswordRequired in errs <==> newPassword == ""
    ensures NewPasswordPattern in errs <==> newPassword != "" && !StrongPassword(newPassword)
    ensures PasswordsDiffer in errs <==> confirmNewPassword != newPassword
  {
    PatternIsStrongPassword(newPassword);
    (if newPassword == "" then {NewPasswordRequired} else {}) +
    (if newPassword != "" && !MatchesPattern(newPassword) then {NewPasswordPattern} else {}) +
    (if confirmNewPassword != newPassword then {PasswordsDiffer} else {})
  }

  /** The intended rule differs from the written one only on an empty
      confirmation of a non-empty password, where it adds the mismatch error. */
  lemma IntendedDiffersOnlyOnEmptyConfirmation(newPassword: string, confirmNewPassword: string)
    ensures confirmNewPassword != "" || newPassword == "" ==>
              IntendedResetPasswordErrors(newPassword, confirmNewPassword) == ResetPasswordErrors(newPassword, confirmNewPassword)
    ensures confirmNewPassword == "" && newPassword != "" ==>
              IntendedResetPasswordErrors(newPassword, confirmNewPassword) == ResetPasswordErrors(newPassword, confirmNewPassword) + {PasswordsDiffer}
  {
  }
}
