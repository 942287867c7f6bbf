/** The validators of the identity commands: `RegisterUserCommandValidator` and
    `LoginUserCommandValidator`. The address parser behind `IsValidEmail` and the Unicode
    character classes are parameters. */
module IdentityValidators {
  import opened Wrappers
  import opened Text
  import opened Validation
  import opened FieldRules
  import opened Commands
  import UserType

  /** The character classes the password rules consult (`char.IsUpper`, `char.IsLower`,
      `char.IsDigit`, `char.IsLetterOrDigit`). */
  datatype CharClasses = CharClasses(
    isUpper: char -> bool, isLower: char -> bool, isDigit: char -> bool, isLetterOrDigit: char -> bool)

  const NameRequired: string := "Name is required."
  const NameTooShort: string := "Name must be at least 2 characters long."
  const NameTooLong: string := "Name must not exceed 100 characters."
  const PasswordRequired: string := "Password is required."
  const PasswordTooShort: string := "Password must be at least 12 characters long."
  const PasswordNoUpper: string := "Password must contain at least one uppercase letter."
  const PasswordNoLower: string := "Password must contain at least one lowercase letter."
  const PasswordNoDigit: string := "Password must contain at least one digit."
  const PasswordNoSpecial: string := "Password must contain at least one special character."
  const InvalidUserType: string := "Invalid user type."
  const MinPasswordLength: nat := 12

  // ------------------------------------------------------------ password strength

  /** One strength rule: the message it contributes and whether the password meets it. */
  datatype Rule = Rule(message: string, holds: bool)

  predicate IsSpecial(classes: CharClasses, c: char) {
    !classes.isLetterOrDigit(c)
  }

  /** The five strength rules, in the order they are checked. */
  function PasswordRules(password: string, classes: CharClasses): (rules: seq<Rule>)
    ensures |rules| == 5
  {
    [ Rule(PasswordTooShort, |password| >= MinPasswordLength),
      Rule(PasswordNoUpper, AnyChar(password, classes.isUpper)),
      Rule(PasswordNoLower, AnyChar(password, classes.isLower)),
      Rule(PasswordNoDigit, AnyChar(password, classes.isDigit)),
      Rule(PasswordNoSpecial, AnyChar(password, c => IsSpecial(classes, c))) ]
  }

  /** What one rule contributes: nothing when it holds, its message when it fails. */
  function Failure(rule: Rule): (messages: seq<string>)
    ensures messages == [] <==> rule.holds
    ensures |messages| <= 1
  {
    if rule.holds then [] else [rule.message]
  }

  /** The messages of the rules that fail, in rule order. */
  function FailedMessages(rules: seq<Rule>): (messages: seq<string>)
    ensures |messages| <= |rules|
    ensures messages == [] <==> forall i :: 0 <= i < |rules| ==> rules[i].holds
  {
    if |rules| == 0 then []
    else
      var rest := FailedMessages(rules[1..]);
      assert (forall i :: 1 <= i < |rules| ==> rules[i].holds) <==> (forall i :: 0 <= i < |rules[1..]| ==> rules[1..][i].holds) by {
        forall i | 1 <= i < |rules| ensures rules[i] == rules[1..][i - 1] { }
      }
      Failure(rules[0]) + rest
  }

  /** A strong password: at least 12 characters with an upper-case letter, a lower-case letter,
      a digit and a character that is neither a letter nor a digit. */
  predicate StrongPassword(password: string, classes: CharClasses) {
    |password| >= MinPasswordLength
    && (exists i :: 0 <= i < |password| && classes.isUpper(password[i]))
    && (exists i :: 0 <= i < |password| && classes.isLower(password[i]))
    && (exists i :: 0 <= i < |password| && classes.isDigit(password[i]))
    && (exists i :: 0 <= i < |password| && !classes.isLetterOrDigit(password[i]))
  }

  /** Five rules fail one by one: the failures of a five-rule list, spelled out. */
  lemma FailedMessagesOfFive(rules: seq<Rule>)
    requires |rules| == 5
    ensures FailedMessages(rules) ==
      Failure(rules[0]) + Failure(rules[1]) + Failure(rules[2]) + Failure(rules[3]) + Failure(rules[4])
  {
    assert rules[4..][1..] == [];
    assert FailedMessages(rules[4..]) == Failure(rules[4]);
    assert rules[3..][1..] == rules[4..];
    assert FailedMessages(rules[3..]) == Failure(rules[3]) + Failure(rules[4]);
    assert rules[2..][1..] == rules[3..];
    assert FailedMessages(rules[2..]) == Failure(rules[2]) + (Failure(rules[3]) + Failure(rules[4]));
    assert rules[1..][1..] == rules[2..];
    assert FailedMessages(rules[1..]) == Failure(rules[1]) + (Failure(rules[2]) + (Failure(rules[3]) + Failure(rules[4])));
  }

  /** The rule list fails nowhere exactly for a strong password. */
  lemma StrongExactlyWhenNoRuleFails(password: string, classes: CharClasses)
    ensures FailedMessages(PasswordRules(password, classes)) == [] <==> StrongPassword(password, classes)
  {
    var rules := PasswordRules(password, classes);
    assert rules[0].holds <==> |password| >= MinPasswordLength;
    assert rules[1].holds <==> exists i :: 0 <= i < |password| && classes.isUpper(password[i]);
    assert rules[2].holds <==> exists i :: 0 <= i < |password| && classes.isLower(password[i]);
    assert rules[3].holds <==> exists i :: 0 <= i < |password| && classes.isDigit(password[i]);
    assert rules[4].holds <==> exists i :: 0 <= i < |password| && IsSpecial(classes, password[i]);
  }

  /** `ValidatePassword`: one message per failed rule, in rule order; none exactly for a strong
      password. */
  method ValidatePassword(password: string, classes: CharClasses) returns (errors: seq<string>)
    ensures errors == FailedMessages(PasswordRules(password, classes))
    ensures |errors| <= 5
    ensures errors == [] <==> StrongPassword(password, classes)
  {
    ghost var rules := PasswordRules(password, classes);
    errors := [];
    if |password| < MinPasswordLength {
      errors := errors + [PasswordTooShort];
    }
    assert errors == Failure(rules[0]);
    if !AnyChar(password, classes.isUpper) {
      errors := errors + [PasswordNoUpper];
    }
    assert errors == Failure(rules[0]) + Failure(rules[1]);
    if !AnyChar(password, classes.isLower) {
      errors := errors + [PasswordNoLower];
    }
    assert errors == Failure(rules[0]) + Failure(rules[1]) + Failure(rules[2]);
    if !AnyChar(password, classes.isDigit) {
      errors := errors + [PasswordNoDigit];
    }
    assert errors == Failure(rules[0]) + Failure(rules[1]) + Failure(rules[2]) + Failure(rules[3]);
    if !AnyChar(password, c => IsSpecial(classes, c)) {
      errors := errors + [PasswordNoSpecial];
    }
    FailedMessagesOfFive(rules);
    StrongExactlyWhenNoRuleFails(password, classes);
  }

  // ------------------------------------------------------------ RegisterUserCommandValidator

  /** The name chain: required, then at least 2, then at most 100 characters. */
  function RegisterNameErrors(name: Option<string>): (errors: seq<string>)
    ensures |errors| <= 1
    ensures errors == [] <==> !IsNullOrWhiteSpace(name) && 2 <= |name.value| <= 100
  {
    if IsNullOrWhiteSpace(name) then [NameRequired]
    else if |name.value| < 2 then [NameTooShort]
    else if |name.value| > 100 then [NameTooLong]
    else []
  }

  /** A blank password gives only "required"; otherwise the strength rules speak. */
  function PasswordErrors(password: Option<string>, classes: CharClasses): (errors: seq<string>)
    ensures IsNullOrWhiteSpace(password) ==> errors == [PasswordRequired]
    ensures errors == [] <==> !IsNullOrWhiteSpace(password) && StrongPassword(password.value, classes)
  {
    if IsNullOrWhiteSpace(password) then [PasswordRequired]
    else
      StrongExactlyWhenNoRuleFails(password.value, classes);
      FailedMessages(PasswordRules(password.value, classes))
  }

  /** The type is rejected only when blank or "None". */
  function RegisterTypeErrors(userType: Option<string>): (errors: seq<string>)
    ensures errors == [] <==> !IsNullOrWhiteSpace(userType) && userType.value != UserType.None
    ensures errors != [] ==> errors == [InvalidUserType]
  {
    if IsNullOrWhiteSpace(userType) || userType.value == UserType.None then [InvalidUserType] else []
  }

  /** The name rule chain, appending its message (if any) to `errors`. */
  method CheckRegisterName(errors: seq<string>, name: Option<string>) returns (result: seq<string>)
    ensures result == errors + RegisterNameErrors(name)
  {
    result := errors;
    if IsNullOrWhiteSpace(name) {
      result := result + [NameRequired];
    } else if |name.value| < 2 {
      result := result + [NameTooShort];
    } else if |name.value| > 100 {
      result := result + [NameTooLong];
    }
  }

  /** The password rules, appending their messages to `errors`: "required" alone for a blank
      password, else one message per failed strength rule. */
  method CheckPassword(errors: seq<string>, password: Option<string>, classes: CharClasses) returns (result: seq<string>)
    ensures result == errors + PasswordErrors(password, classes)
  {
    if IsNullOrWhiteSpace(password) {
      result := errors + [PasswordRequired];
    } else {
      var passwordErrors := ValidatePassword(password.value, classes);
      result := errors + passwordErrors;
    }
  }

  /** The four fields' messages together are empty exactly when every field passes. */
  lemma RegisterErrorsEmptyExactly(request: RegisterUserCommand, isValidEmail: string -> bool, classes: CharClasses)
    ensures (RegisterNameErrors(request.name) + EmailErrors(request.email, isValidEmail)
      + PasswordErrors(request.password, classes) + RegisterTypeErrors(request.userType) == []) <==>
      !IsNullOrWhiteSpace(request.name) && 2 <= |request.name.value| <= 100
      && !IsNullOrWhiteSpace(request.email) && isValidEmail(request.email.value) && |request.email.value| <= MaxEmailLength
      && !IsNullOrWhiteSpace(request.password) && StrongPassword(request.password.value, classes)
      && !IsNullOrWhiteSpace(request.userType) && request.userType.value != UserType.None
  {
    var name, email := RegisterNameErrors(request.name), EmailErrors(request.email, isValidEmail);
    var password, userType := PasswordErrors(request.password, classes), RegisterTypeErrors(request.userType);
    assert |name + email + password + userType| == |name| + |email| + |password| + |userType|;
  }

  /** `RegisterUserCommandValidator.ValidateAsync`: the messages of name, email, password and
      type, in that order; valid exactly when every field passes. */
  method ValidateRegisterUser(request: RegisterUserCommand, isValidEmail: string -> bool, classes: CharClasses)
    returns (r: ValidationResult)
    ensures r.errors == RegisterNameErrors(request.name) + EmailErrors(request.email, isValidEmail)
      + PasswordErrors(request.password, classes) + RegisterTypeErrors(request.userType)
    ensures r.isValid <==>
      !IsNullOrWhiteSpace(request.name) && 2 <= |request.name.value| <= 100
      && !IsNullOrWhiteSpace(request.email) && isValidEmail(request.email.value) && |request.email.value| <= MaxEmailLength
      && !IsNullOrWhiteSpace(request.password) && StrongPassword(request.password.value, classes)
      && !IsNullOrWhiteSpace(request.userType) && request.userType.value != UserType.None
  {
    var errors := CheckRegisterName([], request.name);
    errors := CheckEmail(errors, request.email, isValidEmail);
    errors := CheckPassword(errors, request.password, classes);
    if IsNullOrWhiteSpace(request.userType) || request.userType.value == UserType.None {
      errors := errors + [InvalidUserType];
    }
    RegisterErrorsEmptyExactly(request, isValidEmail, classes);
    r := Verdict(errors);
  }

  // ------------------------------------------------------------ LoginUserCommandValidator

  /** Login checks the email's presence and format but sets no length limit. */
  function LoginEmailErrors(email: Option<string>, isValidEmail: string -> bool): (errors: seq<string>)
    ensures |errors| <= 1
    ensures errors == [] <==> !IsNullOrWhiteSpace(email) && isValidEmail(email.value)
  {
    if IsNullOrWhiteSpace(email) then [EmailRequired]
    else if !isValidEmail(email.value) then [EmailInvalid]
    else []
  }

  /** Login only demands a password; no strength rule applies. */
  function PasswordPresent(password: Option<string>): (errors: seq<string>)
    ensures errors == [] <==> !IsNullOrWhiteSpace(password)
    ensures errors != [] ==> errors == [PasswordRequired]
  {
    if IsNullOrWhiteSpace(password) then [PasswordRequired] else []
  }

  /** `LoginUserCommandValidator.ValidateAsync`: at most one email message and at most one
      password message, in that order. */
  method ValidateLoginUser(request: LoginUserCommand, isValidEmail: string -> bool) returns (r: ValidationResult)
    ensures r.errors == LoginEmailErrors(request.email, isValidEmail) + PasswordPresent(request.password)
    ensures |r.errors| <= 2
    ensures r.isValid <==>
      !IsNullOrWhiteSpace(request.email) && isValidEmail(request.email.value) && !IsNullOrWhiteSpace(request.password)
  {
    var errors: seq<string> := [];
    if IsNullOrWhiteSpace(request.email) {
      errors := errors + [EmailRequired];
    } else if !isValidEmail(request.email.value) {
      errors := errors + [EmailInvalid];
    }
    if IsNullOrWhiteSpace(request.password) {
      errors := errors + [PasswordRequired];
    }
    r := Verdict(errors);
  }

  /** An address of more than 254 characters that the parser accepts passes login validation
      but fails registration: the two validators disagree on the same email. */
  lemma LoginAcceptsLongerEmails(email: string, isValidEmail: string -> bool)
    requires !IsNullOrWhiteSpace(Some(email)) && isValidEmail(email) && |email| > MaxEmailLength
    ensures LoginEmailErrors(Some(email), isValidEmail) == []
    ensures EmailErrors(Some(email), isValidEmail) == [EmailTooLong]
  {
  }
}
