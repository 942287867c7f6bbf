/** The field checks several validators share, each as the list of messages it contributes
    (empty when the field passes). Every validator runs its checks in a fixed order and
    concatenates what they contribute. */
module FieldRules {
  import opened Wrappers
  import opened Text

  const EmailRequired: string := "Email is required."
  const EmailInvalid: string := "Email format is invalid."
  const EmailTooLong: string := "Email must not exceed 254 characters."
  const MaxEmailLength: nat := 254

  /** The email chain of the registration and create-user validators: required, then the
      address parser's verdict, then at most 254 characters. At most one message. */
  function EmailErrors(email: Option<string>, isValidEmail: string -> bool): (errors: seq<string>)
    ensures |errors| <= 1
    ensures errors == [] <==> !IsNullOrWhiteSpace(email) && isValidEmail(email.value) && |email.value| <= MaxEmailLength
  {
    if IsNullOrWhiteSpace(email) then [EmailRequired]
    else if !isValidEmail(email.value) then [EmailInvalid]
    else if |email.value| > MaxEmailLength then [EmailTooLong]
    else []
  }

  const BookIdNotPositive: string := "BookId must be a positive integer."
  const MemberIdNotPositive: string := "MemberId must be a positive integer."
  const UserIdNotPositive: string := "UserId must be a positive integer."

  /** An id field must be positive; otherwise exactly one message, the one naming the field. */
  function PositiveId(value: int, message: string): (errors: seq<string>)
    ensures errors == [] <==> value > 0
    ensures value <= 0 ==> errors == [message]
  {
    if value <= 0 then [message] else []
  }

  /** A required text field with an upper length bound: "required" when blank, else the bound. */
  function RequiredWithin(value: Option<string>, max: nat, requiredMessage: string, tooLongMessage: string)
    : (errors: seq<string>)
    ensures |errors| <= 1
    ensures errors == [] <==> !IsNullOrWhiteSpace(value) && |value.value| <= max
    ensures IsNullOrWhiteSpace(value) ==> errors == [requiredMessage]
  {
    if IsNullOrWhiteSpace(value) then [requiredMessage]
    else if |value.value| > max then [tooLongMessage]
    else []
  }

  /** An optional text field with an upper length bound: blank passes. */
  function OptionalWithin(value: Option<string>, max: nat, tooLongMessage: string): (errors: seq<string>)
    ensures |errors| <= 1
    ensures errors == [] <==> IsNullOrWhiteSpace(value) || |value.value| <= max
  {
    if !IsNullOrWhiteSpace(value) && |value.value| > max then [tooLongMessage] else []
  }

  /** An optional text field whose non-blank value must have a length in min..max, checked as
      an if/else-if chain: at most one message. */
  function OptionalBetween(value: Option<string>, min: nat, max: nat, tooShortMessage: string, tooLongMessage: string)
    : (errors: seq<string>)
    ensures |errors| <= 1
    ensures errors == [] <==> IsNullOrWhiteSpace(value) || min <= |value.value| <= max
  {
    if IsNullOrWhiteSpace(value) then []
    else if |value.value| < min then [tooShortMessage]
    else if |value.value| > max then [tooLongMessage]
    else []
  }

  /** The same bounds checked by two independent ifs; since min <= max at most one fires. */
  function OptionalBetweenBoth(value: Option<string>, min: nat, max: nat, tooShortMessage: string, tooLongMessage: string)
    : (errors: seq<string>)
    ensures min <= max ==> |errors| <= 1
    ensures errors == [] <==> IsNullOrWhiteSpace(value) || min <= |value.value| <= max
  {
    if IsNullOrWhiteSpace(value) then []
    else
      var short := if |value.value| < min then [tooShortMessage] else [];
      var long := if |value.value| > max then [tooLongMessage] else [];
      short + long
  }

  const MinPublicationYear: int := 1000

  function YearMessage(currentYear: int): string {
    "Publication year must be between 1000 and " + IntToString(currentYear + 1) + "."
  }

  /** An absent year passes; a present one must lie in 1000 .. currentYear + 1. */
  function YearErrors(year: Option<int>, currentYear: int): (errors: seq<string>)
    ensures |errors| <= 1
    ensures errors == [] <==> year.None? || MinPublicationYear <= year.value <= currentYear + 1
  {
    if year.Some? && (year.value < MinPublicationYear || year.value > currentYear + 1) then [YearMessage(currentYear)]
    else []
  }

  // ------------------------------------------------------------ the rule chains as statements

  /** A required field's chain (the title, the category on creation): required, then at most
      `max` characters. */
  method CheckRequired(errors: seq<string>, value: Option<string>, max: nat, requiredMessage: string, tooLongMessage: string)
    returns (result: seq<string>)
    ensures result == errors + RequiredWithin(value, max, requiredMessage, tooLongMessage)
  {
    result := errors;
    if IsNullOrWhiteSpace(value) {
      result := result + [requiredMessage];
    } else if |value.value| > max {
      result := result + [tooLongMessage];
    }
  }

  /** An optional field's rule (the author, the category on update): a non-blank value of more
      than `max` characters is reported. */
  method CheckOptional(errors: seq<string>, value: Option<string>, max: nat, tooLongMessage: string)
    returns (result: seq<string>)
    ensures result == errors + OptionalWithin(value, max, tooLongMessage)
  {
    result := errors;
    if !IsNullOrWhiteSpace(value) && |value.value| > max {
      result := result + [tooLongMessage];
    }
  }

  /** The email rule chain, appending its message (if any) to `errors`. */
  method CheckEmail(errors: seq<string>, email: Option<string>, isValidEmail: string -> bool) returns (result: seq<string>)
    ensures result == errors + EmailErrors(email, isValidEmail)
  {
    result := errors;
    if IsNullOrWhiteSpace(email) {
      result := result + [EmailRequired];
    } else if !isValidEmail(email.value) {
      result := result + [EmailInvalid];
    } else if |email.value| > MaxEmailLength {
      result := result + [EmailTooLong];
    }
  }
}
