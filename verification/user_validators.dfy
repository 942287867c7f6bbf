/** The validators of the user-management commands: `CreateUserCommandValidator` and
    `UpdateUserCommandValidator`. */
module UserValidators {
  import opened Wrappers
  import opened Text
  import opened Validation
  import opened FieldRules
  import opened Commands
  import UserType

  const NameRequired: string := "Name is required."
  const NameTooLong: string := "Name must not exceed 100 characters."
  const InvalidUserType: string := "Invalid user type. Valid types are: Member, StaffMinor, StaffManagement."
  const IdNotPositive: string := "ID must be a positive integer when provided."
  const FirstNameTooShort: string := "First name must be at least 2 characters."
  const FirstNameTooLong: string := "First name must not exceed 50 characters."
  const LastNameTooShort: string := "Last name must be at least 2 characters."
  const LastNameTooLong: string := "Last name must not exceed 50 characters."
  const AddressBlank: string := "Address cannot be empty or whitespace."
  const AddressTooLong: string := "Address must not exceed 200 characters."

  // ------------------------------------------------------------ CreateUserCommandValidator

  /** Only the three creatable roles pass; a blank type and "None" do not. */
  function CreateTypeErrors(userType: Option<string>): (errors: seq<string>)
    ensures errors == [] <==> userType.Some? && UserType.IsCreatable(userType.value)
    ensures errors != [] ==> errors == [InvalidUserType]
  {
    assert userType.Some? && UserType.IsCreatable(userType.value) ==> !IsWhiteSpace(userType.value[0]);
    if IsNullOrWhiteSpace(userType)
       || !(userType.value == UserType.Member || userType.value == UserType.StaffMinor || userType.value == UserType.StaffManagement)
    then [InvalidUserType]
    else []
  }

  /** An absent id passes; a present one must be positive. */
  function OptionalIdErrors(id: Option<int>): (errors: seq<string>)
    ensures errors == [] <==> id.None? || id.value > 0
    ensures errors != [] ==> errors == [IdNotPositive]
  {
    if id.Some? && id.value <= 0 then [IdNotPositive] else []
  }

  /** The four fields' messages number at most four and are empty exactly when every field
      passes. */
  lemma CreateUserErrorsEmptyExactly(request: CreateUserCommand, isValidEmail: string -> bool)
    ensures var errors := RequiredWithin(request.name, 100, NameRequired, NameTooLong)
      + EmailErrors(request.email, isValidEmail) + CreateTypeErrors(request.userType) + OptionalIdErrors(request.id);
      && |errors| <= 4
      && (errors == [] <==>
        && !IsNullOrWhiteSpace(request.name) && |request.name.value| <= 100
        && !IsNullOrWhiteSpace(request.email) && isValidEmail(request.email.value) && |request.email.value| <= MaxEmailLength
        && request.userType.Some? && UserType.IsCreatable(request.userType.value)
        && (request.id.None? || request.id.value > 0))
  {
    var name := RequiredWithin(request.name, 100, NameRequired, NameTooLong);
    var email := EmailErrors(request.email, isValidEmail);
    var userType := CreateTypeErrors(request.userType);
    var id := OptionalIdErrors(request.id);
    assert |name + email + userType + id| == |name| + |email| + |userType| + |id|;
  }

  /** The role block: a blank role or one outside the three creatable ones is reported. */
  method CheckCreateType(errors: seq<string>, userType: Option<string>) returns (result: seq<string>)
    ensures result == errors + CreateTypeErrors(userType)
  {
    result := errors;
    var validUserTypes := [UserType.Member, UserType.StaffMinor, UserType.StaffManagement];
    if IsNullOrWhiteSpace(userType) || userType.value !in validUserTypes {
      result := result + [InvalidUserType];
    }
  }

  /** `CreateUserCommandValidator.ValidateAsync`: name, email, type and id messages in that
      order, at most one each; valid exactly when all four pass. */
  method ValidateCreateUser(request: CreateUserCommand, isValidEmail: string -> bool) returns (r: ValidationResult)
    ensures r.errors == RequiredWithin(request.name, 100, NameRequired, NameTooLong)
      + EmailErrors(request.email, isValidEmail) + CreateTypeErrors(request.userType) + OptionalIdErrors(request.id)
    ensures |r.errors| <= 4
    ensures r.isValid <==>
      !IsNullOrWhiteSpace(request.name) && |request.name.value| <= 100
      && !IsNullOrWhiteSpace(request.email) && isValidEmail(request.email.value) && |request.email.value| <= MaxEmailLength
      && request.userType.Some? && UserType.IsCreatable(request.userType.value)
      && (request.id.None? || request.id.value > 0)
  {
    var errors := CheckRequired([], request.name, 100, NameRequired, NameTooLong);
    errors := CheckEmail(errors, request.email, isValidEmail);
    errors := CheckCreateType(errors, request.userType);
    if request.id.Some? && request.id.value <= 0 {
      errors := errors + [IdNotPositive];
    }
    CreateUserErrorsEmptyExactly(request, isValidEmail);
    r := Verdict(errors);
  }

  // ------------------------------------------------------------ UpdateUserCommandValidator

  /** A present, non-null address must not be blank and must have at most 200 characters; an
      absent one passes. */
  function AddressErrors(address: Option<string>): (errors: seq<string>)
    ensures |errors| <= 1
    ensures errors == [] <==> address.None? || (!IsNullOrWhiteSpace(address) && |address.value| <= 200)
    ensures address.Some? && IsNullOrWhiteSpace(address) ==> errors == [AddressBlank]
  {
    if address.None? then []
    else if IsNullOrWhiteSpace(address) then [AddressBlank]
    else if |address.value| > 200 then [AddressTooLong]
    else []
  }

  /** The block the update validator runs for each of the first and last name: a non-blank
      value is checked against 2 and against 50 characters, independently. */
  method CheckNamePart(errors: seq<string>, value: Option<string>, tooShortMessage: string, tooLongMessage: string)
    returns (result: seq<string>)
    ensures result == errors + OptionalBetweenBoth(value, 2, 50, tooShortMessage, tooLongMessage)
  {
    result := errors;
    if !IsNullOrWhiteSpace(value) {
      if |value.value| < 2 {
        result := result + [tooShortMessage];
      }
      if |value.value| > 50 {
        result := result + [tooLongMessage];
      }
    }
  }

  /** The address block: a present address must be non-blank and at most 200 characters. */
  method CheckAddress(errors: seq<string>, address: Option<string>) returns (result: seq<string>)
    ensures result == errors + AddressErrors(address)
  {
    result := errors;
    if address.Some? {
      if IsNullOrWhiteSpace(address) {
        result := result + [AddressBlank];
      } else if |address.value| > 200 {
        result := result + [AddressTooLong];
      }
    }
  }

  /** The five fields' messages number at most five and are empty exactly when every field
      passes. */
  lemma UpdateUserErrorsEmptyExactly(request: UpdateUserCommand)
    ensures var errors := PositiveId(request.userId, UserIdNotPositive)
      + OptionalWithin(request.name, 100, NameTooLong)
      + OptionalBetweenBoth(request.firstName, 2, 50, FirstNameTooShort, FirstNameTooLong)
      + OptionalBetweenBoth(request.lastName, 2, 50, LastNameTooShort, LastNameTooLong)
      + AddressErrors(request.address);
      && |errors| <= 5
      && (errors == [] <==>
        && request.userId > 0
        && (IsNullOrWhiteSpace(request.name) || |request.name.value| <= 100)
        && (IsNullOrWhiteSpace(request.firstName) || 2 <= |request.firstName.value| <= 50)
        && (IsNullOrWhiteSpace(request.lastName) || 2 <= |request.lastName.value| <= 50)
        && (request.address.None? || (!IsNullOrWhiteSpace(request.address) && |request.address.value| <= 200)))
  {
    var id := PositiveId(request.userId, UserIdNotPositive);
    var name := OptionalWithin(request.name, 100, NameTooLong);
    var first := OptionalBetweenBoth(request.firstName, 2, 50, FirstNameTooShort, FirstNameTooLong);
    var last := OptionalBetweenBoth(request.lastName, 2, 50, LastNameTooShort, LastNameTooLong);
    var address := AddressErrors(request.address);
    assert |id + name + first + last + address| == |id| + |name| + |first| + |last| + |address|;
  }

  /** `UpdateUserCommandValidator.ValidateAsync`: user id, name, first name, last name and
      address messages in that order. Every field but the id is optional. */
  method ValidateUpdateUser(request: UpdateUserCommand) returns (r: ValidationResult)
    ensures r.errors == PositiveId(request.userId, UserIdNotPositive)
      + OptionalWithin(request.name, 100, NameTooLong)
      + OptionalBetweenBoth(request.firstName, 2, 50, FirstNameTooShort, FirstNameTooLong)
      + OptionalBetweenBoth(request.lastName, 2, 50, LastNameTooShort, LastNameTooLong)
      + AddressErrors(request.address)
    ensures |r.errors| <= 5
    ensures r.isValid <==>
      request.userId > 0
      && (IsNullOrWhiteSpace(request.name) || |request.name.value| <= 100)
      && (IsNullOrWhiteSpace(request.firstName) || 2 <= |request.firstName.value| <= 50)
      && (IsNullOrWhiteSpace(request.lastName) || 2 <= |request.lastName.value| <= 50)
      && (request.address.None? || (!IsNullOrWhiteSpace(request.address) && |request.address.value| <= 200))
  {
    var errors: seq<string> := [];
    if request.userId <= 0 {
      errors := errors + [UserIdNotPositive];
    }
    errors := CheckOptional(errors, request.name, 100, NameTooLong);
    errors := CheckNamePart(errors, request.firstName, FirstNameTooShort, FirstNameTooLong);
    errors := CheckNamePart(errors, request.lastName, LastNameTooShort, LastNameTooLong);
    errors := CheckAddress(errors, request.address);
    UpdateUserErrorsEmptyExactly(request);
    r := Verdict(errors);
  }
}
