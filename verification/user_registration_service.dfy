/** The pure parts of the identity layer's `UserRegistrationService`: the input check that
    `RegisterUserAsync` runs before it touches the identity store, and the two helpers that
    split a full name at its first space. */
module RegistrationService {
  import opened Wrappers
  import opened Text

  const NameIsRequired: string := "Name is required."
  const EmailIsRequired: string := "Email is required."
  const PasswordIsRequired: string := "Password is required."

  /** The messages `ValidateInput` collects: one per blank field, in the order name, email,
      password. */
  function InputErrors(name: Option<string>, email: Option<string>, password: Option<string>): (errors: seq<string>)
    ensures |errors| <= 3
    ensures errors == [] <==> !IsNullOrWhiteSpace(name) && !IsNullOrWhiteSpace(email) && !IsNullOrWhiteSpace(password)
    ensures NameIsRequired in errors <==> IsNullOrWhiteSpace(name)
    ensures EmailIsRequired in errors <==> IsNullOrWhiteSpace(email)
    ensures PasswordIsRequired in errors <==> IsNullOrWhiteSpace(password)
    ensures IsNullOrWhiteSpace(name) ==> errors[0] == NameIsRequired
    ensures IsNullOrWhiteSpace(password) ==> errors[|errors| - 1] == PasswordIsRequired
  {
    (if IsNullOrWhiteSpace(name) then [NameIsRequired] else [])
    + (if IsNullOrWhiteSpace(email) then [EmailIsRequired] else [])
    + (if IsNullOrWhiteSpace(password) then [PasswordIsRequired] else [])
  }

  /** `ValidateInput`: appends one message per blank field to a fresh list. */
  method ValidateInput(name: Option<string>, email: Option<string>, password: Option<string>)
    returns (errors: seq<string>)
    ensures errors == InputErrors(name, email, password)
  {
    errors := [];
    if IsNullOrWhiteSpace(name) {
      errors := errors + [NameIsRequired];
    }
    if IsNullOrWhiteSpace(email) {
      errors := errors + [EmailIsRequired];
    }
    if IsNullOrWhiteSpace(password) {
      errors := errors + [PasswordIsRequired];
    }
  }

  /** What `RegisterUserAsync` returns, as far as it is modelled. */
  datatype UserRegistrationResult =
    | Success(identityUserId: string, domainUserId: int)
    | Failure(errors: seq<string>)

  /** The first step of `RegisterUserAsync`: with any blank field it returns a failure carrying
      exactly the collected messages; otherwise (`None`) it goes on to the identity store. */
  method ValidationStep(name: Option<string>, email: Option<string>, password: Option<string>)
    returns (early: Option<UserRegistrationResult>)
    ensures early.None? <==> !IsNullOrWhiteSpace(name) && !IsNullOrWhiteSpace(email) && !IsNullOrWhiteSpace(password)
    ensures early.Some? ==> early.value == Failure(InputErrors(name, email, password)) && |early.value.errors| >= 1
  {
    var errors := ValidateInput(name, email, password);
    if |errors| > 0 {
      return Some(Failure(errors));
    }
    return None;
  }

  /** `ExtractFirstName`: the first piece of `fullName.Split(' ')`, that is the text before the
      first space, or the whole name when it has none. */
  function ExtractFirstName(fullName: string): (first: string)
    ensures ' ' !in first
    ensures ' ' in fullName ==> first == fullName[..IndexOf(fullName, ' ')]
    ensures ' ' !in fullName ==> first == fullName
  {
    SplitHead(fullName, ' ');
    Split(fullName, ' ')[0]
  }

  /** `ExtractLastName`: the pieces after the first joined back with single spaces, that is
      everything after the first space with its inner spaces kept, or "" when there is no
      space. */
  function ExtractLastName(fullName: string): (last: string)
    ensures ' ' in fullName ==> last == fullName[IndexOf(fullName, ' ') + 1..]
    ensures ' ' !in fullName ==> last == ""
  {
    SplitHead(fullName, ' ');
    SplitTail(fullName, ' ');
    var parts := Split(fullName, ' ');
    if |parts| > 1 then Join(" ", parts[1..]) else ""
  }

  /** The two halves put the name back together: with a space, first + " " + last is the full
      name; without one, the first name is the whole name and the last name is empty. */
  lemma NameRoundTrip(fullName: string)
    ensures ' ' in fullName ==> ExtractFirstName(fullName) + " " + ExtractLastName(fullName) == fullName
    ensures ' ' !in fullName ==> ExtractFirstName(fullName) == fullName && ExtractLastName(fullName) == ""
  {
    if ' ' in fullName {
      var i := IndexOf(fullName, ' ');
      assert fullName == fullName[..i] + " " + fullName[i + 1..];
    }
  }
}
