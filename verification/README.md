# LMSWebAppClean: a verified model of the library's domain and application core

This project models the core of LMSWebAppClean, a library-management web API written in C#
along clean-architecture lines. Members borrow and return books. Staff manage the catalogue
and the user accounts. Every request passes through a validator before its handler runs, and
then through a role-based permission check.

The model covers:

- **Domain** (`domain.dfy`). `Book` and the user hierarchy (`BaseUser`, `Member`, `Staff`) are
  classes whose setters guard and then write a field. `Member.BorrowBook`/`ReturnBook` link or
  unlink a book and edit the member's list of borrowed books in place. The three user classes
  are one class, `Domain.User`, with a constant `kind`. Each class has a `State()` snapshot
  datatype, which the contracts use.
- **Permissions** (`permission.dfy`, `permission_checker.dfy`). The permission tokens, the role
  table built by the `PermissionChecker` constructor, and all eight `Check`/`CheckIf` overloads.
  The boolean `CheckIf` forms and the private helpers are functions. The throwing `Check` forms
  are methods that return an `Outcome` (a value, or a thrown exception). Each method is proved
  to succeed exactly when its boolean partner answers true.
- **Handlers** (`borrowing_handlers.dfy`, `book_handlers.dfy`, `user_handlers.dfy`,
  `register_handler.dfy`). Each command handler is a class whose `Handle` method runs the
  checks in source order. It then changes the in-memory repositories and the unit of work, and
  applies the handler's catch clauses (`Exceptions.Catch`). Each handler also has a `Rejection`
  function that says which exception, if any, the checks raise.
- **Validation** (`validation.dfy`, `field_rules.dfy`, `*_validators.dfy`). `ValidationResult`,
  the MediatR `ValidationBehavior`, and every validator that has logic. Each validator is an
  imperative method that appends to an error list and is proved equal to a specification
  function. Lemmas then state when that function is empty and which messages it can hold.
- **Error responses** (`global_exception_handler.dfy`). The status code the global exception
  handler maps each exception type to.
- **Identity helpers** (`user_registration_service.dfy`). The input check of
  `UserRegistrationService` and its first-name/last-name split.

Stand-ins for the outside world:

- The database is an in-memory `Persistence.Repository` (a map from key to entity, plus logs of
  added and updated entities) and a `Persistence.UnitOfWork` with a save counter. The unit of
  work's `fault` field is the exception the database raises on the next save, if any.
- The current year (`DateTime.Now.Year`) is a parameter.
- `MailAddress` parsing is a parameter (`isValidEmail`).
- The Unicode classes `char.IsUpper`, `IsLower`, `IsDigit` and `IsLetterOrDigit` are a
  parameter (`CharClasses`).
- `char.IsWhiteSpace` is written out from the .NET whitespace list.
- The permission token a handler checks is a parameter of `Handle`.

Where the prose description of the system and the code disagree, the model follows the code:

- The boolean `CheckIf` forms do not always return false on a bad user. `CheckIf(BaseUser,
  BaseUser, …)` catches only `UnauthorizedAccessException`. A user with no id
  (`NullReferenceException`) or with a role missing from the table (`KeyNotFoundException`)
  therefore escapes it. `CheckIf(BaseUser, string)` catches nothing, so a role missing from the
  table (`KeyNotFoundException`) escapes it. The throwing `Check(BaseUser, …)` forms let these
  exceptions through too.
- The paired checks do not take a caller-supplied message. They throw with fixed messages:
  "Access denied.", "Access denied due to invalid user data.", "Requesting user not found."
  and "Target user not found."
- An id that the repository cannot resolve makes `GetUser` throw, and the id-based forms fold
  that into a denial. It does not produce a user of role "None". The "None" row of the table is
  reached only for a null user.
- Roles and permission tokens are plain strings, as in the code. The modelled handlers ask for
  top-level tokens that `Permission.cs` does not declare: `BookAdd`, `UserAdd`, `UserUpdate`,
  `BorrowBook`, `BorrowReturn` and `BorrowViewBorrowedBooks`. `BorrowBook` exists there only
  inside the nested `Self` and `Process` classes. So each handler takes the token it checks as
  a parameter.
- `BorrowCommandHandler` does not call `Member.BorrowBook`. It clears `Available` and appends
  to the list, but never sets the book's `Member`/`MemberId`.
- `UpdateBookCommandHandler`, `DeleteBookCommandHandler` and `DeleteUserCommandHandler` make
  no permission check.
- A `Book` setter that rejects inside `CreateBookCommandHandler` or `UpdateBookCommandHandler`
  becomes a wrapped plain exception (status 500), not an `ArgumentException`. In
  `UpdateBookCommandHandler` the setters that ran before the failing one keep their
  assignments.
- The `Book` year setter allows 1100..2025. The book validators allow 1000..currentYear+1.

## Model

| member | source | states |
|---|---|---|
| Exceptions.Catch | Core/Application/LMSWebAppClean.Application/Usecase/Books/CreateBook/CreateBookCommandHandler.cs:47-58 | A handler's catch clauses: a normal result and an exception of a rethrown type (or a subtype) pass through unchanged; any other exception becomes a plain `Exception` carrying the handler's message |
| Exceptions.Rethrown | Core/Application/LMSWebAppClean.Application/Usecase/Books/CreateBook/CreateBookCommandHandler.cs:47-54 | An exception whose own type is listed among the rethrown types leaves the catch clauses as it came |
| ErrorResponses.StatusCode | Presentation/LMSWebAppClean.API/Middleware/GlobalExceptionHandler.cs:46-92 | The ordered switch maps argument errors (null-argument included) to 400, invalid operations to 409, unauthorized access to 401, missing keys to 404, a cancelled task with a timeout inside to 408, any other cancellation to 499, and everything else to 500; each status is stated as an if-and-only-if over the exception type |
| ErrorResponses.SwitchMatchesTable | Presentation/LMSWebAppClean.API/Middleware/GlobalExceptionHandler.cs:46-92 | The arm order shadows no type: the ordered switch agrees with a per-type table for every exception type |
| ErrorResponses.StatusAfterCatch | Presentation/LMSWebAppClean.API/Middleware/GlobalExceptionHandler.cs:46-92 | A handler's exception keeps its own status when it is of a rethrown type and becomes a 500 otherwise |
| ErrorResponses.RethrownAreClientErrors | Presentation/LMSWebAppClean.API/Middleware/GlobalExceptionHandler.cs:48-66 | Every type a handler rethrows (unauthorized access, missing key, invalid operation, argument error) is answered with a 4xx status |
| Permission.SelfAndProcessDiffer | Core/Domain/LMSWebAppClean.Domain/Enum/Permission.cs:15-37 | For each of the five actions that exist in both forms, the self token and the process token are different strings |
| Permission.SpecialTokensDistinct | Core/Domain/LMSWebAppClean.Domain/Enum/Permission.cs:39-42 | `None`, `Public` and `All` differ from each other and from every action token |
| Permission.TokenPrefixes | Core/Domain/LMSWebAppClean.Domain/Enum/Permission.cs:15-37 | Every self token starts with `Self.`, every process token with `Process.`, and no token is in both families |
| PermissionChecking.MatrixShape | Core/Application/LMSWebAppClean.Application/PermissionChecker/PermissionChecker.cs:20-80 | The role table has rows for exactly the four roles, and no row grants `All` |
| PermissionChecking.AcceptedTypesHaveRows | Core/Application/LMSWebAppClean.Application/PermissionChecker/PermissionChecker.cs:20-80 | Every role the `Type` setters accept has a row in the table |
| PermissionChecking.ManagementIncludesMinor | Core/Application/LMSWebAppClean.Application/PermissionChecker/PermissionChecker.cs:20-80 | StaffManagement is allowed whenever StaffMinor is, for single and for paired checks |
| PermissionChecking.MemberDeniedOnOthers | Core/Application/LMSWebAppClean.Application/PermissionChecker/PermissionChecker.cs:20-80 | The member row holds no process token, so a member is refused any process permission on another user's record |
| PermissionChecking.ProcessGetUserByIdUngranted | Core/Application/LMSWebAppClean.Application/PermissionChecker/PermissionChecker.cs:20-80 | `Process.GetUserById` is declared but no role is granted it |
| PermissionChecking.SelfOnlyStaysWithSelf | Core/Application/LMSWebAppClean.Application/PermissionChecker/PermissionChecker.cs:201-221 | Holding only the self permission admits the requester on their own record and never on another user's |
| PermissionChecking.PermissionChecker.constructor | Core/Application/LMSWebAppClean.Application/PermissionChecker/PermissionChecker.cs:15-81 | The checker reads users from the given repository; the role table is fixed |
| PermissionChecking.PermissionChecker.GetUser | Core/Application/LMSWebAppClean.Application/PermissionChecker/PermissionChecker.cs:182-188 | The stored user exactly when the id is known; otherwise InvalidOperationException naming the id |
| PermissionChecking.PermissionChecker.GetUserPermissions | Core/Application/LMSWebAppClean.Application/PermissionChecker/PermissionChecker.cs:190-193 | A null user gets the `None` row; a user whose role has a row gets that row; a null role raises ArgumentNullException and an unknown role KeyNotFoundException. A user whose role went through the `Type` setter never fails, and no returned row holds `All` |
| PermissionChecking.PermissionChecker.HasPermission | Core/Application/LMSWebAppClean.Application/PermissionChecker/PermissionChecker.cs:195-199 | Fails exactly when the row lookup fails, with the same exception; otherwise answers whether the row lists the permission |
| PermissionChecking.PermissionChecker.CheckUserAccess | Core/Application/LMSWebAppClean.Application/PermissionChecker/PermissionChecker.cs:201-221 | Succeeds exactly when the requester's row is found and either holds `All`, or both users have ids and the paired rule admits (self permission on the same id, or the process permission); a missing id raises NullReferenceException and a refusal is 'Access denied.' |
| PermissionChecking.PermissionChecker.CheckIfPair | Core/Application/LMSWebAppClean.Application/PermissionChecker/PermissionChecker.cs:133-144 | True exactly when both ids resolve and the paired access check succeeds; every failure reads as false |
| PermissionChecking.PermissionChecker.CheckIfPairUsers | Core/Application/LMSWebAppClean.Application/PermissionChecker/PermissionChecker.cs:146-157 | A null actor gives false; otherwise true exactly when the paired access check succeeds; only a denial is turned into false, so other exceptions escape |
| PermissionChecking.PermissionChecker.CheckIf | Core/Application/LMSWebAppClean.Application/PermissionChecker/PermissionChecker.cs:160-171 | True exactly when the id resolves and the user's row lists the permission; never throws |
| PermissionChecking.PermissionChecker.CheckIfUser | Core/Application/LMSWebAppClean.Application/PermissionChecker/PermissionChecker.cs:173-179 | A null user gives false; otherwise the answer of `HasPermission`, which never fails for a user whose role went through the setter |
| PermissionChecking.PermissionChecker.CheckPair | Core/Application/LMSWebAppClean.Application/PermissionChecker/PermissionChecker.cs:83-96 | Succeeds exactly when the boolean id form answers true; every failure is UnauthorizedAccessException, with the invalid-data message when an id is unknown |
| PermissionChecking.PermissionChecker.CheckPairUsers | Core/Application/LMSWebAppClean.Application/PermissionChecker/PermissionChecker.cs:98-107 | Null requester or target is denied with its own message; otherwise it succeeds exactly when the boolean form answers true, is denied exactly when that form answers false, and shares that form's escaping exceptions |
| PermissionChecking.PermissionChecker.Check | Core/Application/LMSWebAppClean.Application/PermissionChecker/PermissionChecker.cs:110-121 | Succeeds exactly when `CheckIf` answers true; every failure is UnauthorizedAccessException with the caller's message |
| PermissionChecking.PermissionChecker.CheckUser | Core/Application/LMSWebAppClean.Application/PermissionChecker/PermissionChecker.cs:123-130 | A null user or a missing grant is a denial with the caller's message; it succeeds exactly when the boolean form answers true; an unknown role escapes |
| PermissionChecking.PermissionChecker.SingleRule | Core/Application/LMSWebAppClean.Application/PermissionChecker/PermissionChecker.cs:173-199 | For a user whose role went through the setter, the single check is total and follows the role's row |
| PermissionChecking.PermissionChecker.PairRule | Core/Application/LMSWebAppClean.Application/PermissionChecker/PermissionChecker.cs:146-157 | For users with a role and ids, the paired boolean check is total and follows the paired rule over the role's row |
| PermissionChecking.PermissionChecker.UnresolvedIdDenied | Core/Application/LMSWebAppClean.Application/PermissionChecker/PermissionChecker.cs:133-171 | An unknown id, as requester or target, makes every id-based boolean check answer false |
| PermissionChecking.PermissionChecker.MemberCannotActOnOthers | Core/Application/LMSWebAppClean.Application/PermissionChecker/PermissionChecker.cs:146-157 | A member with an id never passes a paired check on another user's record under a process permission |
| Persistence.Repository.constructor | Infarstructure/Persistence/LMSWebAppClean.Persistence/Repository/DatabaseRepository.cs:14-17 | A repository over the given entities, with nothing added or updated yet |
| Persistence.Repository.Get | Infarstructure/Persistence/LMSWebAppClean.Persistence/Repository/DatabaseRepository.cs:25-28 | The stored entity exactly when the key is present; null otherwise |
| Persistence.Repository.Add | Infarstructure/Persistence/LMSWebAppClean.Persistence/Repository/DatabaseRepository.cs:19-23 | The entity is tracked for insertion after those already tracked; the stored entities and the update log are untouched |
| Persistence.Repository.Remove | Infarstructure/Persistence/LMSWebAppClean.Persistence/Repository/DatabaseRepository.cs:63-71 | Returns what `Get` would have returned, and the key is no longer stored; with no entity under the key nothing changes |
| Persistence.Repository.Update | Infarstructure/Persistence/LMSWebAppClean.Persistence/Repository/DatabaseRepository.cs:73-77 | The entity is marked modified after those already marked; nothing else changes |
| Persistence.UnitOfWork.constructor | Infarstructure/Persistence/LMSWebAppClean.Persistence/UnitOfWork/UnitOfWork.cs:16-19 | A unit of work with no commits yet and the given pending database fault |
| Persistence.UnitOfWork.SaveChanges | Infarstructure/Persistence/LMSWebAppClean.Persistence/UnitOfWork/UnitOfWork.cs:21-24 | Without a database fault, exactly one more commit; with one, its exception and no commit |
| Domain.Book.constructor | Core/Domain/LMSWebAppClean.Domain/Model/Book.cs:29-31 | Every field at its default; a default book is valid |
| Domain.Book.Id | Core/Domain/LMSWebAppClean.Domain/Model/Book.cs:94-96 | An unset id reads as 0 and only an unset id does; a valid book's id is never negative |
| Domain.Book.Release | Core/Domain/LMSWebAppClean.Domain/Model/Member.cs:58-60 | The book loses its member and member id and becomes available; nothing else of it changes |
| Domain.Book.SetTitle | Core/Domain/LMSWebAppClean.Domain/Model/Book.cs:42-53 | Accepts exactly a non-blank title and stores it; otherwise throws 'Title cannot be empty.' and the book is unchanged; validity is kept |
| Domain.Book.SetAuthor | Core/Domain/LMSWebAppClean.Domain/Model/Book.cs:55-66 | Accepts exactly a non-blank author (null included in the refusals) and stores it; otherwise throws and leaves the book unchanged; validity is kept |
| Domain.Book.SetPublicationYear | Core/Domain/LMSWebAppClean.Domain/Model/Book.cs:68-79 | Accepts exactly null or a year in 1100..2025 and stores it; otherwise throws and leaves the book unchanged; validity is kept |
| Domain.Book.SetCategory | Core/Domain/LMSWebAppClean.Domain/Model/Book.cs:81-92 | Accepts exactly a non-blank category and stores it; otherwise throws and leaves the book unchanged; validity is kept |
| Domain.Book.SetId | Core/Domain/LMSWebAppClean.Domain/Model/Book.cs:97-104 | Accepts exactly a non-negative id; 0 unsets it, and the getter then returns the value given; a negative id throws and leaves the book unchanged |
| Domain.Book.SetIsbn | Core/Domain/LMSWebAppClean.Domain/Model/Book.cs:108-119 | Accepts exactly a blank ISBN or one of at least 10 characters; otherwise throws and leaves the book unchanged; validity is kept |
| Domain.Book.SetSynopsis | Core/Domain/LMSWebAppClean.Domain/Model/Book.cs:122-133 | Accepts exactly a blank synopsis or one of at least 10 characters; otherwise throws and leaves the book unchanged; validity is kept |
| Domain.Book.New | Core/Domain/LMSWebAppClean.Domain/Model/Book.cs:33-40 | Succeeds exactly when title, author and category are non-blank and the year is accepted, giving a fresh valid available book with exactly those values; otherwise the first failing setter's exception, in the order title, author, year, category |
| Domain.User.constructor | Core/Domain/LMSWebAppClean.Domain/Model/Member.cs:18-21 | A user of the given kind with no name, role or id; a member starts with an empty list, a staff user with none |
| Domain.User.Id | Core/Domain/LMSWebAppClean.Domain/Base/BaseUser.cs:40-42 | Throws NullReferenceException exactly while no id is set; a valid user's id is positive |
| Domain.User.SetName | Core/Domain/LMSWebAppClean.Domain/Base/BaseUser.cs:29-38 | Accepts exactly a non-blank name and stores it; otherwise ArgumentException and the user is unchanged; validity is kept |
| Domain.User.SetId | Core/Domain/LMSWebAppClean.Domain/Base/BaseUser.cs:43-50 | Accepts exactly a positive id, which the getter then returns; otherwise throws and leaves the user unchanged |
| Domain.User.SetType | Core/Domain/LMSWebAppClean.Domain/Model/Member.cs:28-39 | A member accepts exactly "Member", staff exactly the two staff roles (see also Staff.cs:19-32); otherwise a kind-specific exception and the user is unchanged; validity is kept |
| Domain.User.BorrowedBooks | Core/Domain/LMSWebAppClean.Domain/Model/Member.cs:12-14 | Returns the member's list, or an empty list installed in its place when it was null; nothing else changes |
| Domain.User.SetBorrowedBooks | Core/Domain/LMSWebAppClean.Domain/Model/Member.cs:15 | The member's list becomes exactly the given value, null included |
| Domain.User.BorrowBook | Core/Domain/LMSWebAppClean.Domain/Model/Member.cs:42-51 | A null book raises ArgumentNullException; a book that already has a member raises InvalidOperationException; otherwise the book is linked to the member, given the member's id and made unavailable, and appended to the list. Succeeds exactly when the member has an id and a list; the partial writes left when either is missing are stated too |
| Domain.User.ReturnBook | Core/Domain/LMSWebAppClean.Domain/Model/Member.cs:53-62 | A null book raises ArgumentNullException; a book linked to another member raises InvalidOperationException with nothing changed; otherwise the book is unlinked and made available and its first occurrence leaves the list (which must be present for success) |
| Domain.User.NewMember | Core/Domain/LMSWebAppClean.Domain/Model/Member.cs:23-26 | A null name raises ArgumentNullException, a blank one ArgumentException; otherwise a fresh valid member with that name, the member role, no id and an empty list |
| Domain.User.NewStaff | Core/Domain/LMSWebAppClean.Domain/Model/Staff.cs:17 | As for a member, but the role must be a staff role (Staff.cs:19-32), else the staff type exception; success gives a fresh valid staff user with no list |
| Domain.User.Initialised | Core/Application/LMSWebAppClean.Application/Usecase/Users/CreateUser/CreateUserCommandHandler.cs:33-35 | An object initialiser: a blank name raises ArgumentException, a role the class refuses raises its type exception; otherwise a fresh valid user of that kind with that name and role |
| Domain.BorrowThenReturn | Core/Domain/LMSWebAppClean.Domain/Model/Member.cs:42-62 | Borrowing a book absent from the list and returning it restores the member exactly and leaves the book unlinked and available |
| Sequences.RemoveFirst | Core/Domain/LMSWebAppClean.Domain/Model/Member.cs:61 | `List.Remove`: drops one occurrence of the element when present (the length falls by one and the multiset loses exactly that element) and changes nothing when absent |
| Sequences.RemoveFirstSplits | Core/Domain/LMSWebAppClean.Domain/Model/Member.cs:61 | Removing the first occurrence at position i keeps what comes before and after it, in order |
| Sequences.RemoveFirstAppended | Core/Domain/LMSWebAppClean.Domain/Model/Member.cs:42-62 | Appending an absent element and removing it gives back the original list |
| Validation.Success | Core/Application/LMSWebAppClean.Application/Interface/IValidator.cs:15 | A valid result with no messages |
| Validation.Failure | Core/Application/LMSWebAppClean.Application/Interface/IValidator.cs:17-27 | An invalid result carrying the given messages in order, even when there are none |
| Validation.Verdict | Core/Application/LMSWebAppClean.Application/Usecase/Borrowing/Borrow/BorrowCommandValidator.cs:23-25 | How each validator ends: valid exactly when no message was collected, carrying the messages |
| Validation.Failures | Core/Application/LMSWebAppClean.Application/Behavior/ValidationBehavior.cs:26-29 | The messages of the invalid results, in result order; never more than all messages together |
| Validation.FailuresAppend | Core/Application/LMSWebAppClean.Application/Behavior/ValidationBehavior.cs:26-29 | Collecting over two runs of results gives the messages of the first, then those of the second |
| Validation.FailuresEmpty | Core/Application/LMSWebAppClean.Application/Behavior/ValidationBehavior.cs:26-29 | Nothing is collected exactly when no invalid result carries a message |
| Validation.FailuresFromInvalid | Core/Application/LMSWebAppClean.Application/Behavior/ValidationBehavior.cs:26-29 | Every collected message comes from some invalid result |
| Validation.RunAll | Core/Application/LMSWebAppClean.Application/Behavior/ValidationBehavior.cs:23-24 | One result per validator, in registration order, each the validator's answer for the request |
| Validation.Handle | Core/Application/LMSWebAppClean.Application/Behavior/ValidationBehavior.cs:16-38 | With no validators, or nothing collected, the next handler's answer; otherwise ArgumentException with the collected messages joined by "; " |
| FieldRules.EmailErrors | Core/Application/LMSWebAppClean.Application/Usecase/Identity/RegisterUser/RegisterUserCommandValidator.cs:27-38 | At most one message; none exactly when the email is present, accepted by the address parser and at most 254 characters |
| FieldRules.PositiveId | Core/Application/LMSWebAppClean.Application/Usecase/Borrowing/Borrow/BorrowCommandValidator.cs:12-15 | No message exactly for a positive id; otherwise the single message naming the field |
| FieldRules.RequiredWithin | Core/Application/LMSWebAppClean.Application/Usecase/Books/CreateBook/CreateBookCommandValidator.cs:12-19 | At most one message; none exactly for a non-blank value within the bound; a blank value gets 'required' |
| FieldRules.OptionalWithin | Core/Application/LMSWebAppClean.Application/Usecase/Books/CreateBook/CreateBookCommandValidator.cs:22-25 | At most one message; none exactly for a blank value or one within the bound |
| FieldRules.OptionalBetween | Core/Application/LMSWebAppClean.Application/Usecase/Books/UpdateBook/UpdateBookCommandValidator.cs:49-59 | At most one message; none exactly for a blank value or one whose length lies in the range |
| FieldRules.OptionalBetweenBoth | Core/Application/LMSWebAppClean.Application/Usecase/Users/UpdateUser/UpdateUserCommandValidator.cs:27-37 | Two independent length checks; at most one message when the range is non-empty, none exactly for a blank value or one in range |
| FieldRules.YearErrors | Core/Application/LMSWebAppClean.Application/Usecase/Books/CreateBook/CreateBookCommandValidator.cs:28-35 | At most one message; none exactly for an absent year or one in 1000..currentYear+1 |
| FieldRules.CheckRequired | Core/Application/LMSWebAppClean.Application/Usecase/Books/CreateBook/CreateBookCommandValidator.cs:12-19 | Appends exactly what `RequiredWithin` reports for the field |
| FieldRules.CheckOptional | Core/Application/LMSWebAppClean.Application/Usecase/Books/CreateBook/CreateBookCommandValidator.cs:22-25 | Appends exactly what `OptionalWithin` reports for the field |
| FieldRules.CheckEmail | Core/Application/LMSWebAppClean.Application/Usecase/Users/CreateUser/CreateUserCommandValidator.cs:23-34 | Appends exactly what `EmailErrors` reports for the email |
| BookValidators.CheckYear | Core/Application/LMSWebAppClean.Application/Usecase/Books/CreateBook/CreateBookCommandValidator.cs:28-35 | Appends exactly what `YearErrors` reports for the year |
| BookValidators.CreateBookErrorsEmptyExactly | Core/Application/LMSWebAppClean.Application/Usecase/Books/CreateBook/CreateBookCommandValidator.cs:12-49 | The four fields together report at most four messages, and none exactly when every field passes |
| BookValidators.ValidateCreateBook | Core/Application/LMSWebAppClean.Application/Usecase/Books/CreateBook/CreateBookCommandValidator.cs:8-52 | Title, author, year and category messages in that order, at most four; valid exactly when title and category are present within 200 and 50 characters, the author at most 100 and the year absent or in 1000..currentYear+1 |
| BookValidators.CheckLongText | Core/Application/LMSWebAppClean.Application/Usecase/Books/UpdateBook/UpdateBookCommandValidator.cs:49-72 | Appends exactly what `OptionalBetween` reports for ISBN or synopsis |
| BookValidators.UpdateBookErrorsEmptyExactly | Core/Application/LMSWebAppClean.Application/Usecase/Books/UpdateBook/UpdateBookCommandValidator.cs:12-76 | The seven fields together report at most seven messages, and none exactly when every field passes |
| BookValidators.ValidateUpdateBook | Core/Application/LMSWebAppClean.Application/Usecase/Books/UpdateBook/UpdateBookCommandValidator.cs:8-78 | Book id, title, author, year, category, ISBN and synopsis messages in that order, at most seven; valid exactly when each field passes its rule (category optional here) |
| BookValidators.YearWindowsDisagree | Core/Application/LMSWebAppClean.Application/Usecase/Books/CreateBook/CreateBookCommandValidator.cs:28-35 | Against Book.cs:68-79: a year passes validation but is refused by the entity exactly when it lies in 1000..1099 or after 2025 up to next year |
| BookValidators.EntityYearsPassValidation | Core/Application/LMSWebAppClean.Application/Usecase/Books/CreateBook/CreateBookCommandValidator.cs:28-35 | From a clock of 2024 on, every year the entity accepts also passes validation |
| UserValidators.CreateTypeErrors | Core/Application/LMSWebAppClean.Application/Usecase/Users/CreateUser/CreateUserCommandValidator.cs:37-41 | No message exactly for one of the three creatable roles; otherwise the single invalid-type message |
| UserValidators.OptionalIdErrors | Core/Application/LMSWebAppClean.Application/Usecase/Users/CreateUser/CreateUserCommandValidator.cs:44-47 | No message exactly for an absent or positive id; otherwise the single id message |
| UserValidators.CreateUserErrorsEmptyExactly | Core/Application/LMSWebAppClean.Application/Usecase/Users/CreateUser/CreateUserCommandValidator.cs:13-47 | The four fields together report at most four messages, and none exactly when every field passes |
| UserValidators.CheckCreateType | Core/Application/LMSWebAppClean.Application/Usecase/Users/CreateUser/CreateUserCommandValidator.cs:37-41 | Appends exactly what `CreateTypeErrors` reports for the role |
| UserValidators.ValidateCreateUser | Core/Application/LMSWebAppClean.Application/Usecase/Users/CreateUser/CreateUserCommandValidator.cs:8-54 | Name, email, role and id messages in that order, at most four; valid exactly when the name is present within 100, the email passes its chain, the role is creatable and an id, if given, is positive |
| UserValidators.AddressErrors | Core/Application/LMSWebAppClean.Application/Usecase/Users/UpdateUser/UpdateUserCommandValidator.cs:53-63 | At most one message; none exactly for an absent address or a non-blank one within 200 characters; a present blank address gets its own message |
| UserValidators.CheckNamePart | Core/Application/LMSWebAppClean.Application/Usecase/Users/UpdateUser/UpdateUserCommandValidator.cs:27-50 | Appends exactly what `OptionalBetweenBoth` reports for the first or last name |
| UserValidators.CheckAddress | Core/Application/LMSWebAppClean.Application/Usecase/Users/UpdateUser/UpdateUserCommandValidator.cs:53-63 | Appends exactly what `AddressErrors` reports |
| UserValidators.UpdateUserErrorsEmptyExactly | Core/Application/LMSWebAppClean.Application/Usecase/Users/UpdateUser/UpdateUserCommandValidator.cs:12-63 | The five fields together report at most five messages, and none exactly when every field passes |
| UserValidators.ValidateUpdateUser | Core/Application/LMSWebAppClean.Application/Usecase/Users/UpdateUser/UpdateUserCommandValidator.cs:7-70 | User id, name, first name, last name and address messages in that order, at most five; valid exactly when every field passes |
| IdentityValidators.PasswordRules | Core/Application/LMSWebAppClean.Application/Usecase/Identity/RegisterUser/RegisterUserCommandValidator.cs:81-104 | The five strength rules in the order they are checked |
| IdentityValidators.Failure | Core/Application/LMSWebAppClean.Application/Usecase/Identity/RegisterUser/RegisterUserCommandValidator.cs:81-104 | A rule contributes nothing exactly when it holds, else its one message |
| IdentityValidators.FailedMessages | Core/Application/LMSWebAppClean.Application/Usecase/Identity/RegisterUser/RegisterUserCommandValidator.cs:77-107 | No more messages than rules; none exactly when every rule holds |
| IdentityValidators.FailedMessagesOfFive | Core/Application/LMSWebAppClean.Application/Usecase/Identity/RegisterUser/RegisterUserCommandValidator.cs:77-107 | For five rules, the messages are those of each failing rule in turn |
| IdentityValidators.StrongExactlyWhenNoRuleFails | Core/Application/LMSWebAppClean.Application/Usecase/Identity/RegisterUser/RegisterUserCommandValidator.cs:77-107 | No rule fails exactly for a strong password: 12 or more characters with an upper-case letter, a lower-case letter, a digit and a character that is neither letter nor digit |
| IdentityValidators.ValidatePassword | Core/Application/LMSWebAppClean.Application/Usecase/Identity/RegisterUser/RegisterUserCommandValidator.cs:77-107 | One message per failed rule in rule order, at most five; none exactly for a strong password |
| IdentityValidators.RegisterNameErrors | Core/Application/LMSWebAppClean.Application/Usecase/Identity/RegisterUser/RegisterUserCommandValidator.cs:13-24 | At most one message; none exactly for a non-blank name of 2..100 characters |
| IdentityValidators.PasswordErrors | Core/Application/LMSWebAppClean.Application/Usecase/Identity/RegisterUser/RegisterUserCommandValidator.cs:41-49 | A blank password gives only 'required'; none exactly for a present strong password |
| IdentityValidators.RegisterTypeErrors | Core/Application/LMSWebAppClean.Application/Usecase/Identity/RegisterUser/RegisterUserCommandValidator.cs:52-55 | No message exactly for a non-blank role other than "None"; otherwise the single invalid-type message |
| IdentityValidators.CheckRegisterName | Core/Application/LMSWebAppClean.Application/Usecase/Identity/RegisterUser/RegisterUserCommandValidator.cs:13-24 | Appends exactly what `RegisterNameErrors` reports |
| IdentityValidators.CheckPassword | Core/Application/LMSWebAppClean.Application/Usecase/Identity/RegisterUser/RegisterUserCommandValidator.cs:41-49 | Appends exactly what `PasswordErrors` reports |
| IdentityValidators.RegisterErrorsEmptyExactly | Core/Application/LMSWebAppClean.Application/Usecase/Identity/RegisterUser/RegisterUserCommandValidator.cs:13-59 | The four fields together report nothing exactly when every field passes |
| IdentityValidators.ValidateRegisterUser | Core/Application/LMSWebAppClean.Application/Usecase/Identity/RegisterUser/RegisterUserCommandValidator.cs:8-62 | Name, email, password and role messages in that order; valid exactly when the name has 2..100 characters, the email passes its chain, the password is strong and the role is neither blank nor "None" |
| IdentityValidators.LoginEmailErrors | Core/Application/LMSWebAppClean.Application/Usecase/Identity/LoginUser/LoginUserCommandValidator.cs:12-19 | At most one message; none exactly for a present email the address parser accepts, with no length limit |
| IdentityValidators.PasswordPresent | Core/Application/LMSWebAppClean.Application/Usecase/Identity/LoginUser/LoginUserCommandValidator.cs:22-25 | No message exactly for a non-blank password; otherwise 'required' |
| IdentityValidators.ValidateLoginUser | Core/Application/LMSWebAppClean.Application/Usecase/Identity/LoginUser/LoginUserCommandValidator.cs:7-32 | Email then password messages, at most two; valid exactly when the email is present and well-formed and a password is given |
| IdentityValidators.LoginAcceptsLongerEmails | Core/Application/LMSWebAppClean.Application/Usecase/Identity/LoginUser/LoginUserCommandValidator.cs:12-19 | Against the registration chain (RegisterUserCommandValidator.cs:35-38): an accepted email longer than 254 characters passes login validation but fails registration |
| IdValidators.ValidateId | Core/Application/LMSWebAppClean.Application/Usecase/Borrowing/GetBorrowedBooks/GetBorrowedBooksQueryValidator.cs:7-22 | Valid exactly for a positive id; otherwise the single message naming the field |
| IdValidators.ValidateBookAndMember | Core/Application/LMSWebAppClean.Application/Usecase/Borrowing/Borrow/BorrowCommandValidator.cs:7-28 | Book then member message, each reported independently; valid exactly when both ids are positive |
| IdValidators.ValidateBorrow | Core/Application/LMSWebAppClean.Application/Usecase/Borrowing/Borrow/BorrowCommandValidator.cs:7-28 | Valid exactly when book and member ids are positive; the messages in book, member order |
| IdValidators.ValidateReturn | Core/Application/LMSWebAppClean.Application/Usecase/Borrowing/Return/ReturnCommandValidator.cs:7-28 | Valid exactly when book and member ids are positive; the messages in book, member order |
| IdValidators.ValidateGetBorrowedBooks | Core/Application/LMSWebAppClean.Application/Usecase/Borrowing/GetBorrowedBooks/GetBorrowedBooksQueryValidator.cs:7-22 | Valid exactly for a positive member id |
| IdValidators.ValidateDeleteBook | Core/Application/LMSWebAppClean.Application/Usecase/Books/DeleteBook/DeleteBookCommandValidator.cs:7-22 | Valid exactly for a positive book id |
| IdValidators.ValidateGetBookById | Core/Application/LMSWebAppClean.Application/Usecase/Books/GetBookById/GetBookByIdQueryValidator.cs:7-22 | Valid exactly for a positive book id |
| IdValidators.ValidateDeleteUser | Core/Application/LMSWebAppClean.Application/Usecase/Users/DeleteUser/DeleteUserCommandValidator.cs:7-22 | Valid exactly for a positive user id |
| IdValidators.ValidateGetUserById | Core/Application/LMSWebAppClean.Application/Usecase/Users/GetUserById/GetUserByIdQueryValidator.cs:7-22 | Valid exactly for a positive user id |
| RegistrationService.InputErrors | Infarstructure/Identity/LMSWebAppClean.Identity/Services/UserRegistrationService.cs:85-99 | At most three messages; each 'required' message appears exactly when its field is blank, in name, email, password order; none exactly when all three are present |
| RegistrationService.ValidateInput | Infarstructure/Identity/LMSWebAppClean.Identity/Services/UserRegistrationService.cs:85-99 | Collects exactly the messages `InputErrors` describes |
| RegistrationService.ValidationStep | Infarstructure/Identity/LMSWebAppClean.Identity/Services/UserRegistrationService.cs:32-36 | Stops with a failure carrying the collected messages exactly when a field is blank, and goes on otherwise |
| RegistrationService.ExtractFirstName | Infarstructure/Identity/LMSWebAppClean.Identity/Services/UserRegistrationService.cs:101-104 | The text before the first space, or the whole name when it has none; never contains a space |
| RegistrationService.ExtractLastName | Infarstructure/Identity/LMSWebAppClean.Identity/Services/UserRegistrationService.cs:106-110 | Everything after the first space with its inner spaces kept, or empty when there is no space |
| RegistrationService.NameRoundTrip | Infarstructure/Identity/LMSWebAppClean.Identity/Services/UserRegistrationService.cs:101-110 | First name, a space and last name give back a name that contains a space; without one the first name is the whole name and the last name empty |
| Text.IndexOf | Infarstructure/Identity/LMSWebAppClean.Identity/Services/UserRegistrationService.cs:103 | The first position of the character, or -1 exactly when it is absent |
| Text.Split | Infarstructure/Identity/LMSWebAppClean.Identity/Services/UserRegistrationService.cs:103 | `Split(char)` yields at least one piece |
| Text.JoinSplit | Infarstructure/Identity/LMSWebAppClean.Identity/Services/UserRegistrationService.cs:108-109 | Joining the pieces of a split with the same separator gives back the string |
| Text.SplitHead | Infarstructure/Identity/LMSWebAppClean.Identity/Services/UserRegistrationService.cs:103 | The first piece is the text before the first separator, or the whole string; more than one piece exactly when the separator occurs |
| Text.SplitTail | Infarstructure/Identity/LMSWebAppClean.Identity/Services/UserRegistrationService.cs:108-109 | With a separator present, the pieces after the first rejoin to the text after it |
| Text.AnyChar | Core/Application/LMSWebAppClean.Application/Usecase/Identity/RegisterUser/RegisterUserCommandValidator.cs:86-101 | `Any` over the characters: true exactly when some character satisfies the test |
| Borrowing.BorrowCommandHandler.constructor | Core/Application/LMSWebAppClean.Application/Usecase/Borrowing/Borrow/BorrowCommandHandler.cs:21-31 | The handler holds the given collaborators |
| Borrowing.BorrowCommandHandler.Rejection | Core/Application/LMSWebAppClean.Application/Usecase/Borrowing/Borrow/BorrowCommandHandler.cs:37-54 | No rejection exactly when the permission is granted, the book exists and is available, and the member id names a member; every rejection is of a rethrown type, a missing grant first |
| Borrowing.BorrowCommandHandler.Lend | Core/Application/LMSWebAppClean.Application/Usecase/Borrowing/Borrow/BorrowCommandHandler.cs:56-62 | The book becomes unavailable and is marked updated; the book is appended to the member's list (a null list counts as empty) and the member is marked updated; one commit or the database's exception |
| Borrowing.BorrowCommandHandler.Handle | Core/Application/LMSWebAppClean.Application/Usecase/Borrowing/Borrow/BorrowCommandHandler.cs:33-82 | A rejection is raised with no state changed; otherwise the lend takes place and the result is the book, or the save failure through the catch clauses; success exactly when nothing rejects and the save succeeds; no commit on failure |
| Borrowing.HasBookId | Core/Application/LMSWebAppClean.Application/Usecase/Borrowing/Return/ReturnCommandHandler.cs:51 | `Any(b => b.Id == id)`: true exactly when some listed book carries the id |
| Borrowing.WithoutBookId | Core/Application/LMSWebAppClean.Application/Usecase/Borrowing/Return/ReturnCommandHandler.cs:59 | `RemoveAll(b => b.Id == id)`: keeps exactly the listed books without the id, and none left carries it |
| Borrowing.RemoveAllUndoesAppend | Core/Application/LMSWebAppClean.Application/Usecase/Borrowing/Return/ReturnCommandHandler.cs:59 | When no listed book carries the id, appending a book with that id and removing the id gives back the list |
| Borrowing.ReturnCommandHandler.constructor | Core/Application/LMSWebAppClean.Application/Usecase/Borrowing/Return/ReturnCommandHandler.cs:21-31 | The handler holds the given collaborators |
| Borrowing.ReturnCommandHandler.Refusal | Core/Application/LMSWebAppClean.Application/Usecase/Borrowing/Return/ReturnCommandHandler.cs:37-49 | No refusal exactly when the permission is granted, the book exists and the member id names a member; availability is not consulted |
| Borrowing.ReturnCommandHandler.Rejection | Core/Application/LMSWebAppClean.Application/Usecase/Borrowing/Return/ReturnCommandHandler.cs:37-54 | No rejection exactly when the lookups succeed and the member's list holds an entry with the book's id; every rejection is of a rethrown type |
| Borrowing.ReturnCommandHandler.Lookup | Core/Application/LMSWebAppClean.Application/Usecase/Borrowing/Return/ReturnCommandHandler.cs:37-49 | Fails exactly with the refusal, changing nothing; otherwise returns the stored book and member |
| Borrowing.ReturnCommandHandler.Settle | Core/Application/LMSWebAppClean.Application/Usecase/Borrowing/Return/ReturnCommandHandler.cs:51-62 | Without an entry for the book, InvalidOperationException and only the list getter's effect; otherwise the return takes place |
| Borrowing.ReturnCommandHandler.TakeBack | Core/Application/LMSWebAppClean.Application/Usecase/Borrowing/Return/ReturnCommandHandler.cs:56-62 | The book becomes available and is marked updated, every entry with the id leaves the member's list and the member is marked updated; one commit or the database's exception |
| Borrowing.ReturnCommandHandler.MarkAvailable | Core/Application/LMSWebAppClean.Application/Usecase/Borrowing/Return/ReturnCommandHandler.cs:56-57 | The book becomes available and is marked updated; nothing else changes |
| Borrowing.ReturnCommandHandler.DropEntries | Core/Application/LMSWebAppClean.Application/Usecase/Borrowing/Return/ReturnCommandHandler.cs:59-60 | Every entry with the id leaves the member's list and the member is marked updated; nothing else changes |
| Borrowing.ReturnCommandHandler.Attempt | Core/Application/LMSWebAppClean.Application/Usecase/Borrowing/Return/ReturnCommandHandler.cs:35-64 | The try block: a rejection is raised with no book, repository or commit changed; otherwise the return takes place |
| Borrowing.ReturnCommandHandler.Handle | Core/Application/LMSWebAppClean.Application/Usecase/Borrowing/Return/ReturnCommandHandler.cs:33-82 | As the try block, followed by the catch clauses: success exactly when nothing rejects and the save succeeds; a save failure goes through the catch clauses; no commit on failure |
| Borrowing.GetBorrowedBooksQueryHandler.constructor | Core/Application/LMSWebAppClean.Application/Usecase/Borrowing/GetBorrowedBooks/GetBorrowedBooksQueryHandler.cs:14-20 | The handler holds the given collaborators |
| Borrowing.GetBorrowedBooksQueryHandler.FindMember | Core/Application/LMSWebAppClean.Application/Usecase/Borrowing/GetBorrowedBooks/GetBorrowedBooksQueryHandler.cs:26-32 | A missing grant raises UnauthorizedAccess, an id that names no member KeyNotFound; otherwise the stored member |
| Borrowing.GetBorrowedBooksQueryHandler.Handle | Core/Application/LMSWebAppClean.Application/Usecase/Borrowing/GetBorrowedBooks/GetBorrowedBooksQueryHandler.cs:22-48 | The member's list (empty when none was set, and then installed) exactly when the grant holds and the id names a member; the two failures pass the catch clauses unchanged; no other user changes |
| Catalogue.CreateBookCommandHandler.constructor | Core/Application/LMSWebAppClean.Application/Usecase/Books/CreateBook/CreateBookCommandHandler.cs:14-19 | The handler holds the given collaborators |
| Catalogue.CreateBookCommandHandler.Rejection | Core/Application/LMSWebAppClean.Application/Usecase/Books/CreateBook/CreateBookCommandHandler.cs:26-32 | No rejection exactly when the permission is granted and the title is not blank; the missing grant is checked first |
| Catalogue.CreateBookCommandHandler.Handle | Core/Application/LMSWebAppClean.Application/Usecase/Books/CreateBook/CreateBookCommandHandler.cs:21-59 | A rejection is raised with nothing changed; an author, year or category the entity refuses becomes the wrapped creation error; otherwise a fresh valid book with the requested values is tracked and saved; success exactly when all pass and the save succeeds |
| Catalogue.SetterRejection | Core/Application/LMSWebAppClean.Application/Usecase/Books/UpdateBook/UpdateBookCommandHandler.cs:38-42 | No rejection exactly when author, year, category, ISBN and synopsis are all accepted; otherwise the first refusing setter's exception |
| Catalogue.Revised | Core/Application/LMSWebAppClean.Application/Usecase/Books/UpdateBook/UpdateBookCommandHandler.cs:37-42 | The book after the six assignments: the title always stored, id, availability and links untouched, all six stored when all are accepted, the synopsis kept otherwise; validity is kept |
| Catalogue.UpdateBookCommandHandler.constructor | Core/Application/LMSWebAppClean.Application/Usecase/Books/UpdateBook/UpdateBookCommandHandler.cs:14-19 | The handler holds the given collaborators |
| Catalogue.UpdateBookCommandHandler.Revise | Core/Application/LMSWebAppClean.Application/Usecase/Books/UpdateBook/UpdateBookCommandHandler.cs:37-42 | The book ends in the revised state; the outcome fails exactly with the first setter rejection |
| Catalogue.UpdateBookCommandHandler.Apply | Core/Application/LMSWebAppClean.Application/Usecase/Books/UpdateBook/UpdateBookCommandHandler.cs:37-45 | The revised book, validity kept; a setter rejection is raised with nothing marked or saved; otherwise the book is marked updated and one commit or the database's exception |
| Catalogue.UpdateBookCommandHandler.Handle | Core/Application/LMSWebAppClean.Application/Usecase/Books/UpdateBook/UpdateBookCommandHandler.cs:21-65 | A blank title or unknown id raises its exception with nothing changed; otherwise the book ends in the revised state, other books untouched; a refused value becomes the wrapped update error with nothing saved; success exactly when everything is accepted and the save succeeds |
| Catalogue.DeleteBookCommandHandler.constructor | Core/Application/LMSWebAppClean.Application/Usecase/Books/DeleteBook/DeleteBookCommandHandler.cs:14-19 | The handler holds the given collaborators |
| Catalogue.DeleteBookCommandHandler.Handle | Core/Application/LMSWebAppClean.Application/Usecase/Books/DeleteBook/DeleteBookCommandHandler.cs:21-47 | The id is gone from the repository's view (before the save, so also when the save fails); an unknown id raises KeyNotFound with nothing changed; success exactly when the book existed and the save succeeds, returning the removed book |
| UserAdministration.KindFor | Core/Application/LMSWebAppClean.Application/Usecase/Users/CreateUser/CreateUserCommandHandler.cs:31-35 | The member role picks Member, either staff role picks Staff, and the class accepts the role |
| UserAdministration.CreateUserCommandHandler.constructor | Core/Application/LMSWebAppClean.Application/Usecase/Users/CreateUser/CreateUserCommandHandler.cs:16-21 | The handler holds the given collaborators |
| UserAdministration.CreateUserCommandHandler.Rejection | Core/Application/LMSWebAppClean.Application/Usecase/Users/CreateUser/CreateUserCommandHandler.cs:28-38 | No rejection exactly when the grant holds, the role is creatable and the name is not blank; the missing grant first |
| UserAdministration.CreateUserCommandHandler.Handle | Core/Application/LMSWebAppClean.Application/Usecase/Users/CreateUser/CreateUserCommandHandler.cs:23-57 | A rejection is raised with nothing changed; otherwise a fresh valid user of the requested class, name and role with no id is tracked and saved; success exactly when nothing rejects and the save succeeds |
| UserAdministration.UpdateUserHandler.constructor | Core/Application/LMSWebAppClean.Application/Usecase/Users/UpdateUser/UpdateUserHandler.cs:19-24 | The handler holds the given collaborators |
| UserAdministration.UpdateUserHandler.Rejection | Core/Application/LMSWebAppClean.Application/Usecase/Users/UpdateUser/UpdateUserHandler.cs:31-38 | No rejection exactly when the grant holds and the id is known |
| UserAdministration.UpdateUserHandler.Rename | Core/Application/LMSWebAppClean.Application/Usecase/Users/UpdateUser/UpdateUserHandler.cs:41-47 | A non-blank name replaces the old one and nothing else of the user changes; the user is marked updated; one commit or the database's exception |
| UserAdministration.UpdateUserHandler.Handle | Core/Application/LMSWebAppClean.Application/Usecase/Users/UpdateUser/UpdateUserHandler.cs:26-67 | A rejection is raised with nothing changed; otherwise the rename takes place, other users untouched; success exactly when nothing rejects and the save succeeds |
| UserAdministration.DeleteUserCommandHandler.constructor | Core/Application/LMSWebAppClean.Application/Usecase/Users/DeleteUser/DeleteUserCommandHandler.cs:18-23 | The handler holds the given collaborators |
| UserAdministration.DeleteUserCommandHandler.Handle | Core/Application/LMSWebAppClean.Application/Usecase/Users/DeleteUser/DeleteUserCommandHandler.cs:25-51 | The id is gone from the repository's view (before the save, so also when the save fails); an unknown id raises KeyNotFound with nothing changed; success exactly when the user existed and the save succeeds, returning the removed user |
| Registration.Rejection | Core/Application/LMSWebAppClean.Application/Usecase/Auth/Register/RegisterCommandHandler.cs:25-43 | No rejection exactly when the name is not blank and the role is creatable; every rejection is an ArgumentException, the blank name first |
| Registration.RegisterCommandHandler.constructor | Core/Application/LMSWebAppClean.Application/Usecase/Auth/Register/RegisterCommandHandler.cs:14-18 | The handler holds the given collaborators |
| Registration.RegisterCommandHandler.Handle | Core/Application/LMSWebAppClean.Application/Usecase/Auth/Register/RegisterCommandHandler.cs:20-58 | A rejection is raised with nothing changed; otherwise a fresh valid member (with an empty list) or staff user carrying the name and role is tracked and saved; success exactly when nothing rejects and the save succeeds |

## Left out

- Startup, dependency injection, routing, the endpoint classes and the reflection-based registration: configuration and HTTP plumbing, with no decision logic.
- JWT issuing, claims, `CurrentUserService` and `RequestUserValidationService`: cryptography, wall-clock time and `HttpContext`.
- The ASP.NET Identity flows: `UserLoginService`, and the identity-store part of `UserRegistrationService.RegisterUserAsync` (user lookup, role creation, user creation). These are foreign library calls. Only the input check and the name helpers are modelled.
- The pass-through handlers (GetAllBooks, GetBookById, GetAllUsers, GetUserById, Login, LoginUser, RegisterUser) and the two validators that return a constant `Success`: they hold no decision logic.
- `async`, `Task` and `CancellationToken`: every handler is a sequential method. `ValidationBehavior` runs its validators concurrently, which is modelled as running them in order; the results are combined in validator order either way.
- The response bodies and the logging of the global exception handler: only the status code is modelled.
- The inner exception that a wrapping handler attaches to its generic `Exception`: a wrapped exception is modelled by its type and message only.
- `MailAddress` parsing and the Unicode character classes behind `char.IsUpper`, `IsLower`, `IsDigit` and `IsLetterOrDigit` are parameters and are not reimplemented.
- String lengths count Dafny characters, which equal the UTF-16 code units `string.Length` counts only for text in the Basic Multilingual Plane.
- Null checks on handler constructor arguments (`DeleteUserCommandHandler`, `RegisterCommandHandler`): the model's collaborators are never null.
- The `unitOfWork` that `PermissionChecker` receives and never uses.
- `IRepository.GetAll` and `GetWithIncludes`: no modelled operation calls them.
- The type of the `Book.Member` navigation property is simplified to the `Domain.User` class, and EF Core's relationship fix-up between `Member`, `MemberId` and `BorrowedBooks` is not modelled.
- Persistence.UnitOfWork.SaveChanges: a commit is a counter. Entities handed to `Add` stay in the repository's `added` log and are not given database-issued keys, so a created user or book has no id in the model.
- Persistence.Repository.Remove: the entity leaves the map at once, whereas EF Core only marks it deleted and removes it from the database at the next successful save. The map is the request's view of the store, not the committed database.
- Catalogue.DeleteBookCommandHandler.Handle: when the save fails, the model still shows the book gone from the repository. The program commits nothing then, so the book stays stored, and the pending deletion is discarded with the request's context. The contract is right about the outcome and the save count on that path but not about the stored books.
- UserAdministration.DeleteUserCommandHandler.Handle: when the save fails, the model still shows the user gone from the repository. The program commits nothing then, so the user stays stored. The contract is right about the outcome and the save count on that path but not about the stored users.
- Persistence.Repository.Update: only logs the entity. The change tracker's bookkeeping is not modelled.
- Borrowing.GetBorrowedBooksQueryHandler.Handle: returns the member's list as a value. The C# returns the live `List<Book>`, so aliasing through that reference is not captured.
- Borrowing.GetBorrowedBooksQueryHandler.Handle: its catch-all wrapping clause cannot be reached in the model, because the only exceptions raised in its try block are the two it rethrows.
- RegistrationService.ExtractFirstName and RegistrationService.ExtractLastName: a null `fullName` (a `NullReferenceException` in the C#) is not modelled; the argument is a string.
- BookValidators.ValidateCreateBook and BookValidators.ValidateUpdateBook: the current year is a parameter in place of `DateTime.Now.Year`.
