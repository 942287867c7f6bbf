/** The validators that only check identifiers: the borrow and return commands (book and member
    id) and the single-id commands and queries (get borrowed books, delete or fetch a book,
    delete or fetch a user). None of them looks at the requester's `AuthId`. */
module IdValidators {
  import opened Validation
  import opened FieldRules
  import opened Commands

  /** One positive-id check: the single message naming the field when the value is not positive,
      `Success` otherwise. */
  method ValidateId(value: int, message: string) returns (r: ValidationResult)
    ensures r.isValid <==> value > 0
    ensures value <= 0 ==> r == Failure([message])
    ensures value > 0 ==> r == Success()
  {
    var errors: seq<string> := [];
    if value <= 0 {
      errors := errors + [message];
    }
    r := Verdict(errors);
  }

  /** Book id then member id, each reported independently, the book's message first. */
  method ValidateBookAndMember(bookId: int, memberId: int) returns (r: ValidationResult)
    ensures r.isValid <==> bookId > 0 && memberId > 0
    ensures r.errors == PositiveId(bookId, BookIdNotPositive) + PositiveId(memberId, MemberIdNotPositive)
    ensures bookId <= 0 && memberId <= 0 ==>
      r.errors == [BookIdNotPositive, MemberIdNotPositive]
  {
    var errors: seq<string> := [];
    if bookId <= 0 {
      errors := errors + [BookIdNotPositive];
    }
    if memberId <= 0 {
      errors := errors + [MemberIdNotPositive];
    }
    r := Verdict(errors);
  }

  /** `BorrowCommandValidator.ValidateAsync`: the shared book-and-member check. */
  method ValidateBorrow(request: BorrowCommand) returns (r: ValidationResult)
    ensures r.isValid <==> request.bookId > 0 && request.memberId > 0
    ensures r.errors == PositiveId(request.bookId, BookIdNotPositive) + PositiveId(request.memberId, MemberIdNotPositive)
  {
    r := ValidateBookAndMember(request.bookId, request.memberId);
  }

  /** `ReturnCommandValidator.ValidateAsync`: a separate class in the source with the same two
      checks as `BorrowCommandValidator`, so it delegates to the same shared check. */
  method ValidateReturn(request: ReturnCommand) returns (r: ValidationResult)
    ensures r.isValid <==> request.bookId > 0 && request.memberId > 0
    ensures r.errors == PositiveId(request.bookId, BookIdNotPositive) + PositiveId(request.memberId, MemberIdNotPositive)
  {
    r := ValidateBookAndMember(request.bookId, request.memberId);
  }

  /** `GetBorrowedBooksQueryValidator.ValidateAsync`. */
  method ValidateGetBorrowedBooks(request: GetBorrowedBooksQuery) returns (r: ValidationResult)
    ensures r.isValid <==> request.memberId > 0
    ensures r.errors == PositiveId(request.memberId, MemberIdNotPositive)
  {
    r := ValidateId(request.memberId, MemberIdNotPositive);
  }

  /** `DeleteBookCommandValidator.ValidateAsync`: the shared single-id check on the book id. */
  method ValidateDeleteBook(request: DeleteBookCommand) returns (r: ValidationResult)
    ensures r.isValid <==> request.bookId > 0
    ensures r.errors == PositiveId(request.bookId, BookIdNotPositive)
  {
    r := ValidateId(request.bookId, BookIdNotPositive);
  }

  /** `GetBookByIdQueryValidator.ValidateAsync`: the same check as `DeleteBookCommandValidator`,
      through the shared single-id check. */
  method ValidateGetBookById(request: GetBookByIdQuery) returns (r: ValidationResult)
    ensures r.isValid <==> request.bookId > 0
    ensures r.errors == PositiveId(request.bookId, BookIdNotPositive)
  {
    r := ValidateId(request.bookId, BookIdNotPositive);
  }

  /** `DeleteUserCommandValidator.ValidateAsync`: the shared single-id check on the user id. */
  method ValidateDeleteUser(request: DeleteUserCommand) returns (r: ValidationResult)
    ensures r.isValid <==> request.userId > 0
    ensures r.errors == PositiveId(request.userId, UserIdNotPositive)
  {
    r := ValidateId(request.userId, UserIdNotPositive);
  }

  /** `GetUserByIdQueryValidator.ValidateAsync`: the same check as `DeleteUserCommandValidator`,
      through the shared single-id check. */
  method ValidateGetUserById(request: GetUserByIdQuery) returns (r: ValidationResult)
    ensures r.isValid <==> request.userId > 0
    ensures r.errors == PositiveId(request.userId, UserIdNotPositive)
  {
    r := ValidateId(request.userId, UserIdNotPositive);
  }
}
