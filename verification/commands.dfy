/** The request records the handlers and validators receive, each with the fields its handler
    and validator read. A nullable or unchecked string is an `Option<string>`. */
module Commands {
  import opened Wrappers

  datatype RegisterUserCommand = RegisterUserCommand(
    name: Option<string>, email: Option<string>, password: Option<string>, userType: Option<string>)

  datatype LoginUserCommand = LoginUserCommand(email: Option<string>, password: Option<string>)

  datatype RegisterCommand = RegisterCommand(
    name: Option<string>, userType: Option<string>, email: Option<string>, password: Option<string>)

  datatype CreateUserCommand = CreateUserCommand(
    authId: int, name: Option<string>, email: Option<string>, userType: Option<string>, id: Option<int>)

  datatype UpdateUserCommand = UpdateUserCommand(
    authId: int, userId: int, name: Option<string>,
    firstName: Option<string>, lastName: Option<string>, address: Option<string>)

  datatype DeleteUserCommand = DeleteUserCommand(authId: int, userId: int)

  datatype GetUserByIdQuery = GetUserByIdQuery(authId: int, userId: int)

  datatype CreateBookCommand = CreateBookCommand(
    authId: int, title: Option<string>, author: Option<string>, year: Option<int>, category: Option<string>)

  datatype UpdateBookCommand = UpdateBookCommand(
    authId: int, bookId: int, title: Option<string>, author: Option<string>, year: Option<int>,
    category: Option<string>, isbn: Option<string>, synopsis: Option<string>)

  datatype DeleteBookCommand = DeleteBookCommand(authId: int, bookId: int)

  datatype GetBookByIdQuery = GetBookByIdQuery(authId: int, bookId: int)

  datatype BorrowCommand = BorrowCommand(authId: int, bookId: int, memberId: int)

  datatype ReturnCommand = ReturnCommand(authId: int, bookId: int, memberId: int)

  datatype GetBorrowedBooksQuery = GetBorrowedBooksQuery(authId: int, memberId: int)
}
