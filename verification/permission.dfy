/** The closed catalogue of permission tokens (Permission.cs). A token is an opaque string:
    the `Self.` and `Process.` prefixes are a naming convention, and the access-decision engine,
    not the token, gives them meaning. */
module Permission {

  // Authentication endpoints
  const HandleRegister: string := "HandleRegister"
  const HandleLogin: string := "HandleLogin"
  const HandleLogout: string := "HandleLogout"

  // Book endpoints, public
  const HandleGetAllBooks: string := "HandleGetAllBooks"
  const HandleGetBookById: string := "HandleGetBookById"

  // Acting on one's own record
  const SelfGetUserById: string := "Self.GetUserById"
  const SelfUpdateUser: string := "Self.UpdateUser"
  const SelfBorrowBook: string := "Self.BorrowBook"
  const SelfReturnBook: string := "Self.ReturnBook"
  const SelfGetBorrowedBooks: string := "Self.GetBorrowedBooks"

  // Acting on another user's record
  const ProcessGetUserById: string := "Process.GetUserById"
  const ProcessGetAllUsers: string := "Process.GetAllUsers"
  const ProcessUpdateUser: string := "Process.UpdateUser"
  const ProcessCreateUser: string := "Process.CreateUser"
  const ProcessDeleteUser: string := "Process.DeleteUser"
  const ProcessCreateBook: string := "Process.CreateBook"
  const ProcessUpdateBook: string := "Process.UpdateBook"
  const ProcessDeleteBook: string := "Process.DeleteBook"
  const ProcessBorrowBook: string := "Process.BorrowBook"
  const ProcessReturnBook: string := "Process.ReturnBook"
  const ProcessGetBorrowedBooks: string := "Process.GetBorrowedBooks"

  // Special tokens
  const None: string := "None"
  const Public: string := "Public"
  const All: string := "All"

  function PlainTokens(): seq<string> {
    [HandleRegister, HandleLogin, HandleLogout, HandleGetAllBooks, HandleGetBookById]
  }

  function SelfTokens(): seq<string> {
    [SelfGetUserById, SelfUpdateUser, SelfBorrowBook, SelfReturnBook, SelfGetBorrowedBooks]
  }

  function ProcessTokens(): seq<string> {
    [ProcessGetUserById, ProcessGetAllUsers, ProcessUpdateUser, ProcessCreateUser, ProcessDeleteUser,
     ProcessCreateBook, ProcessUpdateBook, ProcessDeleteBook, ProcessBorrowBook, ProcessReturnBook,
     ProcessGetBorrowedBooks]
  }

  function SpecialTokens(): seq<string> {
    [None, Public, All]
  }

  /** Every action token, of all three kinds. */
  function ActionTokens(): seq<string> {
    PlainTokens() + SelfTokens() + ProcessTokens()
  }

  /** The five actions that exist in both a self and a process form, paired up. */
  function SelfProcessPairs(): seq<(string, string)> {
    [(SelfGetUserById, ProcessGetUserById), (SelfUpdateUser, ProcessUpdateUser),
     (SelfBorrowBook, ProcessBorrowBook), (SelfReturnBook, ProcessReturnBook),
     (SelfGetBorrowedBooks, ProcessGetBorrowedBooks)]
  }

  /** For every action with both forms, the self token and the process token differ. */
  lemma SelfAndProcessDiffer()
    ensures forall i :: 0 <= i < |SelfProcessPairs()| ==> SelfProcessPairs()[i].0 != SelfProcessPairs()[i].1
  {
  }

  /** `None`, `Public` and `All` differ from each other and from every action token. */
  lemma SpecialTokensDistinct()
    ensures None != Public && None != All && Public != All
    ensures forall t :: t in ActionTokens() ==> t !in SpecialTokens()
  {
  }

  /** Every self token carries the `Self.` prefix and every process token the `Process.`
      prefix, so the two families never share a token. */
  lemma TokenPrefixes()
    ensures forall t :: t in SelfTokens() ==> |t| > 5 && t[..5] == "Self."
    ensures forall t :: t in ProcessTokens() ==> |t| > 8 && t[..8] == "Process."
    ensures forall t :: t in SelfTokens() ==> t !in ProcessTokens()
  {
    var selfs := SelfTokens();
    var processes := ProcessTokens();
    forall i | 0 <= i < |selfs|
      ensures |selfs[i]| > 5 && selfs[i][..5] == "Self." && selfs[i][4] == '.'
    {
    }
    forall i | 0 <= i < |processes|
      ensures |processes[i]| > 8 && processes[i][..8] == "Process." && processes[i][4] == 'e'
    {
    }
  }
}
