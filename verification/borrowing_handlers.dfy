/** The borrowing use cases: `BorrowCommandHandler`, `ReturnCommandHandler` and
    `GetBorrowedBooksQueryHandler`. Each handler runs its steps in order inside one try block
    whose catch clauses rethrow the expected exception types and wrap anything else. The
    permission token each handler asks for is a parameter. */
module Borrowing {
  import opened Wrappers
  import opened Exceptions
  import opened Text
  import opened Domain
  import opened Commands
  import opened Persistence
  import opened PermissionChecking

  // ------------------------------------------------------------ BorrowCommandHandler

  const BorrowDenied: string := "You do not have permission to borrow books"
  const OnlyMembersBorrow: string := "Only members can borrow books"
  const BorrowRethrown: seq<ExceptionKind> := [UnauthorizedAccess, KeyNotFound, InvalidOperation]

  function BookNotFound(bookId: int): string {
    "Book with ID " + IntToString(bookId) + " not found"
  }

  function NotAvailable(bookId: int): string {
    "Book with ID " + IntToString(bookId) + " is not available for borrowing"
  }

  function BorrowFailed(bookId: int): string {
    "An error occurred while borrowing book with ID " + IntToString(bookId) + "."
  }

  class BorrowCommandHandler {
    const unitOfWork: UnitOfWork
    const permissionChecker: PermissionChecker
    const userRepository: Repository<User>
    const bookRepository: Repository<Book>

    constructor (unitOfWork: UnitOfWork, permissionChecker: PermissionChecker,
                 userRepository: Repository<User>, bookRepository: Repository<Book>)
      ensures this.unitOfWork == unitOfWork && this.permissionChecker == permissionChecker
      ensures this.userRepository == userRepository && this.bookRepository == bookRepository
    {
      this.unitOfWork := unitOfWork;
      this.permissionChecker := permissionChecker;
      this.userRepository := userRepository;
      this.bookRepository := bookRepository;
    }

    /** The exception the borrow stops at before changing anything, in the order the checks
        run: the permission, the book's existence, its availability, the member. */
    function Rejection(request: BorrowCommand, permission: string): (e: Option<Exception>)
      reads this, permissionChecker, permissionChecker.userRepository, permissionChecker.userRepository.entities.Values
      reads bookRepository, bookRepository.entities.Values, userRepository
      ensures e.None? <==>
        && permissionChecker.CheckIf(request.authId, permission)
        && request.bookId in bookRepository.entities && bookRepository.entities[request.bookId].available
        && request.memberId in userRepository.entities && userRepository.entities[request.memberId].kind == MemberKind
      ensures e.Some? ==> e.value.kind in BorrowRethrown
      ensures !permissionChecker.CheckIf(request.authId, permission) ==> e == Some(Exception(UnauthorizedAccess, BorrowDenied))
    {
      if !permissionChecker.CheckIf(request.authId, permission) then Some(Exception(UnauthorizedAccess, BorrowDenied))
      else if request.bookId !in bookRepository.entities then Some(Exception(KeyNotFound, BookNotFound(request.bookId)))
      else if !bookRepository.entities[request.bookId].available then Some(Exception(InvalidOperation, NotAvailable(request.bookId)))
      else if request.memberId !in userRepository.entities || userRepository.entities[request.memberId].kind != MemberKind then
        Some(Exception(InvalidOperation, OnlyMembersBorrow))
      else None
    }

    /** The steps after the checks: the book becomes unavailable and is marked updated, the
        member's list (installed empty if missing) gets the book appended and the member is
        marked updated, then one save. */
    method Lend(book: Book, member: User) returns (outcome: Outcome<Book>)
      requires member.kind == MemberKind
      modifies book, member, bookRepository, userRepository, unitOfWork
      ensures book.State() == old(book.State()).(available := false)
      ensures member.State() == old(member.State()).(borrowedBooks := Some(old(member.borrowedBooks).GetOr([]) + [book]))
      ensures bookRepository.entities == old(bookRepository.entities) && bookRepository.added == old(bookRepository.added)
      ensures bookRepository.updated == old(bookRepository.updated) + [book]
      ensures userRepository.entities == old(userRepository.entities) && userRepository.added == old(userRepository.added)
      ensures userRepository.updated == old(userRepository.updated) + [member]
      ensures old(unitOfWork.fault).None? ==> outcome == Ok(book) && unitOfWork.saves == old(unitOfWork.saves) + 1
      ensures old(unitOfWork.fault).Some? ==> outcome == Throw(old(unitOfWork.fault).value) && unitOfWork.saves == old(unitOfWork.saves)
    {
      book.available := false;
      bookRepository.Update(book);
      var books := member.BorrowedBooks();
      member.SetBorrowedBooks(Some(books + [book]));
      userRepository.Update(member);
      var saved := unitOfWork.SaveChanges();
      outcome := if saved.Throw? then Throw(saved.error) else Ok(book);
    }

    /** `Handle`: the checks run in order and the first that fails raises its exception before
        anything changes. Otherwise the book becomes unavailable and is appended to the
        member's list, both are marked updated and one save commits them; a failing save is
        wrapped unless it is of a rethrown type. Nothing is saved on failure. */
    method Handle(request: BorrowCommand, permission: string) returns (r: Outcome<Book>)
      modifies unitOfWork, bookRepository, userRepository, bookRepository.entities.Values, userRepository.entities.Values
      ensures old(Rejection(request, permission)).Some? ==>
        && r == Throw(old(Rejection(request, permission)).value)
        && unchanged(unitOfWork, bookRepository, userRepository)
        && (forall b :: b in old(bookRepository.entities.Values) ==> unchanged(b))
        && (forall u :: u in old(userRepository.entities.Values) ==> unchanged(u))
      ensures r.Ok? <==> old(Rejection(request, permission)).None? && old(unitOfWork.fault).None?
      ensures old(Rejection(request, permission)).None? ==>
        var book, member := old(bookRepository.entities[request.bookId]), old(userRepository.entities[request.memberId]);
        && book.State() == old(book.State()).(available := false)
        && member.State() == old(member.State()).(borrowedBooks := Some(old(member.borrowedBooks).GetOr([]) + [book]))
        && bookRepository.entities == old(bookRepository.entities) && bookRepository.added == old(bookRepository.added)
        && bookRepository.updated == old(bookRepository.updated) + [book]
        && userRepository.entities == old(userRepository.entities) && userRepository.added == old(userRepository.added)
        && userRepository.updated == old(userRepository.updated) + [member]
        && (r.Ok? ==> r.value == book && unitOfWork.saves == old(unitOfWork.saves) + 1)
        && (r.Throw? ==> r == Catch(Throw(old(unitOfWork.fault).value), BorrowRethrown, BorrowFailed(request.bookId)))
      ensures r.Throw? ==> unitOfWork.saves == old(unitOfWork.saves)
    {
      ghost var rejection := Rejection(request, permission);
      var outcome: Outcome<Book>;
      var check := permissionChecker.Check(request.authId, permission, BorrowDenied);
      if check.Throw? {
        outcome := Throw(check.error);
      } else {
        var found := bookRepository.Get(request.bookId);
        if found.None? {
          outcome := Throw(Exception(KeyNotFound, BookNotFound(request.bookId)));
        } else if !found.value.available {
          outcome := Throw(Exception(InvalidOperation, NotAvailable(request.bookId)));
        } else {
          var user := userRepository.Get(request.memberId);
          if user.None? || user.value.kind != MemberKind {
            outcome := Throw(Exception(InvalidOperation, OnlyMembersBorrow));
          } else {
            assert rejection.None?;
            outcome := Lend(found.value, user.value);
          }
        }
      }
      if rejection.Some? {
        assert outcome == Throw(rejection.value);
        Rethrown(outcome, BorrowRethrown, BorrowFailed(request.bookId));
      }
      r := Catch(outcome, BorrowRethrown, BorrowFailed(request.bookId));
    }
  }

  // ------------------------------------------------------------ ReturnCommandHandler

  const ReturnDenied: string := "You do not have permission to return books"
  const OnlyMembersReturn: string := "Only members can return books"
  const ReturnRethrown: seq<ExceptionKind> := [UnauthorizedAccess, KeyNotFound, InvalidOperation]

  function NotBorrowed(memberId: int, bookId: int): string {
    "Member with ID " + IntToString(memberId) + " has not borrowed book with ID " + IntToString(bookId)
  }

  function ReturnFailed(bookId: int): string {
    "An error occurred while returning book with ID " + IntToString(bookId) + "."
  }

  /** `books.Any(b => b.Id == bookId)`. */
  function HasBookId(books: seq<Book>, bookId: int): (b: bool)
    reads (set b | b in books)`id
    decreases |books|
    ensures b <==> exists i :: 0 <= i < |books| && books[i].Id() == bookId
  {
    if |books| == 0 then false
    else if books[0].Id() == bookId then true
    else
      var rest := HasBookId(books[1..], bookId);
      assert rest <==> exists i :: 1 <= i < |books| && books[i].Id() == bookId by {
        forall i | 1 <= i < |books| ensures books[i] == books[1..][i - 1] { }
      }
      rest
  }

  /** What `books.RemoveAll(b => b.Id == bookId)` leaves: the other books, in their order. */
  function WithoutBookId(books: seq<Book>, bookId: int): (rest: seq<Book>)
    reads (set b | b in books)`id
    decreases |books|
    ensures |rest| <= |books|
    ensures forall i :: 0 <= i < |rest| ==> rest[i] in books && rest[i].Id() != bookId
    ensures forall i :: 0 <= i < |books| && books[i].Id() != bookId ==> books[i] in rest
    ensures !HasBookId(rest, bookId)
  {
    if |books| == 0 then []
    else if books[0].Id() == bookId then WithoutBookId(books[1..], bookId)
    else [books[0]] + WithoutBookId(books[1..], bookId)
  }

  /** When no book on the list carries the id, removing that id after appending a book that
      carries it gives back the list: a borrow undone by a return. */
  lemma {:induction false} RemoveAllUndoesAppend(books: seq<Book>, book: Book, bookId: int)
    requires book.Id() == bookId && !HasBookId(books, bookId)
    ensures WithoutBookId(books + [book], bookId) == books
  {
    if |books| == 0 {
      assert books + [book] == [book];
    } else {
      assert (books + [book])[1..] == books[1..] + [book];
      assert books[0].Id() != bookId;
      assert !HasBookId(books[1..], bookId) by {
        forall i | 0 <= i < |books[1..]| ensures books[1..][i].Id() != bookId {
          assert books[1..][i] == books[i + 1];
        }
      }
      RemoveAllUndoesAppend(books[1..], book, bookId);
    }
  }

  class ReturnCommandHandler {
    const unitOfWork: UnitOfWork
    const permissionChecker: PermissionChecker
    const userRepository: Repository<User>
    const bookRepository: Repository<Book>

    constructor (unitOfWork: UnitOfWork, permissionChecker: PermissionChecker,
                 userRepository: Repository<User>, bookRepository: Repository<Book>)
      ensures this.unitOfWork == unitOfWork && this.permissionChecker == permissionChecker
      ensures this.userRepository == userRepository && this.bookRepository == bookRepository
    {
      this.unitOfWork := unitOfWork;
      this.permissionChecker := permissionChecker;
      this.userRepository := userRepository;
      this.bookRepository := bookRepository;
    }

    /** The exception the lookups stop at, in the order they run: the permission, the book's
        existence, a member under the given id. The book's availability is not consulted. */
    function Refusal(request: ReturnCommand, permission: string): (e: Option<Exception>)
      reads this, permissionChecker, permissionChecker.userRepository, permissionChecker.userRepository.entities.Values
      reads bookRepository, userRepository, userRepository.entities.Values
      ensures e.None? <==>
        && permissionChecker.CheckIf(request.authId, permission)
        && request.bookId in bookRepository.entities
        && request.memberId in userRepository.entities && userRepository.entities[request.memberId].kind == MemberKind
      ensures e.Some? ==> e.value.kind in ReturnRethrown
      ensures !permissionChecker.CheckIf(request.authId, permission) ==> e == Some(Exception(UnauthorizedAccess, ReturnDenied))
    {
      if !permissionChecker.CheckIf(request.authId, permission) then Some(Exception(UnauthorizedAccess, ReturnDenied))
      else if request.bookId !in bookRepository.entities then Some(Exception(KeyNotFound, BookNotFound(request.bookId)))
      else if request.memberId !in userRepository.entities || userRepository.entities[request.memberId].kind != MemberKind then
        Some(Exception(InvalidOperation, OnlyMembersReturn))
      else None
    }

    /** The exception the return stops at: a failed lookup, else a member's list (missing
        counts as empty) without an entry carrying the book's id. */
    function Rejection(request: ReturnCommand, permission: string): (e: Option<Exception>)
      reads this, permissionChecker, permissionChecker.userRepository, permissionChecker.userRepository.entities.Values
      reads bookRepository, userRepository, userRepository.entities.Values
      reads if request.memberId in userRepository.entities then userRepository.entities[request.memberId].borrowedBooks.GetOr([]) else []
      ensures e.None? <==>
        Refusal(request, permission).None? && HasBookId(userRepository.entities[request.memberId].borrowedBooks.GetOr([]), request.bookId)
      ensures e.Some? ==> e.value.kind in ReturnRethrown
      ensures !permissionChecker.CheckIf(request.authId, permission) ==> e == Some(Exception(UnauthorizedAccess, ReturnDenied))
    {
      var refusal := Refusal(request, permission);
      if refusal.Some? then refusal
      else if !HasBookId(userRepository.entities[request.memberId].borrowedBooks.GetOr([]), request.bookId) then
        Some(Exception(InvalidOperation, NotBorrowed(request.memberId, request.bookId)))
      else None
    }

    /** What a rejected return leaves behind: nothing tracked or saved, no book changed, and
        each user changed at most by the member's lazy list getter, which replaces a missing
        list by an empty one. */
    twostate predicate Untouched()
      reads unitOfWork, bookRepository, userRepository, bookRepository.entities.Values, userRepository.entities.Values
    {
      && unchanged(unitOfWork, bookRepository, userRepository)
      && (forall b :: b in bookRepository.entities.Values ==> unchanged(b))
      && (forall u :: u in userRepository.entities.Values ==>
            && u.State() == old(u.State()).(borrowedBooks := u.borrowedBooks)
            && u.borrowedBooks.GetOr([]) == old(u.borrowedBooks.GetOr([]))
            && (u.borrowedBooks.None? ==> old(u.borrowedBooks).None?))
    }

    /** The state a return leaves in the book, the member and the two repositories: the book
        is available again and marked updated, the member's list has lost every entry with the
        book's id (a missing list counts as empty) and the member is marked updated; nothing
        else of theirs changes. */
    twostate predicate TakenBack(book: Book, member: User, bookId: int)
      reads book, member, bookRepository, userRepository
    {
      (book.State(), member.State()) ==
        (old(book.State()).(available := true),
         old(member.State()).(borrowedBooks := Some(old(WithoutBookId(member.borrowedBooks.GetOr([]), bookId)))))
      && (bookRepository.entities, bookRepository.added, bookRepository.updated) ==
        (old(bookRepository.entities), old(bookRepository.added), old(bookRepository.updated) + [book])
      && (userRepository.entities, userRepository.added, userRepository.updated) ==
        (old(userRepository.entities), old(userRepository.added), old(userRepository.updated) + [member])
    }

    /** The steps once book and member are found: the member's list (installed empty if
        missing) must hold an entry with the book's id; then the book becomes available and is
        marked updated, every entry with the id leaves the list, the member is marked updated
        and one save commits them. */
    method Settle(book: Book, member: User, request: ReturnCommand) returns (outcome: Outcome<Book>)
      requires member.kind == MemberKind
      modifies book, member, bookRepository, userRepository, unitOfWork
      ensures member.borrowedBooks.Some?
      ensures !old(HasBookId(member.borrowedBooks.GetOr([]), request.bookId)) ==>
        && outcome == Throw(Exception(InvalidOperation, NotBorrowed(request.memberId, request.bookId)))
        && unchanged(book, bookRepository, userRepository, unitOfWork)
        && member.State() == old(member.State()).(borrowedBooks := Some(old(member.borrowedBooks.GetOr([]))))
      ensures old(HasBookId(member.borrowedBooks.GetOr([]), request.bookId)) ==>
        && TakenBack(book, member, request.bookId)
        && (old(unitOfWork.fault).None? ==> outcome == Ok(book) && unitOfWork.saves == old(unitOfWork.saves) + 1)
        && (old(unitOfWork.fault).Some? ==> outcome == Throw(old(unitOfWork.fault).value) && unitOfWork.saves == old(unitOfWork.saves))
    {
      var books := member.BorrowedBooks();
      if !HasBookId(books, request.bookId) {
        return Throw(Exception(InvalidOperation, NotBorrowed(request.memberId, request.bookId)));
      }
      outcome := TakeBack(book, member, request.bookId);
    }

    /** The return proper: the book becomes available and is marked updated, every entry with
        the id leaves the member's list and the member is marked updated, then one save. */
    method TakeBack(book: Book, member: User, bookId: int) returns (outcome: Outcome<Book>)
      requires member.kind == MemberKind
      modifies book, member, bookRepository, userRepository, unitOfWork
      ensures TakenBack(book, member, bookId)
      ensures old(unitOfWork.fault).None? ==> outcome == Ok(book) && unitOfWork.saves == old(unitOfWork.saves) + 1
      ensures old(unitOfWork.fault).Some? ==> outcome == Throw(old(unitOfWork.fault).value) && unitOfWork.saves == old(unitOfWork.saves)
    {
      ghost var bookBefore := book.State();
      ghost var remaining := WithoutBookId(member.borrowedBooks.GetOr([]), bookId);
      MarkAvailable(book);
      assert WithoutBookId(member.borrowedBooks.GetOr([]), bookId) == remaining;
      DropEntries(member, bookId);
      assert book.State() == bookBefore.(available := true);
      var saved := unitOfWork.SaveChanges();
      outcome := if saved.Throw? then Throw(saved.error) else Ok(book);
    }

    /** The book becomes available and is marked updated. */
    method MarkAvailable(book: Book)
      modifies book, bookRepository
      ensures book.State() == old(book.State()).(available := true)
      ensures bookRepository.entities == old(bookRepository.entities) && bookRepository.added == old(bookRepository.added)
      ensures bookRepository.updated == old(bookRepository.updated) + [book]
    {
      book.available := true;
      bookRepository.Update(book);
    }

    /** `RemoveAll` on the member's list (read through its lazy getter) drops every entry with
        the id, and the member is marked updated. */
    method DropEntries(member: User, bookId: int)
      requires member.kind == MemberKind
      modifies member, userRepository
      ensures member.State() == old(member.State()).(borrowedBooks := Some(old(WithoutBookId(member.borrowedBooks.GetOr([]), bookId))))
      ensures userRepository.entities == old(userRepository.entities) && userRepository.added == old(userRepository.added)
      ensures userRepository.updated == old(userRepository.updated) + [member]
    {
      ghost var remaining := WithoutBookId(member.borrowedBooks.GetOr([]), bookId);
      var books := member.BorrowedBooks();
      assert WithoutBookId(books, bookId) == remaining;
      member.SetBorrowedBooks(Some(WithoutBookId(books, bookId)));
      userRepository.Update(member);
    }

    /** The lookups before the member's list is read: the permission, then the book, then a
        member under the given id. They change nothing. */
    method Lookup(request: ReturnCommand, permission: string) returns (found: Outcome<(Book, User)>)
      ensures found.Throw? <==> Refusal(request, permission).Some?
      ensures found.Throw? ==> found.error == Refusal(request, permission).value
      ensures found.Ok? ==>
        found.value == (bookRepository.entities[request.bookId], userRepository.entities[request.memberId])
        && found.value.1.kind == MemberKind
    {
      var check := permissionChecker.Check(request.authId, permission, ReturnDenied);
      if check.Throw? {
        return Throw(check.error);
      }
      var book := bookRepository.Get(request.bookId);
      if book.None? {
        return Throw(Exception(KeyNotFound, BookNotFound(request.bookId)));
      }
      var user := userRepository.Get(request.memberId);
      if user.None? || user.value.kind != MemberKind {
        return Throw(Exception(InvalidOperation, OnlyMembersReturn));
      }
      found := Ok((book.value, user.value));
    }

    /** The try block of `Handle`: the checks run in order and the first that fails raises its
        exception. Only the member's lazy list getter may have run by then, which at most
        replaces a missing list by an empty one. Otherwise the book becomes available, every
        entry with its id leaves the member's list, both are marked updated and one save
        commits them or raises the database's exception. */
    method Attempt(request: ReturnCommand, permission: string) returns (outcome: Outcome<Book>)
      modifies unitOfWork, bookRepository, userRepository, bookRepository.entities.Values, userRepository.entities.Values
      ensures old(Rejection(request, permission)).Some? ==>
        && outcome == Throw(old(Rejection(request, permission)).value)
        && Untouched()
      ensures old(Rejection(request, permission)).None? ==>
        var book, member := old(bookRepository.entities[request.bookId]), old(userRepository.entities[request.memberId]);
        && TakenBack(book, member, request.bookId)
        && (old(unitOfWork.fault).None? ==> outcome == Ok(book) && unitOfWork.saves == old(unitOfWork.saves) + 1)
        && (old(unitOfWork.fault).Some? ==> outcome == Throw(old(unitOfWork.fault).value) && unitOfWork.saves == old(unitOfWork.saves))
    {
      var found := Lookup(request, permission);
      if found.Throw? {
        return Throw(found.error);
      }
      var (book, member) := found.value;
      assert WithoutBookId(member.borrowedBooks.GetOr([]), request.bookId) == old(WithoutBookId(member.borrowedBooks.GetOr([]), request.bookId));
      outcome := Settle(book, member, request);
    }

    /** `Handle`: the try block, then its catch clauses: the permission, lookup and
        member-list exceptions pass through unchanged and any other exception is wrapped.
        Nothing is saved on failure. */
    method Handle(request: ReturnCommand, permission: string) returns (r: Outcome<Book>)
      modifies unitOfWork, bookRepository, userRepository, bookRepository.entities.Values, userRepository.entities.Values
      ensures old(Rejection(request, permission)).Some? ==>
        && r == Throw(old(Rejection(request, permission)).value)
        && Untouched()
      ensures r.Ok? <==> old(Rejection(request, permission)).None? && old(unitOfWork.fault).None?
      ensures old(Rejection(request, permission)).None? ==>
        var book, member := old(bookRepository.entities[request.bookId]), old(userRepository.entities[request.memberId]);
        && TakenBack(book, member, request.bookId)
        && (r.Ok? ==> r.value == book && unitOfWork.saves == old(unitOfWork.saves) + 1)
        && (r.Throw? ==> r == Catch(Throw(old(unitOfWork.fault).value), ReturnRethrown, ReturnFailed(request.bookId)))
      ensures r.Throw? ==> unitOfWork.saves == old(unitOfWork.saves)
    {
      ghost var rejection := Rejection(request, permission);
      var outcome := Attempt(request, permission);
      if rejection.Some? {
        Rethrown(outcome, ReturnRethrown, ReturnFailed(request.bookId));
      }
      r := Catch(outcome, ReturnRethrown, ReturnFailed(request.bookId));
    }
  }

  // ------------------------------------------------------------ GetBorrowedBooksQueryHandler

  const ViewBorrowedDenied: string := "You do not have permission to view borrowed books"
  const ViewBorrowedRethrown: seq<ExceptionKind> := [UnauthorizedAccess, KeyNotFound]

  function MemberNotFound(memberId: int): string {
    "Member with ID " + IntToString(memberId) + " not found"
  }

  function ViewBorrowedFailed(memberId: int): string {
    "An error occurred while retrieving borrowed books for member with ID " + IntToString(memberId) + "."
  }

  class GetBorrowedBooksQueryHandler {
    const permissionChecker: PermissionChecker
    const userRepository: Repository<User>

    constructor (permissionChecker: PermissionChecker, userRepository: Repository<User>)
      ensures this.permissionChecker == permissionChecker && this.userRepository == userRepository
    {
      this.permissionChecker := permissionChecker;
      this.userRepository := userRepository;
    }

    /** The steps before the list is read: the permission, then a member under the given id.
        They change nothing. */
    method FindMember(request: GetBorrowedBooksQuery, permission: string) returns (found: Outcome<User>)
      ensures !permissionChecker.CheckIf(request.authId, permission) ==>
        found == Throw(Exception(UnauthorizedAccess, ViewBorrowedDenied))
      ensures permissionChecker.CheckIf(request.authId, permission) &&
              (request.memberId !in userRepository.entities || userRepository.entities[request.memberId].kind != MemberKind) ==>
        found == Throw(Exception(KeyNotFound, MemberNotFound(request.memberId)))
      ensures found.Ok? <==>
        && permissionChecker.CheckIf(request.authId, permission)
        && request.memberId in userRepository.entities && userRepository.entities[request.memberId].kind == MemberKind
      ensures found.Ok? ==> found.value == userRepository.entities[request.memberId]
    {
      var check := permissionChecker.Check(request.authId, permission, ViewBorrowedDenied);
      if check.Throw? {
        return Throw(check.error);
      }
      var user := userRepository.Get(request.memberId);
      if user.None? || user.value.kind != MemberKind {
        return Throw(Exception(KeyNotFound, MemberNotFound(request.memberId)));
      }
      found := Ok(user.value);
    }

    /** `Handle`: the permission, then a member under the given id; the result is the member's
        list through the lazy getter, which installs an empty list when none is set. No other
        state changes, and the catch clauses let both exceptions through unchanged. */
    method Handle(request: GetBorrowedBooksQuery, permission: string) returns (r: Outcome<seq<Book>>)
      modifies userRepository.entities.Values
      ensures !old(permissionChecker.CheckIf(request.authId, permission)) ==>
        r == Throw(Exception(UnauthorizedAccess, ViewBorrowedDenied))
      ensures old(permissionChecker.CheckIf(request.authId, permission)) &&
              (request.memberId !in userRepository.entities || userRepository.entities[request.memberId].kind != MemberKind) ==>
        r == Throw(Exception(KeyNotFound, MemberNotFound(request.memberId)))
      ensures r.Ok? <==>
        && old(permissionChecker.CheckIf(request.authId, permission))
        && request.memberId in userRepository.entities && userRepository.entities[request.memberId].kind == MemberKind
      ensures r.Ok? ==>
        var member := userRepository.entities[request.memberId];
        && r.value == old(member.borrowedBooks).GetOr([])
        && member.State() == old(member.State()).(borrowedBooks := Some(r.value))
      ensures forall u :: u in old(userRepository.entities.Values) && (r.Throw? || u != userRepository.entities[request.memberId]) ==>
        unchanged(u)
    {
      var found := FindMember(request, permission);
      if found.Throw? {
        r := Throw(found.error);
        Rethrown(r, ViewBorrowedRethrown, ViewBorrowedFailed(request.memberId));
        return;
      }
      var books := found.value.BorrowedBooks();
      r := Ok(books);
    }
  }
}
