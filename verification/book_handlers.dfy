/** The catalogue use cases: `CreateBookCommandHandler`, `UpdateBookCommandHandler` and
    `DeleteBookCommandHandler`. Each runs its steps inside one try block whose catch clauses
    rethrow the expected exception types and wrap anything else. The Book setters raise plain
    `Exception`s, so a value a setter rejects ends up wrapped in the handler's generic message. */
module Catalogue {
  import opened Wrappers
  import opened Exceptions
  import opened Text
  import opened Domain
  import opened Commands
  import opened Persistence
  import opened PermissionChecking

  const TitleRequired: string := "Title is required."

  function BookMissing(bookId: int): string {
    "Book with ID " + IntToString(bookId) + " was not found."
  }

  // ------------------------------------------------------------ CreateBookCommandHandler

  const CreateBookDenied: string := "User does not have permission to create books."
  const CreateBookFailed: string := "An error occurred while creating the book."
  const CreateBookRethrown: seq<ExceptionKind> := [UnauthorizedAccess, Argument]

  class CreateBookCommandHandler {
    const permissionChecker: PermissionChecker
    const bookRepository: Repository<Book>
    const unitOfWork: UnitOfWork

    constructor (permissionChecker: PermissionChecker, bookRepository: Repository<Book>, unitOfWork: UnitOfWork)
      ensures this.permissionChecker == permissionChecker && this.bookRepository == bookRepository
      ensures this.unitOfWork == unitOfWork
    {
      this.permissionChecker := permissionChecker;
      this.bookRepository := bookRepository;
      this.unitOfWork := unitOfWork;
    }

    /** The handler's own checks, in order: the permission, then a title that is not blank. */
    function Rejection(request: CreateBookCommand, permission: string): (e: Option<Exception>)
      reads this, permissionChecker, permissionChecker.userRepository, permissionChecker.userRepository.entities.Values
      ensures e.None? <==> permissionChecker.CheckIf(request.authId, permission) && !IsNullOrWhiteSpace(request.title)
      ensures e.Some? ==> e.value.kind in CreateBookRethrown
      ensures !permissionChecker.CheckIf(request.authId, permission) ==>
        e == Some(Exception(UnauthorizedAccess, CreateBookDenied))
    {
      if !permissionChecker.CheckIf(request.authId, permission) then Some(Exception(UnauthorizedAccess, CreateBookDenied))
      else if IsNullOrWhiteSpace(request.title) then Some(Exception(Argument, TitleRequired))
      else None
    }

    /** `Handle`: a failing check raises its exception; an author or category that is blank or
        a year outside the entity's range makes the constructor throw, which is wrapped. In
        these cases nothing is tracked or saved. Otherwise a new available book carrying the
        four requested values and no id is tracked for insertion and one save commits it; a
        failing save is wrapped unless it is of a rethrown type. */
    method Handle(request: CreateBookCommand, permission: string) returns (r: Outcome<Book>)
      modifies bookRepository, unitOfWork
      ensures old(Rejection(request, permission)).Some? ==>
        r == Throw(old(Rejection(request, permission)).value) && unchanged(bookRepository, unitOfWork)
      ensures old(Rejection(request, permission)).None? &&
              !(!IsNullOrWhiteSpace(request.author) && YearAccepted(request.year) && !IsNullOrWhiteSpace(request.category)) ==>
        r == Throw(Exception(General, CreateBookFailed)) && unchanged(bookRepository, unitOfWork)
      ensures r.Ok? <==>
        && old(Rejection(request, permission)).None?
        && !IsNullOrWhiteSpace(request.author) && YearAccepted(request.year) && !IsNullOrWhiteSpace(request.category)
        && old(unitOfWork.fault).None?
      ensures old(Rejection(request, permission)).None? &&
              !IsNullOrWhiteSpace(request.author) && YearAccepted(request.year) && !IsNullOrWhiteSpace(request.category) ==>
        && |bookRepository.added| == |old(bookRepository.added)| + 1
        && bookRepository.added[..|old(bookRepository.added)|] == old(bookRepository.added)
        && var book := bookRepository.added[|old(bookRepository.added)|];
        && fresh(book) && book.Valid()
        && book.State() == BookState(None, request.title, request.author, request.year, request.category, true, None, null, None, None)
        && bookRepository.entities == old(bookRepository.entities) && bookRepository.updated == old(bookRepository.updated)
        && (r.Ok? ==> r.value == book && unitOfWork.saves == old(unitOfWork.saves) + 1)
        && (r.Throw? ==> r == Catch(Throw(old(unitOfWork.fault).value), CreateBookRethrown, CreateBookFailed))
      ensures r.Throw? ==> unitOfWork.saves == old(unitOfWork.saves)
    {
      var check := permissionChecker.Check(request.authId, permission, CreateBookDenied);
      if check.Throw? {
        r := Throw(check.error);
        Rethrown(r, CreateBookRethrown, CreateBookFailed);
        return;
      }
      if IsNullOrWhiteSpace(request.title) {
        r := Throw(Exception(Argument, TitleRequired));
        Rethrown(r, CreateBookRethrown, CreateBookFailed);
        return;
      }
      var built := Book.New(request.title, request.author, request.year, request.category);
      if built.Throw? {
        r := Catch(built, CreateBookRethrown, CreateBookFailed);
        return;
      }
      var book := built.value;
      bookRepository.Add(book);
      var saved := unitOfWork.SaveChanges();
      r := Catch(if saved.Throw? then Throw(saved.error) else Ok(book), CreateBookRethrown, CreateBookFailed);
    }
  }

  // ------------------------------------------------------------ UpdateBookCommandHandler

  const UpdateBookRethrown: seq<ExceptionKind> := [UnauthorizedAccess, KeyNotFound, Argument]

  function UpdateBookFailed(bookId: int): string {
    "An error occurred while updating book with ID " + IntToString(bookId) + "."
  }

  /** Whether the five setters after the title's accept the requested values. */
  predicate FieldsAccepted(request: UpdateBookCommand) {
    && !IsNullOrWhiteSpace(request.author) && YearAccepted(request.year) && !IsNullOrWhiteSpace(request.category)
    && LongTextAccepted(request.isbn) && LongTextAccepted(request.synopsis)
  }

  /** The exception of the first setter that rejects its requested value, once the title has
      been accepted: author, year, category, ISBN, synopsis. */
  function SetterRejection(request: UpdateBookCommand): (e: Option<Exception>)
    ensures e.None? <==> FieldsAccepted(request)
    ensures e.Some? ==> e.value.kind == General
  {
    if IsNullOrWhiteSpace(request.author) then Some(Exception(General, AuthorEmpty))
    else if !YearAccepted(request.year) then Some(Exception(General, YearOutOfRange))
    else if IsNullOrWhiteSpace(request.category) then Some(Exception(General, CategoryEmpty))
    else if !LongTextAccepted(request.isbn) then Some(Exception(General, IsbnTooShort))
    else if !LongTextAccepted(request.synopsis) then Some(Exception(General, SynopsisTooShort))
    else None
  }

  /** The book after the six setters ran in order: every setter before the first rejection has
      stored its value, the rejected field and those after it keep theirs. */
  function Revised(s: BookState, request: UpdateBookCommand): (t: BookState)
    ensures t.title == request.title
    ensures t.id == s.id && t.available == s.available && t.memberId == s.memberId && t.member == s.member
    ensures FieldsAccepted(request) ==>
      t == s.(title := request.title, author := request.author, publicationYear := request.year,
              category := request.category, isbn := request.isbn, synopsis := request.synopsis)
    ensures !FieldsAccepted(request) ==> t.synopsis == s.synopsis
    ensures s.Valid() && !IsNullOrWhiteSpace(request.title) ==> t.Valid()
  {
    var withTitle := s.(title := request.title);
    if IsNullOrWhiteSpace(request.author) then withTitle
    else
      var withAuthor := withTitle.(author := request.author);
      if !YearAccepted(request.year) then withAuthor
      else
        var withYear := withAuthor.(publicationYear := request.year);
        if IsNullOrWhiteSpace(request.category) then withYear
        else
          var withCategory := withYear.(category := request.category);
          if !LongTextAccepted(request.isbn) then withCategory
          else
            var withIsbn := withCategory.(isbn := request.isbn);
            if !LongTextAccepted(request.synopsis) then withIsbn
            else withIsbn.(synopsis := request.synopsis)
  }

  class UpdateBookCommandHandler {
    const permissionChecker: PermissionChecker
    const bookRepository: Repository<Book>
    const unitOfWork: UnitOfWork

    constructor (permissionChecker: PermissionChecker, bookRepository: Repository<Book>, unitOfWork: UnitOfWork)
      ensures this.permissionChecker == permissionChecker && this.bookRepository == bookRepository
      ensures this.unitOfWork == unitOfWork
    {
      this.permissionChecker := permissionChecker;
      this.bookRepository := bookRepository;
      this.unitOfWork := unitOfWork;
    }

    /** The six property assignments in order: title, author, year, category, ISBN, synopsis.
        The first setter that rejects its value stops the sequence with its exception. */
    static method Revise(book: Book, request: UpdateBookCommand) returns (outcome: Outcome<()>)
      requires !IsNullOrWhiteSpace(request.title)
      modifies book
      ensures book.State() == Revised(old(book.State()), request)
      ensures outcome.Ok? <==> SetterRejection(request).None?
      ensures outcome.Throw? ==> outcome.error == SetterRejection(request).value
    {
      ghost var s := book.State();
      var step := book.SetTitle(request.title);
      step := book.SetAuthor(request.author);
      if step.Throw? { return step; }
      ghost var withAuthor := s.(title := request.title, author := request.author);
      assert book.State() == withAuthor;
      step := book.SetPublicationYear(request.year);
      if step.Throw? { return step; }
      ghost var withYear := withAuthor.(publicationYear := request.year);
      assert book.State() == withYear;
      step := book.SetCategory(request.category);
      if step.Throw? { return step; }
      ghost var withCategory := withYear.(category := request.category);
      assert book.State() == withCategory;
      step := book.SetIsbn(request.isbn);
      if step.Throw? { return step; }
      assert book.State() == withCategory.(isbn := request.isbn);
      step := book.SetSynopsis(request.synopsis);
      if step.Throw? { return step; }
      return Ok(());
    }

    /** The steps once the book is found: the property assignments; if all are accepted the
        book is marked updated and one save commits it. */
    method Apply(book: Book, request: UpdateBookCommand) returns (outcome: Outcome<Book>)
      requires !IsNullOrWhiteSpace(request.title)
      modifies book, bookRepository, unitOfWork
      ensures book.State() == Revised(old(book.State()), request)
      ensures old(book.Valid()) ==> book.Valid()
      ensures bookRepository.entities == old(bookRepository.entities) && bookRepository.added == old(bookRepository.added)
      ensures SetterRejection(request).Some? ==>
        outcome == Throw(SetterRejection(request).value) && unchanged(bookRepository, unitOfWork)
      ensures SetterRejection(request).None? ==>
        && bookRepository.updated == old(bookRepository.updated) + [book]
        && (old(unitOfWork.fault).None? ==> outcome == Ok(book) && unitOfWork.saves == old(unitOfWork.saves) + 1)
        && (old(unitOfWork.fault).Some? ==> outcome == Throw(old(unitOfWork.fault).value) && unitOfWork.saves == old(unitOfWork.saves))
    {
      var revised := Revise(book, request);
      if revised.Throw? {
        return Throw(revised.error);
      }
      bookRepository.Update(book);
      var saved := unitOfWork.SaveChanges();
      outcome := if saved.Throw? then Throw(saved.error) else Ok(book);
    }

    /** `Handle`: no permission is asked for. A blank title raises ArgumentException and an
        unknown id KeyNotFoundException, both before anything changes. Otherwise the setters
        run in order on the stored book; a rejected value leaves the earlier assignments in
        place, nothing is marked or saved, and the setter's exception is wrapped. When all are
        accepted the book is marked updated and one save commits it; a failing save is wrapped
        unless it is of a rethrown type. */
    method Handle(request: UpdateBookCommand) returns (r: Outcome<Book>)
      modifies bookRepository, unitOfWork, bookRepository.entities.Values
      ensures IsNullOrWhiteSpace(request.title) || request.bookId !in old(bookRepository.entities) ==>
        && r == Throw(if IsNullOrWhiteSpace(request.title) then Exception(Argument, TitleRequired)
                      else Exception(KeyNotFound, BookMissing(request.bookId)))
        && unchanged(bookRepository, unitOfWork)
        && (forall b :: b in old(bookRepository.entities.Values) ==> unchanged(b))
      ensures r.Ok? <==>
        !IsNullOrWhiteSpace(request.title) && request.bookId in old(bookRepository.entities) &&
        FieldsAccepted(request) && old(unitOfWork.fault).None?
      ensures !IsNullOrWhiteSpace(request.title) && request.bookId in old(bookRepository.entities) ==>
        var book := old(bookRepository.entities[request.bookId]);
        && book.State() == Revised(old(book.State()), request)
        && (old(book.Valid()) ==> book.Valid())
        && (forall b :: b in old(bookRepository.entities.Values) && b != book ==> unchanged(b))
        && bookRepository.entities == old(bookRepository.entities) && bookRepository.added == old(bookRepository.added)
        && (!FieldsAccepted(request) ==>
              r == Throw(Exception(General, UpdateBookFailed(request.bookId))) && unchanged(bookRepository, unitOfWork))
        && (FieldsAccepted(request) ==>
              && bookRepository.updated == old(bookRepository.updated) + [book]
              && (r.Ok? ==> r.value == book && unitOfWork.saves == old(unitOfWork.saves) + 1)
              && (r.Throw? ==> r == Catch(Throw(old(unitOfWork.fault).value), UpdateBookRethrown, UpdateBookFailed(request.bookId))))
      ensures r.Throw? ==> unitOfWork.saves == old(unitOfWork.saves)
    {
      if IsNullOrWhiteSpace(request.title) {
        r := Throw(Exception(Argument, TitleRequired));
        Rethrown(r, UpdateBookRethrown, UpdateBookFailed(request.bookId));
        return;
      }
      var found := bookRepository.Get(request.bookId);
      if found.None? {
        r := Throw(Exception(KeyNotFound, BookMissing(request.bookId)));
        Rethrown(r, UpdateBookRethrown, UpdateBookFailed(request.bookId));
        return;
      }
      var outcome := Apply(found.value, request);
      r := Catch(outcome, UpdateBookRethrown, UpdateBookFailed(request.bookId));
    }
  }

  // ------------------------------------------------------------ DeleteBookCommandHandler

  const DeleteBookRethrown: seq<ExceptionKind> := [KeyNotFound]

  function DeleteBookFailed(bookId: int): string {
    "An error occurred while deleting book with ID " + IntToString(bookId) + "."
  }

  class DeleteBookCommandHandler {
    const permissionChecker: PermissionChecker
    const bookRepository: Repository<Book>
    const unitOfWork: UnitOfWork

    constructor (permissionChecker: PermissionChecker, bookRepository: Repository<Book>, unitOfWork: UnitOfWork)
      ensures this.permissionChecker == permissionChecker && this.bookRepository == bookRepository
      ensures this.unitOfWork == unitOfWork
    {
      this.permissionChecker := permissionChecker;
      this.bookRepository := bookRepository;
      this.unitOfWork := unitOfWork;
    }

    /** `Handle`: no permission is asked for. The book under the id leaves the repository and
        one save commits it; an unknown id raises KeyNotFound without saving, and a failing
        save is wrapped unless it is of the rethrown type. */
    method Handle(request: DeleteBookCommand) returns (r: Outcome<Book>)
      modifies bookRepository, unitOfWork
      ensures bookRepository.entities == old(bookRepository.entities) - {request.bookId}
      ensures bookRepository.added == old(bookRepository.added) && bookRepository.updated == old(bookRepository.updated)
      ensures request.bookId !in old(bookRepository.entities) ==>
        r == Throw(Exception(KeyNotFound, BookMissing(request.bookId))) && unchanged(bookRepository, unitOfWork)
      ensures r.Ok? <==> request.bookId in old(bookRepository.entities) && old(unitOfWork.fault).None?
      ensures r.Ok? ==> r.value == old(bookRepository.entities[request.bookId]) && unitOfWork.saves == old(unitOfWork.saves) + 1
      ensures request.bookId in old(bookRepository.entities) && r.Throw? ==>
        r == Catch(Throw(old(unitOfWork.fault).value), DeleteBookRethrown, DeleteBookFailed(request.bookId))
      ensures r.Throw? ==> unitOfWork.saves == old(unitOfWork.saves)
    {
      var removed := bookRepository.Remove(request.bookId);
      if removed.None? {
        r := Throw(Exception(KeyNotFound, BookMissing(request.bookId)));
        Rethrown(r, DeleteBookRethrown, DeleteBookFailed(request.bookId));
        return;
      }
      var saved := unitOfWork.SaveChanges();
      r := Catch(if saved.Throw? then Throw(saved.error) else Ok(removed.value), DeleteBookRethrown, DeleteBookFailed(request.bookId));
    }
  }
}
