/** The library's entities (Book.cs, BaseUser.cs, Member.cs, Staff.cs). Each property setter
    checks the value and then writes a private field; a rejected value throws and the field keeps
    its old value. BaseUser with its two subclasses Member and Staff is the single class `User`,
    whose `kind` records which subclass an object was created as. */
module Domain {
  import opened Wrappers
  import opened Exceptions
  import opened Text
  import UserType
  import Sequences

  /** The message of a parameterless `new NullReferenceException()`. */
  const NullReferenceMessage: string := "Object reference not set to an instance of an object."

  /** The message of `new ArgumentNullException(nameof(parameter))`. */
  function ArgumentNullMessage(parameter: string): string {
    "Value cannot be null. (Parameter '" + parameter + "')"
  }

  // ---------------------------------------------------------------- Book

  const TitleEmpty: string := "Title cannot be empty."
  const AuthorEmpty: string := "Author cannot be empty."
  const CategoryEmpty: string := "Category cannot be empty."
  const YearOutOfRange: string := "Publication year must be recent or not in the future"
  const BookIdNegative: string := "ID must be a non-negative integer."
  const IsbnTooShort: string := "ISBN must be at least 10 characters."
  const SynopsisTooShort: string := "Synopsis must be at least 10 characters."

  const MinPublicationYear: int := 1100
  const MaxPublicationYear: int := 2025
  /** The shortest non-blank ISBN or synopsis the setters accept. */
  const MinLongTextLength: nat := 10

  /** The year setter's test `value < 1100 || value > 2025` is a lifted comparison on `int?`,
      false for null: a null year is accepted. */
  predicate YearAccepted(year: Option<int>) {
    year.None? || MinPublicationYear <= year.value <= MaxPublicationYear
  }

  /** ISBN and synopsis: null or blank is accepted, a non-blank value needs ten characters. */
  predicate LongTextAccepted(value: Option<string>) {
    IsNullOrWhiteSpace(value) || |value.value| >= MinLongTextLength
  }

  /** Every field of a book, for stating what an operation changes and what it leaves alone. */
  datatype BookState = BookState(
    id: Option<int>,
    title: Option<string>,
    author: Option<string>,
    publicationYear: Option<int>,
    category: Option<string>,
    available: bool,
    memberId: Option<int>,
    member: User?,
    isbn: Option<string>,
    synopsis: Option<string>)
  {
    /** What the setters guarantee of every stored value: no stored title, author or category is
        blank, the year is in its window, an id is positive and ISBN and synopsis are long enough. */
    predicate Valid() {
      && (title.Some? ==> !IsNullOrWhiteSpace(title))
      && (author.Some? ==> !IsNullOrWhiteSpace(author))
      && YearAccepted(publicationYear)
      && (category.Some? ==> !IsNullOrWhiteSpace(category))
      && (id.Some? ==> id.value > 0)
      && LongTextAccepted(isbn)
      && LongTextAccepted(synopsis)
    }
  }

  class Book {
    var id: Option<int>                 // null until a non-zero id is set
    var title: Option<string>
    var author: Option<string>
    var publicationYear: Option<int>
    var category: Option<string>
    var available: bool
    var memberId: Option<int>
    var member: User?
    var isbn: Option<string>
    var synopsis: Option<string>

    function State(): BookState
      reads this
    {
      BookState(id, title, author, publicationYear, category, available, memberId, member, isbn, synopsis)
    }

    /** What the setters guarantee of every stored value. */
    predicate Valid()
      reads this
    {
      State().Valid()
    }

    /** The parameterless constructor: every field at its default. */
    constructor ()
      ensures State() == BookState(None, None, None, None, None, false, None, null, None, None)
      ensures Valid()
    {
      id, title, author, publicationYear, category := None, None, None, None, None;
      available, memberId, member, isbn, synopsis := false, None, null, None, None;
    }

    /** The `Id` getter: 0 stands for "not yet assigned". It depends on the id field alone. */
    function Id(): (n: int)
      reads this`id
      ensures (id.Some? ==> id.value > 0) ==> n >= 0 && (n == 0 <==> id.None?)
    {
      id.GetOr(0)
    }

    /** The three assignments `Member.ReturnBook` makes to unlink a book from its borrower:
        no member, no member id, available again. */
    method Release()
      modifies this
      ensures State() == old(State()).(member := null, memberId := None, available := true)
    {
      member := null;
      memberId := None;
      available := true;
    }

    method SetTitle(value: Option<string>) returns (r: Outcome<()>)
      modifies this
      ensures r.Ok? <==> !IsNullOrWhiteSpace(value)
      ensures r.Ok? ==> State() == old(State()).(title := value)
      ensures r.Throw? ==> r.error == Exception(General, TitleEmpty) && State() == old(State())
      ensures old(Valid()) ==> Valid()
    {
      if IsNullOrWhiteSpace(value) {
        return Throw(Exception(General, TitleEmpty));
      }
      title := value;
      return Ok(());
    }

    method SetAuthor(value: Option<string>) returns (r: Outcome<()>)
      modifies this
      ensures r.Ok? <==> !IsNullOrWhiteSpace(value)
      ensures r.Ok? ==> State() == old(State()).(author := value)
      ensures r.Throw? ==> r.error == Exception(General, AuthorEmpty) && State() == old(State())
      ensures old(Valid()) ==> Valid()
    {
      if IsNullOrWhiteSpace(value) {
        return Throw(Exception(General, AuthorEmpty));
      }
      author := value;
      return Ok(());
    }

    method SetPublicationYear(value: Option<int>) returns (r: Outcome<()>)
      modifies this
      ensures r.Ok? <==> value.None? || MinPublicationYear <= value.value <= MaxPublicationYear
      ensures r.Ok? ==> State() == old(State()).(publicationYear := value)
      ensures r.Throw? ==> r.error == Exception(General, YearOutOfRange) && State() == old(State())
      ensures old(Valid()) ==> Valid()
    {
      if value.Some? && (value.value < MinPublicationYear || value.value > MaxPublicationYear) {
        return Throw(Exception(General, YearOutOfRange));
      }
      publicationYear := value;
      return Ok(());
    }

    method SetCategory(value: Option<string>) returns (r: Outcome<()>)
      modifies this
      ensures r.Ok? <==> !IsNullOrWhiteSpace(value)
      ensures r.Ok? ==> State() == old(State()).(category := value)
      ensures r.Throw? ==> r.error == Exception(General, CategoryEmpty) && State() == old(State())
      ensures old(Valid()) ==> Valid()
    {
      if IsNullOrWhiteSpace(value) {
        return Throw(Exception(General, CategoryEmpty));
      }
      category := value;
      return Ok(());
    }

    /** The `Id` setter stores 0 as "unset", so the getter gives back every accepted value. */
    method SetId(value: int) returns (r: Outcome<()>)
      modifies this
      ensures r.Ok? <==> value >= 0
      ensures r.Ok? ==> Id() == value
      ensures r.Ok? ==> State() == old(State()).(id := if value == 0 then None else Some(value))
      ensures r.Throw? ==> r.error == Exception(General, BookIdNegative) && State() == old(State())
      ensures old(Valid()) ==> Valid()
    {
      if value < 0 {
        return Throw(Exception(General, BookIdNegative));
      }
      id := if value == 0 then None else Some(value);
      return Ok(());
    }

    method SetIsbn(value: Option<string>) returns (r: Outcome<()>)
      modifies this
      ensures r.Ok? <==> IsNullOrWhiteSpace(value) || |value.value| >= MinLongTextLength
      ensures r.Ok? ==> State() == old(State()).(isbn := value)
      ensures r.Throw? ==> r.error == Exception(General, IsbnTooShort) && State() == old(State())
      ensures old(Valid()) ==> Valid()
    {
      if !IsNullOrWhiteSpace(value) && |value.value| < MinLongTextLength {
        return Throw(Exception(General, IsbnTooShort));
      }
      isbn := value;
      return Ok(());
    }

    method SetSynopsis(value: Option<string>) returns (r: Outcome<()>)
      modifies this
      ensures r.Ok? <==> IsNullOrWhiteSpace(value) || |value.value| >= MinLongTextLength
      ensures r.Ok? ==> State() == old(State()).(synopsis := value)
      ensures r.Throw? ==> r.error == Exception(General, SynopsisTooShort) && State() == old(State())
      ensures old(Valid()) ==> Valid()
    {
      if !IsNullOrWhiteSpace(value) && |value.value| < MinLongTextLength {
        return Throw(Exception(General, SynopsisTooShort));
      }
      synopsis := value;
      return Ok(());
    }

    /** `new Book(title, author, year, category)`: the four setters in that order, then
        `Available = true`. The first rejection aborts construction with that setter's message,
        so in particular a null author fails although the parameter is nullable. */
    static method New(title: Option<string>, author: Option<string>, year: Option<int>, category: Option<string>)
      returns (r: Outcome<Book>)
      ensures r.Ok? <==>
        !IsNullOrWhiteSpace(title) && !IsNullOrWhiteSpace(author) && YearAccepted(year) && !IsNullOrWhiteSpace(category)
      ensures r.Ok? ==>
        && fresh(r.value)
        && r.value.State() == BookState(None, title, author, year, category, true, None, null, None, None)
        && r.value.Valid()
      ensures IsNullOrWhiteSpace(title) ==> r == Throw(Exception(General, TitleEmpty))
      ensures !IsNullOrWhiteSpace(title) && IsNullOrWhiteSpace(author) ==> r == Throw(Exception(General, AuthorEmpty))
      ensures !IsNullOrWhiteSpace(title) && !IsNullOrWhiteSpace(author) && !YearAccepted(year) ==>
        r == Throw(Exception(General, YearOutOfRange))
      ensures !IsNullOrWhiteSpace(title) && !IsNullOrWhiteSpace(author) && YearAccepted(year) && IsNullOrWhiteSpace(category) ==>
        r == Throw(Exception(General, CategoryEmpty))
    {
      var book := new Book();
      var step := book.SetTitle(title);
      if step.Throw? { return Throw(step.error); }
      step := book.SetAuthor(author);
      if step.Throw? { return Throw(step.error); }
      step := book.SetPublicationYear(year);
      if step.Throw? { return Throw(step.error); }
      step := book.SetCategory(category);
      if step.Throw? { return Throw(step.error); }
      book.available := true;
      return Ok(book);
    }
  }

  // ---------------------------------------------------------------- Users

  const NameEmpty: string := "Name cannot be empty."
  const UserIdNotPositive: string := "ID must be a positive integer."
  const AlreadyBorrowed: string := "Book is already borrowed by another member."
  const NotBorrowedByThisMember: string := "This book is not borrowed by this member."

  /** Which concrete subclass of BaseUser an object is. */
  datatype UserKind = MemberKind | StaffKind

  /** The `Type` setter's whitelist: a member accepts exactly "Member", staff exactly
      "StaffMinor" and "StaffManagement"; null is rejected by both. */
  predicate TypeAccepted(kind: UserKind, value: Option<string>) {
    match kind
    case MemberKind => value == Some(UserType.Member)
    case StaffKind => value.Some? && UserType.IsStaffType(value.value)
  }

  function TypeRejected(kind: UserKind): string {
    match kind
    case MemberKind => "Invalid user type for member."
    case StaffKind => "Invalid user type for Staff."
  }

  /** Every mutable field of a user. `borrowedBooks` exists only on members. */
  datatype UserState = UserState(
    userType: Option<string>,
    name: Option<string>,
    id: Option<int>,
    borrowedBooks: Option<seq<Book>>)

  class User {
    const kind: UserKind
    var userType: Option<string>
    var name: Option<string>
    var id: Option<int>
    var borrowedBooks: Option<seq<Book>>

    function State(): UserState
      reads this
    {
      UserState(userType, name, id, borrowedBooks)
    }

    /** What the setters guarantee of every stored value. */
    predicate Valid()
      reads this
    {
      && (name.Some? ==> !IsNullOrWhiteSpace(name))
      && (id.Some? ==> id.value > 0)
      && (userType.Some? ==> TypeAccepted(kind, userType))
    }

    /** The parameterless constructors of Member and Staff: a member starts with an empty list. */
    constructor (kind: UserKind)
      ensures this.kind == kind
      ensures State() == UserState(None, None, None, if kind == MemberKind then Some([]) else None)
      ensures Valid()
    {
      this.kind := kind;
      userType, name, id := None, None, None;
      borrowedBooks := if kind == MemberKind then Some([]) else None;
    }

    /** The `Id` getter throws until an id has been assigned. */
    function Id(): (r: Outcome<int>)
      reads this
      ensures r.Throw? <==> id.None?
      ensures r.Throw? ==> r.error.kind == NullReference
      ensures Valid() && r.Ok? ==> r.value > 0
    {
      if id.None? then Throw(Exception(NullReference, NullReferenceMessage)) else Ok(id.value)
    }

    method SetName(value: Option<string>) returns (r: Outcome<()>)
      modifies this
      ensures r.Ok? <==> !IsNullOrWhiteSpace(value)
      ensures r.Ok? ==> State() == old(State()).(name := value)
      ensures r.Throw? ==> r.error == Exception(Argument, NameEmpty) && State() == old(State())
      ensures old(Valid()) ==> Valid()
    {
      if IsNullOrWhiteSpace(value) {
        return Throw(Exception(Argument, NameEmpty));
      }
      name := value;
      return Ok(());
    }

    /** The `Id` setter accepts positive values only; the getter then returns the value. */
    method SetId(value: int) returns (r: Outcome<()>)
      modifies this
      ensures r.Ok? <==> value > 0
      ensures r.Ok? ==> Id() == Ok(value) && State() == old(State()).(id := Some(value))
      ensures r.Throw? ==> r.error == Exception(General, UserIdNotPositive) && State() == old(State())
      ensures old(Valid()) ==> Valid()
    {
      if value <= 0 {
        return Throw(Exception(General, UserIdNotPositive));
      }
      id := Some(value);
      return Ok(());
    }

    /** The `Type` setter of Member and of Staff. */
    method SetType(value: Option<string>) returns (r: Outcome<()>)
      modifies this
      ensures r.Ok? <==> TypeAccepted(kind, value)
      ensures r.Ok? ==> State() == old(State()).(userType := value)
      ensures r.Throw? ==> r.error == Exception(General, TypeRejected(kind)) && State() == old(State())
      ensures old(Valid()) ==> Valid()
    {
      var accepted := match kind
        case MemberKind => value.Some? && value.value == UserType.Member
        case StaffKind => value.Some? && (value.value == UserType.StaffMinor || value.value == UserType.StaffManagement);
      if !accepted {
        return Throw(Exception(General, TypeRejected(kind)));
      }
      userType := value;
      return Ok(());
    }

    /** The lazy `BorrowedBooks` getter of Member: a missing list is replaced by an empty one, so
        the getter always yields a list and afterwards the field holds it. */
    method BorrowedBooks() returns (books: seq<Book>)
      requires kind == MemberKind
      modifies this
      ensures books == (if old(borrowedBooks).Some? then old(borrowedBooks).value else [])
      ensures State() == old(State()).(borrowedBooks := Some(books))
    {
      if borrowedBooks.None? {
        borrowedBooks := Some([]);
      }
      books := borrowedBooks.value;
    }

    /** The `BorrowedBooks` setter of Member, which may install null. */
    method SetBorrowedBooks(value: Option<seq<Book>>)
      requires kind == MemberKind
      modifies this
      ensures State() == old(State()).(borrowedBooks := value)
    {
      borrowedBooks := value;
    }

    /** Member.BorrowBook links an unlinked book to this member. Its statements run in order, so a
        member without an id leaves the book linked but without a member id, and a member whose
        list field is null leaves the book fully linked but not listed. */
    method BorrowBook(book: Book?) returns (r: Outcome<()>)
      requires kind == MemberKind
      modifies this, book
      ensures book == null ==> r == Throw(Exception(ArgumentNull, ArgumentNullMessage("book"))) && unchanged(this)
      ensures book != null && old(book.member) != null ==>
        r == Throw(Exception(InvalidOperation, AlreadyBorrowed)) && unchanged(this, book)
      ensures r.Ok? <==> book != null && old(book.member) == null && old(id).Some? && old(borrowedBooks).Some?
      ensures r.Ok? ==>
        && book.State() == old(book.State()).(member := this, memberId := old(id), available := false)
        && State() == old(State()).(borrowedBooks := Some(old(borrowedBooks).value + [book]))
      ensures book != null && old(book.member) == null && old(id).None? ==>
        && r == Throw(Exception(NullReference, NullReferenceMessage))
        && book.State() == old(book.State()).(member := this)
        && unchanged(this)
      ensures book != null && old(book.member) == null && old(id).Some? && old(borrowedBooks).None? ==>
        && r == Throw(Exception(NullReference, NullReferenceMessage))
        && book.State() == old(book.State()).(member := this, memberId := old(id), available := false)
        && unchanged(this)
    {
      if book == null {
        return Throw(Exception(ArgumentNull, ArgumentNullMessage("book")));
      }
      if book.member != null {
        return Throw(Exception(InvalidOperation, AlreadyBorrowed));
      }
      book.member := this;
      if id.None? {
        return Throw(Exception(NullReference, NullReferenceMessage));
      }
      book.memberId := id;
      book.available := false;
      if borrowedBooks.None? {
        return Throw(Exception(NullReference, NullReferenceMessage));
      }
      borrowedBooks := Some(borrowedBooks.value + [book]);
      return Ok(());
    }

    /** Member.ReturnBook unlinks a book linked to this member and removes its first occurrence
        from the list. */
    method ReturnBook(book: Book?) returns (r: Outcome<()>)
      requires kind == MemberKind
      modifies this, book
      ensures book == null ==> r == Throw(Exception(ArgumentNull, ArgumentNullMessage("book"))) && unchanged(this)
      ensures book != null && old(book.member) != this ==>
        r == Throw(Exception(InvalidOperation, NotBorrowedByThisMember)) && unchanged(this, book)
      ensures r.Ok? <==> book != null && old(book.member) == this && old(borrowedBooks).Some?
      ensures book != null && old(book.member) == this ==>
        book.State() == old(book.State()).(member := null, memberId := None, available := true)
      ensures r.Ok? ==>
        State() == old(State()).(borrowedBooks := Some(Sequences.RemoveFirst<Book>(old(borrowedBooks).value, book)))
      ensures book != null && old(book.member) == this && old(borrowedBooks).None? ==>
        r == Throw(Exception(NullReference, NullReferenceMessage)) && unchanged(this)
    {
      if book == null {
        r := Throw(Exception(ArgumentNull, ArgumentNullMessage("book")));
      } else if book.member != this {
        r := Throw(Exception(InvalidOperation, NotBorrowedByThisMember));
      } else {
        book.Release();
        if borrowedBooks.None? {
          r := Throw(Exception(NullReference, NullReferenceMessage));
        } else {
          borrowedBooks := Some(Sequences.RemoveFirst<Book>(borrowedBooks.value, book));
          r := Ok(());
        }
      }
    }

    /** `new Member(name)`: the base constructor rejects a null name before anything else, then
        runs the `Name` and `Type` setters; the member starts with an empty list. */
    static method NewMember(name: Option<string>) returns (r: Outcome<User>)
      ensures name.None? ==> r == Throw(Exception(ArgumentNull, ArgumentNullMessage("name")))
      ensures name.Some? && IsNullOrWhiteSpace(name) ==> r == Throw(Exception(Argument, NameEmpty))
      ensures r.Ok? <==> !IsNullOrWhiteSpace(name)
      ensures r.Ok? ==>
        && fresh(r.value) && r.value.kind == MemberKind && r.value.Valid()
        && r.value.State() == UserState(Some(UserType.Member), name, None, Some([]))
    {
      if name.None? {
        return Throw(Exception(ArgumentNull, ArgumentNullMessage("name")));
      }
      var user := new User(MemberKind);
      var step := user.SetName(name);
      if step.Throw? { return Throw(step.error); }
      step := user.SetType(Some(UserType.Member));
      return Ok(user);
    }

    /** `new Staff(name, type)`: as for a member, but the type must be one of the two staff roles. */
    static method NewStaff(name: Option<string>, userType: Option<string>) returns (r: Outcome<User>)
      ensures name.None? ==> r == Throw(Exception(ArgumentNull, ArgumentNullMessage("name")))
      ensures name.Some? && IsNullOrWhiteSpace(name) ==> r == Throw(Exception(Argument, NameEmpty))
      ensures !IsNullOrWhiteSpace(name) && !TypeAccepted(StaffKind, userType) ==>
        r == Throw(Exception(General, TypeRejected(StaffKind)))
      ensures r.Ok? <==> !IsNullOrWhiteSpace(name) && TypeAccepted(StaffKind, userType)
      ensures r.Ok? ==>
        && fresh(r.value) && r.value.kind == StaffKind && r.value.Valid()
        && r.value.State() == UserState(userType, name, None, None)
    {
      if name.None? {
        return Throw(Exception(ArgumentNull, ArgumentNullMessage("name")));
      }
      var user := new User(StaffKind);
      var step := user.SetName(name);
      if step.Throw? { return Throw(step.error); }
      step := user.SetType(userType);
      if step.Throw? { return Throw(step.error); }
      return Ok(user);
    }

    /** An object initialiser `new Member { Name = name, Type = userType }` or `new Staff { … }`:
        the parameterless constructor, then the `Name` setter, then the `Type` setter. */
    static method Initialised(kind: UserKind, name: Option<string>, userType: Option<string>) returns (r: Outcome<User>)
      ensures IsNullOrWhiteSpace(name) ==> r == Throw(Exception(Argument, NameEmpty))
      ensures !IsNullOrWhiteSpace(name) && !TypeAccepted(kind, userType) ==>
        r == Throw(Exception(General, TypeRejected(kind)))
      ensures r.Ok? <==> !IsNullOrWhiteSpace(name) && TypeAccepted(kind, userType)
      ensures r.Ok? ==>
        && fresh(r.value) && r.value.kind == kind && r.value.Valid()
        && r.value.State() == UserState(userType, name, None, if kind == MemberKind then Some([]) else None)
    {
      var user := new User(kind);
      var step := user.SetName(name);
      if step.Throw? { return Throw(step.error); }
      step := user.SetType(userType);
      if step.Throw? { return Throw(step.error); }
      return Ok(user);
    }
  }

  /** Borrowing a book that is not on the member's list and returning it again leaves the list
      as it was, unlinks the book and makes it available. */
  method BorrowThenReturn(m: User, book: Book) returns (borrowed: Outcome<()>, returned: Outcome<()>)
    requires m.kind == MemberKind
    requires book.member == null && m.id.Some? && m.borrowedBooks.Some? && book !in m.borrowedBooks.value
    modifies m, book
    ensures borrowed.Ok? && returned.Ok?
    ensures m.State() == old(m.State())
    ensures book.State() == old(book.State()).(memberId := None, available := true)
  {
    ghost var before := m.borrowedBooks.value;
    borrowed := m.BorrowBook(book);
    assert m.borrowedBooks == Some(before + [book]) && book.member == m;
    returned := m.ReturnBook(book);
    Sequences.RemoveFirstAppended(before, book);
  }
}
