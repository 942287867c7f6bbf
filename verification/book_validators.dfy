/** The validators of the book commands: `CreateBookCommandValidator` and
    `UpdateBookCommandValidator`. The current year, read from the clock in the original, is a
    parameter. */
module BookValidators {
  import opened Wrappers
  import opened Text
  import opened Validation
  import opened FieldRules
  import opened Commands
  import Domain

  const TitleRequired: string := "Title is required."
  const TitleTooLong: string := "Title must not exceed 200 characters."
  const AuthorTooLong: string := "Author name must not exceed 100 characters."
  const CategoryRequired: string := "Category is required."
  const CategoryTooLong: string := "Category must not exceed 50 characters."
  const IsbnTooShort: string := "ISBN must be at least 10 characters."
  const IsbnTooLong: string := "ISBN must not exceed 20 characters."
  const SynopsisTooShort: string := "Synopsis must be at least 10 characters."
  const SynopsisTooLong: string := "Synopsis must not exceed 1000 characters."

  /** The year block both book validators run: a present year outside 1000 .. currentYear + 1
      is reported with the upper bound written out. */
  method CheckYear(errors: seq<string>, year: Option<int>, currentYear: int) returns (result: seq<string>)
    ensures result == errors + YearErrors(year, currentYear)
  {
    result := errors;
    if year.Some? {
      if year.value < MinPublicationYear || year.value > currentYear + 1 {
        result := result + [YearMessage(currentYear)];
      }
    }
  }

  // ------------------------------------------------------------ CreateBookCommandValidator

  /** The four fields' messages number at most four and are empty exactly when every field
      passes. */
  lemma CreateBookErrorsEmptyExactly(request: CreateBookCommand, currentYear: int)
    ensures var errors := RequiredWithin(request.title, 200, TitleRequired, TitleTooLong)
      + OptionalWithin(request.author, 100, AuthorTooLong)
      + YearErrors(request.year, currentYear)
      + RequiredWithin(request.category, 50, CategoryRequired, CategoryTooLong);
      && |errors| <= 4
      && (errors == [] <==>
        && !IsNullOrWhiteSpace(request.title) && |request.title.value| <= 200
        && (IsNullOrWhiteSpace(request.author) || |request.author.value| <= 100)
        && (request.year.None? || MinPublicationYear <= request.year.value <= currentYear + 1)
        && !IsNullOrWhiteSpace(request.category) && |request.category.value| <= 50)
  {
    var title := RequiredWithin(request.title, 200, TitleRequired, TitleTooLong);
    var author := OptionalWithin(request.author, 100, AuthorTooLong);
    var year := YearErrors(request.year, currentYear);
    var category := RequiredWithin(request.category, 50, CategoryRequired, CategoryTooLong);
    assert |title + author + year + category| == |title| + |author| + |year| + |category|;
  }

  /** `CreateBookCommandValidator.ValidateAsync`: title, author, year and category messages in
      that order, at most one each. Title and category are required, author and year optional. */
  method ValidateCreateBook(request: CreateBookCommand, currentYear: int) returns (r: ValidationResult)
    ensures r.errors == RequiredWithin(request.title, 200, TitleRequired, TitleTooLong)
      + OptionalWithin(request.author, 100, AuthorTooLong)
      + YearErrors(request.year, currentYear)
      + RequiredWithin(request.category, 50, CategoryRequired, CategoryTooLong)
    ensures |r.errors| <= 4
    ensures r.isValid <==>
      !IsNullOrWhiteSpace(request.title) && |request.title.value| <= 200
      && (IsNullOrWhiteSpace(request.author) || |request.author.value| <= 100)
      && (request.year.None? || MinPublicationYear <= request.year.value <= currentYear + 1)
      && !IsNullOrWhiteSpace(request.category) && |request.category.value| <= 50
  {
    var errors := CheckRequired([], request.title, 200, TitleRequired, TitleTooLong);
    errors := CheckOptional(errors, request.author, 100, AuthorTooLong);
    errors := CheckYear(errors, request.year, currentYear);
    errors := CheckRequired(errors, request.category, 50, CategoryRequired, CategoryTooLong);
    CreateBookErrorsEmptyExactly(request, currentYear);
    r := Verdict(errors);
  }

  // ------------------------------------------------------------ UpdateBookCommandValidator

  /** The ISBN and synopsis blocks: a non-blank value must have at least 10 characters, else at
      most `max`, reported as an if/else-if chain. */
  method CheckLongText(errors: seq<string>, value: Option<string>, max: nat, tooShortMessage: string, tooLongMessage: string)
    returns (result: seq<string>)
    ensures result == errors + OptionalBetween(value, 10, max, tooShortMessage, tooLongMessage)
  {
    result := errors;
    if !IsNullOrWhiteSpace(value) {
      if |value.value| < 10 {
        result := result + [tooShortMessage];
      } else if |value.value| > max {
        result := result + [tooLongMessage];
      }
    }
  }

  /** The seven fields' messages number at most seven and are empty exactly when every field
      passes. */
  lemma UpdateBookErrorsEmptyExactly(request: UpdateBookCommand, currentYear: int)
    ensures var errors := PositiveId(request.bookId, BookIdNotPositive)
      + RequiredWithin(request.title, 200, TitleRequired, TitleTooLong)
      + OptionalWithin(request.author, 100, AuthorTooLong)
      + YearErrors(request.year, currentYear)
      + OptionalWithin(request.category, 50, CategoryTooLong)
      + OptionalBetween(request.isbn, 10, 20, IsbnTooShort, IsbnTooLong)
      + OptionalBetween(request.synopsis, 10, 1000, SynopsisTooShort, SynopsisTooLong);
      && |errors| <= 7
      && (errors == [] <==>
        && request.bookId > 0
        && !IsNullOrWhiteSpace(request.title) && |request.title.value| <= 200
        && (IsNullOrWhiteSpace(request.author) || |request.author.value| <= 100)
        && (request.year.None? || MinPublicationYear <= request.year.value <= currentYear + 1)
        && (IsNullOrWhiteSpace(request.category) || |request.category.value| <= 50)
        && (IsNullOrWhiteSpace(request.isbn) || 10 <= |request.isbn.value| <= 20)
        && (IsNullOrWhiteSpace(request.synopsis) || 10 <= |request.synopsis.value| <= 1000))
  {
    var id := PositiveId(request.bookId, BookIdNotPositive);
    var title := RequiredWithin(request.title, 200, TitleRequired, TitleTooLong);
    var author := OptionalWithin(request.author, 100, AuthorTooLong);
    var year := YearErrors(request.year, currentYear);
    var category := OptionalWithin(request.category, 50, CategoryTooLong);
    var isbn := OptionalBetween(request.isbn, 10, 20, IsbnTooShort, IsbnTooLong);
    var synopsis := OptionalBetween(request.synopsis, 10, 1000, SynopsisTooShort, SynopsisTooLong);
    assert |id + title + author + year + category + isbn + synopsis| ==
      |id| + |title| + |author| + |year| + |category| + |isbn| + |synopsis|;
  }

  /** `UpdateBookCommandValidator.ValidateAsync`: book id, title, author, year, category, ISBN and
      synopsis messages in that order, at most one each. Unlike creation, the category is
      optional. */
  method ValidateUpdateBook(request: UpdateBookCommand, currentYear: int) returns (r: ValidationResult)
    ensures r.errors == PositiveId(request.bookId, BookIdNotPositive)
      + RequiredWithin(request.title, 200, TitleRequired, TitleTooLong)
      + OptionalWithin(request.author, 100, AuthorTooLong)
      + YearErrors(request.year, currentYear)
      + OptionalWithin(request.category, 50, CategoryTooLong)
      + OptionalBetween(request.isbn, 10, 20, IsbnTooShort, IsbnTooLong)
      + OptionalBetween(request.synopsis, 10, 1000, SynopsisTooShort, SynopsisTooLong)
    ensures |r.errors| <= 7
    ensures r.isValid <==>
      request.bookId > 0
      && !IsNullOrWhiteSpace(request.title) && |request.title.value| <= 200
      && (IsNullOrWhiteSpace(request.author) || |request.author.value| <= 100)
      && (request.year.None? || MinPublicationYear <= request.year.value <= currentYear + 1)
      && (IsNullOrWhiteSpace(request.category) || |request.category.value| <= 50)
      && (IsNullOrWhiteSpace(request.isbn) || 10 <= |request.isbn.value| <= 20)
      && (IsNullOrWhiteSpace(request.synopsis) || 10 <= |request.synopsis.value| <= 1000)
  {
    var errors: seq<string> := [];
    if request.bookId <= 0 {
      errors := errors + [BookIdNotPositive];
    }
    assert errors == PositiveId(request.bookId, BookIdNotPositive);
    errors := CheckRequired(errors, request.title, 200, TitleRequired, TitleTooLong);
    errors := CheckOptional(errors, request.author, 100, AuthorTooLong);
    errors := CheckYear(errors, request.year, currentYear);
    errors := CheckOptional(errors, request.category, 50, CategoryTooLong);
    errors := CheckLongText(errors, request.isbn, 20, IsbnTooShort, IsbnTooLong);
    errors := CheckLongText(errors, request.synopsis, 1000, SynopsisTooShort, SynopsisTooLong);
    UpdateBookErrorsEmptyExactly(request, currentYear);
    r := Verdict(errors);
  }

  // ------------------------------------------------------------ validators against the entity

  /** The validators and the `Book` year setter disagree: a year passes validation yet is
      refused by the entity exactly when it lies in 1000..1099, or after 2025 but no later than
      next year (for any clock from the year 1099 on). */
  lemma YearWindowsDisagree(year: int, currentYear: int)
    requires currentYear + 1 >= Domain.MinPublicationYear
    ensures YearErrors(Some(year), currentYear) == [] && !Domain.YearAccepted(Some(year)) <==>
      (MinPublicationYear <= year < Domain.MinPublicationYear)
      || (Domain.MaxPublicationYear < year <= currentYear + 1)
  {
  }

  /** Until the clock passes 2024 the validator window ends before the entity's; from then on
      every year the entity accepts is also accepted by the validators. */
  lemma EntityYearsPassValidation(year: int, currentYear: int)
    requires currentYear >= Domain.MaxPublicationYear - 1
    requires Domain.YearAccepted(Some(year))
    ensures YearErrors(Some(year), currentYear) == []
  {
  }
}
