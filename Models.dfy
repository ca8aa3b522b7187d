/**
  The entities the modelled code works on: books with their authors and
  categories, pupils, classrooms and loans. Only the fields that code reads
  or writes are kept; how they are mapped to database tables is not part of
  this model.
 */
module Models {
  import opened Wrappers
  import opened Text
  import opened Enums

  datatype Author = Author(name: string)

  datatype Category = Category(name: string)

  /** A calendar day (`datetime.date`). */
  datatype Date = Date(year: int, month: int, day: int)

  /** The catalogue fields of a book, taken together as one value. */
  datatype BookData = BookData(
    title: Option<string>,
    description: Option<string>,
    isbn10: Option<string>,
    isbn13: Option<string>,
    authors: seq<Author>,
    categories: seq<Category>,
    thumbnailUrl: Option<string>,
    previewUrl: Option<string>)

  /** What a fresh `Book()` holds: no column set, no authors, no categories. */
  const NoData := BookData(None, None, None, None, [], [], None, None)

  /** `get_short_description` shows this many characters at most. */
  const ShortDescriptionLength := 150

  function AuthorNames(authors: seq<Author>): (r: seq<string>)
    ensures |r| == |authors|
  {
    seq(|authors|, i requires 0 <= i < |authors| => authors[i].name)
  }

  function CategoryNames(categories: seq<Category>): (r: seq<string>)
    ensures |r| == |categories|
  {
    seq(|categories|, i requires 0 <= i < |categories| => categories[i].name)
  }

  function Min(a: int, b: int): int
  {
    if a <= b then a else b
  }

  /** A book of the catalogue (`Book`). */
  class Book {
    var isbn10: Option<string>
    var isbn13: Option<string>
    var title: Option<string>
    var description: Option<string>
    var thumbnailUrl: Option<string>
    var previewUrl: Option<string>
    var authors: seq<Author>
    var categories: seq<Category>
    var currentLocation: Option<BookLocation>

    /** `Book()` */
    constructor ()
      ensures Data() == NoData && currentLocation == None
    {
      isbn10, isbn13, title, description := None, None, None, None;
      thumbnailUrl, previewUrl := None, None;
      authors, categories := [], [];
      currentLocation := None;
    }

    /** A book whose catalogue fields are `d`. */
    constructor FromData(d: BookData)
      ensures Data() == d && currentLocation == None
    {
      isbn10, isbn13, title, description := d.isbn10, d.isbn13, d.title, d.description;
      thumbnailUrl, previewUrl := d.thumbnailUrl, d.previewUrl;
      authors, categories := d.authors, d.categories;
      currentLocation := None;
    }

    /** The catalogue fields of this book. */
    function Data(): BookData
      reads this
    {
      BookData(title, description, isbn10, isbn13, authors, categories, thumbnailUrl, previewUrl)
    }

    /** `get_author_name`: the author names joined by ", ". A book with no
        author makes the source raise `IndexError`. The special case for a
        single author gives the same string as the join would. */
    function GetAuthorName(): (r: string)
      reads this
      requires |authors| >= 1
      ensures r == Join(AuthorNames(authors), ", ")
      ensures r[..|authors[0].name|] == authors[0].name
      ensures |r| == TotalLength(AuthorNames(authors)) + 2 * (|authors| - 1)
    {
      var names := AuthorNames(authors);
      JoinLength(names, ", ");
      JoinHead(names, ", ");
      if |authors| > 1 then Join(names, ", ") else authors[0].name
    }

    /** `get_category_name`: the category names joined by ", ", or `None`
        when the book has no category. */
    function GetCategoryName(): (r: Option<string>)
      reads this
      ensures r.None? <==> categories == []
      ensures r.Some? ==> r.value == Join(CategoryNames(categories), ", ")
      ensures r.Some? ==> |r.value| == TotalLength(CategoryNames(categories)) + 2 * (|categories| - 1)
    {
      var names := CategoryNames(categories);
      if |categories| > 1 then
        JoinLength(names, ", ");
        Some(Join(names, ", "))
      else if |categories| == 1 then
        Some(categories[0].name)
      else
        None
    }

    /** `get_short_description`: "..." for a missing or blank description,
        otherwise its first 150 characters (all of it when shorter) and " ...". */
    function GetShortDescription(): (r: string)
      reads this
      ensures |r| <= ShortDescriptionLength + 4
      ensures r == "..." <==> description.None? || AllSpace(description.value)
      ensures r != "..." ==>
        && |r| == Min(|description.value|, ShortDescriptionLength) + 4
        && r[..|r| - 4] == description.value[..|r| - 4]
        && r[|r| - 4..] == " ..."
    {
      if description.Some? && Strip(description.value) != "" then
        BlankIffAllSpace(description.value);
        var d := description.value;
        d[..Min(|d|, ShortDescriptionLength)] + " ..."
      else
        (if description.Some? then BlankIffAllSpace(description.value); "..." else "...")
    }
  }

  /** A pupil (`Pupil`). */
  class Pupil {
    const name: string

    constructor (name: string)
      ensures this.name == name
    {
      this.name := name;
    }
  }

  /** An account that can log in (`User`). */
  class User {
    const username: string

    constructor (username: string)
      ensures this.username == username
    {
      this.username := username;
    }
  }

  /** A class of pupils (`Classroom`). */
  class Classroom {
    var name: string
    var year: Option<string>
    var pupils: seq<Pupil>

    /** `Classroom(name)` */
    constructor (name: string)
      ensures this.name == name && year == None && pupils == []
    {
      this.name := name;
      year := None;
      pupils := [];
    }
  }

  /** The loan of a book to a pupil (`Loan`). */
  class Loan {
    var pupil: Option<Pupil>
    var book: Option<Book>
    var startDate: Option<Date>
    var endDate: Option<Date>

    /** `Loan()` */
    constructor ()
      ensures pupil == None && book == None && startDate == None && endDate == None
    {
      pupil, book, startDate, endDate := None, None, None, None;
    }
  }
}
