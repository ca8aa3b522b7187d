/**
  Book-metadata lookup (`APIClient`, `build_book`).

  A Google Books "volumeInfo" record becomes a `Book`; a search asks Google
  Books for a title and/or an ISBN and keeps the records that carry a title;
  a title lookup drops the books whose title does not match; and
  `find_books` runs, for every ISBN, the fallback chain Google Books, then
  Amazon, then related ISBNs, then a title found for the ISBN, stamps the
  ISBN on everything gathered so far, and returns the distinct books sorted
  by title.

  Every outbound service is a function held in `Services`: what Google
  Books answers to a query, the books Amazon and the related-ISBN services
  give for an ISBN, the title eBay gives for an ISBN, `pyisbn.convert`,
  `urllib.parse.quote_plus`, and the character class `[\w\s]`.
 */
module ApiHandler {
  import opened Wrappers
  import opened Text
  import opened JsonParser
  import opened Models

  // =====================================================================
  // build_book

  /** `record.get(key)` for a field that holds a string or null. */
  function StrField(record: Json, key: string): Option<string>
  {
    if record.Obj? && key in record.fields && record.fields[key].Str? then Some(record.fields[key].s) else None
  }

  /** The field is missing, null or a string. */
  predicate OptionalString(record: Json, key: string)
  {
    record.Obj? && (key !in record.fields || record.fields[key].Null? || record.fields[key].Str?)
  }

  /** The field is missing or a list of strings. */
  predicate OptionalStringList(record: Json, key: string)
  {
    record.Obj? && (key in record.fields ==>
      record.fields[key].Arr? && forall x :: x in record.fields[key].items ==> x.Str?)
  }

  /** One entry of "industryIdentifiers": a string "type" and an optional "identifier". */
  predicate IdentifierShape(ident: Json)
  {
    ident.Obj? && "type" in ident.fields && ident.fields["type"].Str? && OptionalString(ident, "identifier")
  }

  /** The fields `build_book` reads have the types the Google Books API gives
      them; with other types the source raises or stores a non-string. */
  predicate VolumeShape(v: Json)
  {
    && v.Obj?
    && OptionalString(v, "title")
    && OptionalString(v, "description")
    && OptionalString(v, "previewLink")
    && ("industryIdentifiers" in v.fields ==>
          v.fields["industryIdentifiers"].Arr?
          && forall x :: x in v.fields["industryIdentifiers"].items ==> IdentifierShape(x))
    && OptionalStringList(v, "authors")
    && OptionalStringList(v, "categories")
    && ("imageLinks" in v.fields ==>
          OptionalString(v.fields["imageLinks"], "smallthumbnail")
          && OptionalString(v.fields["imageLinks"], "thumbnail"))
  }

  /** `ident.get('type').upper() == kind` */
  predicate IsKind(ident: Json, kind: string)
    requires IdentifierShape(ident)
  {
    Upper(ident.fields["type"].s) == kind
  }

  predicate AllIdentifiers(idents: seq<Json>)
  {
    forall k :: 0 <= k < |idents| ==> IdentifierShape(idents[k])
  }

  /** The value the identifier loop leaves in the field for `kind`: the
      identifier of the last entry of that kind, or `None`. */
  function LastIdentifier(idents: seq<Json>, kind: string): Option<string>
    requires AllIdentifiers(idents)
  {
    if idents == [] then None
    else if IsKind(idents[|idents| - 1], kind) then StrField(idents[|idents| - 1], "identifier")
    else LastIdentifier(idents[..|idents| - 1], kind)
  }

  function Identifiers(v: Json): (r: seq<Json>)
    requires VolumeShape(v)
    ensures AllIdentifiers(r)
  {
    if "industryIdentifiers" in v.fields then v.fields["industryIdentifiers"].items else []
  }

  function AuthorsOf(v: Json): seq<Author>
    requires VolumeShape(v)
  {
    if "authors" in v.fields then
      var names := v.fields["authors"].items;
      seq(|names|, i requires 0 <= i < |names| => Author(names[i].s))
    else []
  }

  function CategoriesOf(v: Json): seq<Category>
    requires VolumeShape(v)
  {
    if "categories" in v.fields then
      var names := v.fields["categories"].items;
      seq(|names|, i requires 0 <= i < |names| => Category(names[i].s))
    else []
  }

  /** `links.get('smallthumbnail') or links.get('thumbnail')` */
  function Thumbnail(v: Json): Option<string>
    requires VolumeShape(v)
  {
    if "imageLinks" in v.fields then
      var small := StrField(v.fields["imageLinks"], "smallthumbnail");
      if small.Some? && small.value != "" then small else StrField(v.fields["imageLinks"], "thumbnail")
    else None
  }

  /** The catalogue fields `build_book` gives a book. */
  function VolumeData(v: Json): BookData
    requires VolumeShape(v)
  {
    BookData(
      StrField(v, "title"),
      StrField(v, "description"),
      LastIdentifier(Identifiers(v), "ISBN_10"),
      LastIdentifier(Identifiers(v), "ISBN_13"),
      AuthorsOf(v),
      CategoriesOf(v),
      Thumbnail(v),
      StrField(v, "previewLink"))
  }

  /** What a book field holding `x` says about the record's `key`: a string
      is that very string of the record, and `None` means the key is missing
      or null. */
  predicate Copied(v: Json, key: string, x: Option<string>)
    requires v.Obj?
  {
    match x
    case Some(s) => key in v.fields && v.fields[key] == Str(s)
    case None => key !in v.fields || v.fields[key] == Null
  }

  /** Title, description and preview link are copied as they are from the
      record; a missing or null one gives `None`, and two records that agree
      on those keys give the same three fields. */
  lemma VolumeCopiesFields(v: Json, w: Json)
    requires VolumeShape(v) && VolumeShape(w)
    ensures Copied(v, "title", VolumeData(v).title)
    ensures Copied(v, "description", VolumeData(v).description)
    ensures Copied(v, "previewLink", VolumeData(v).previewUrl)
    ensures (forall key :: key in ["title", "description", "previewLink"] ==>
               (key in v.fields <==> key in w.fields) && (key in v.fields ==> v.fields[key] == w.fields[key]))
         ==> && VolumeData(v).title == VolumeData(w).title
             && VolumeData(v).description == VolumeData(w).description
             && VolumeData(v).previewUrl == VolumeData(w).previewUrl
  {
    assert "title" in ["title", "description", "previewLink"];
    assert "description" in ["title", "description", "previewLink"];
    assert "previewLink" in ["title", "description", "previewLink"];
  }

  /** Identifier types are compared ignoring case, and a later identifier of
      a type overrides an earlier one: the field holds the identifier of the
      last entry of that type, and stays `None` when there is none. */
  lemma {:induction false} LastIdentifierWins(idents: seq<Json>, kind: string)
    requires AllIdentifiers(idents)
    ensures (forall j :: 0 <= j < |idents| ==> !IsKind(idents[j], kind)) ==> LastIdentifier(idents, kind) == None
    ensures forall j ::
      (0 <= j < |idents| && IsKind(idents[j], kind) && forall l :: j < l < |idents| ==> !IsKind(idents[l], kind))
      ==> LastIdentifier(idents, kind) == StrField(idents[j], "identifier")
  {
    if idents != [] {
      var init := idents[..|idents| - 1];
      LastIdentifierWins(init, kind);
      forall j | 0 <= j < |idents| && IsKind(idents[j], kind)
        && (forall l :: j < l < |idents| ==> !IsKind(idents[l], kind))
        ensures LastIdentifier(idents, kind) == StrField(idents[j], "identifier")
      {
        if j < |idents| - 1 {
          assert init[j] == idents[j];
          assert forall l :: j < l < |init| ==> init[l] == idents[l];
        }
      }
    }
  }

  /** One author per name and one category per name, in the order given;
      the small thumbnail is preferred to the thumbnail when it is not empty. */
  lemma VolumeListsAndThumbnail(v: Json)
    requires VolumeShape(v)
    ensures "authors" in v.fields ==>
      |VolumeData(v).authors| == |v.fields["authors"].items|
      && forall i :: 0 <= i < |VolumeData(v).authors| ==> Str(VolumeData(v).authors[i].name) == v.fields["authors"].items[i]
    ensures "categories" in v.fields ==>
      |VolumeData(v).categories| == |v.fields["categories"].items|
      && forall i :: 0 <= i < |VolumeData(v).categories| ==> Str(VolumeData(v).categories[i].name) == v.fields["categories"].items[i]
    ensures "authors" !in v.fields ==> VolumeData(v).authors == []
    ensures "imageLinks" in v.fields && StrField(v.fields["imageLinks"], "smallthumbnail").Some?
      && StrField(v.fields["imageLinks"], "smallthumbnail").value != ""
      ==> VolumeData(v).thumbnailUrl == StrField(v.fields["imageLinks"], "smallthumbnail")
    ensures "imageLinks" in v.fields && StrField(v.fields["imageLinks"], "smallthumbnail") in {None, Some("")}
      ==> VolumeData(v).thumbnailUrl == StrField(v.fields["imageLinks"], "thumbnail")
  {
    if "authors" in v.fields {
      var names := v.fields["authors"].items;
      forall i | 0 <= i < |names| ensures Str(VolumeData(v).authors[i].name) == names[i] {
        assert names[i] in names;
      }
    }
    if "categories" in v.fields {
      var names := v.fields["categories"].items;
      forall i | 0 <= i < |names| ensures Str(VolumeData(v).categories[i].name) == names[i] {
        assert names[i] in names;
      }
    }
  }

  /** `build_book(vol_info)` */
  method BuildBook(volInfo: Json) returns (book: Book)
    requires VolumeShape(volInfo)
    ensures fresh(book)
    ensures book.Data() == VolumeData(volInfo) && book.currentLocation == None
  {
    book := new Book();
    book.title := StrField(volInfo, "title");
    book.description := StrField(volInfo, "description");
    ghost var d := VolumeData(volInfo);
    if "industryIdentifiers" in volInfo.fields {
      SetIdentifiers(book, volInfo.fields["industryIdentifiers"].items);
    }
    assert book.Data() == NoData.(title := d.title, description := d.description, isbn10 := d.isbn10, isbn13 := d.isbn13);
    if "authors" in volInfo.fields {
      AddAuthors(book, volInfo.fields["authors"].items);
    }
    assert book.authors == d.authors;
    if "categories" in volInfo.fields {
      AddCategories(book, volInfo.fields["categories"].items);
    }
    assert book.categories == d.categories;
    if "imageLinks" in volInfo.fields {
      var links := volInfo.fields["imageLinks"];
      var small := StrField(links, "smallthumbnail");
      book.thumbnailUrl := if small.Some? && small.value != "" then small else StrField(links, "thumbnail");
    }
    book.previewUrl := StrField(volInfo, "previewLink");
  }

  /** The identifier loop of `build_book`: an ISBN-13 or ISBN-10 entry
      overwrites the field of its kind. */
  method SetIdentifiers(book: Book, idents: seq<Json>)
    requires forall x :: x in idents ==> IdentifierShape(x)
    requires book.isbn10 == None && book.isbn13 == None
    modifies book
    ensures AllIdentifiers(idents)
    ensures book.Data() == old(book.Data()).(isbn10 := LastIdentifier(idents, "ISBN_10"),
                                             isbn13 := LastIdentifier(idents, "ISBN_13"))
    ensures book.currentLocation == old(book.currentLocation)
  {
    assert forall k :: 0 <= k < |idents| ==> idents[k] in idents;
    for k := 0 to |idents|
      invariant book.Data() == old(book.Data()).(isbn10 := LastIdentifier(idents[..k], "ISBN_10"),
                                                 isbn13 := LastIdentifier(idents[..k], "ISBN_13"))
      invariant book.currentLocation == old(book.currentLocation)
    {
      assert idents[..k + 1][..k] == idents[..k];
      var ident := idents[k];
      if Upper(ident.fields["type"].s) == "ISBN_13" {
        book.isbn13 := StrField(ident, "identifier");
      } else if Upper(ident.fields["type"].s) == "ISBN_10" {
        book.isbn10 := StrField(ident, "identifier");
      }
    }
    assert idents[..|idents|] == idents;
  }

  /** The author loop of `build_book`: one author per name, appended in order. */
  method AddAuthors(book: Book, names: seq<Json>)
    requires forall x :: x in names ==> x.Str?
    modifies book
    ensures book.Data() == old(book.Data()).(authors := old(book.authors)
      + seq(|names|, i requires 0 <= i < |names| => Author(names[i].s)))
    ensures book.currentLocation == old(book.currentLocation)
  {
    for k := 0 to |names|
      invariant book.Data() == old(book.Data()).(authors := old(book.authors)
        + seq(k, i requires 0 <= i < k => Author(names[i].s)))
      invariant book.currentLocation == old(book.currentLocation)
    {
      assert names[k] in names;
      book.authors := book.authors + [Author(names[k].s)];
    }
  }

  /** The category loop of `build_book`: one category per name, appended in order. */
  method AddCategories(book: Book, names: seq<Json>)
    requires forall x :: x in names ==> x.Str?
    modifies book
    ensures book.Data() == old(book.Data()).(categories := old(book.categories)
      + seq(|names|, i requires 0 <= i < |names| => Category(names[i].s)))
    ensures book.currentLocation == old(book.currentLocation)
  {
    for k := 0 to |names|
      invariant book.Data() == old(book.Data()).(categories := old(book.categories)
        + seq(k, i requires 0 <= i < k => Category(names[i].s)))
      invariant book.currentLocation == old(book.currentLocation)
    {
      assert names[k] in names;
      book.categories := book.categories + [Category(names[k].s)];
    }
  }

  // =====================================================================
  // search_google_books

  /** What Google Books answers: whether the status is OK, and the JSON body. */
  datatype Response = Response(ok: bool, body: Json)

  /** An OK answer has a numeric "totalItems" and, when it has "items", a list
      of objects whose "volumeInfo", when present, has the volume shape. */
  predicate ResponseShape(r: Response)
  {
    !r.ok ||
    (&& r.body.Obj?
     && "totalItems" in r.body.fields
     && r.body.fields["totalItems"].Num?
     && ("items" in r.body.fields ==>
           r.body.fields["items"].Arr?
           && forall item :: item in r.body.fields["items"].items ==> ItemShape(item)))
  }

  predicate ItemShape(item: Json)
  {
    item.Obj? && ("volumeInfo" in item.fields ==> VolumeShape(item.fields["volumeInfo"]))
  }

  predicate AllItems(items: seq<Json>)
  {
    forall k :: 0 <= k < |items| ==> ItemShape(items[k])
  }

  /** `x and x.strip()`: the value is given and not blank. */
  predicate Filled(x: Option<string>)
  {
    x.Some? && Strip(x.value) != ""
  }

  /** `search_query`: "+intitle:" and the quoted title when the title is not
      blank, then "+isbn:" and the ISBN when the ISBN is not blank. */
  function SearchQuery(isbn: Option<string>, title: Option<string>, quotePlus: string -> string): string
  {
    var byTitle := if Filled(title) then "+intitle:" + quotePlus(title.value) else "";
    if Filled(isbn) then byTitle + "+isbn:" + isbn.value else byTitle
  }

  /** No request is made exactly when neither the title nor the ISBN has a
      non-blank value; otherwise the title part comes first. */
  lemma SearchQueryShape(isbn: Option<string>, title: Option<string>, quotePlus: string -> string)
    ensures var q := SearchQuery(isbn, title, quotePlus);
      && (q == "" <==> !Filled(title) && !Filled(isbn))
      && (Filled(title) ==> "+intitle:" + quotePlus(title.value) <= q)
      && (Filled(isbn) ==> |q| >= |isbn.value| + 6 && q[|q| - |isbn.value| - 6..] == "+isbn:" + isbn.value)
      && (!Filled(title) && Filled(isbn) ==> q == "+isbn:" + isbn.value)
  {
    QueryLayout(if Filled(title) then quotePlus(title.value) else "", if Filled(isbn) then isbn.value else "",
                Filled(title), Filled(isbn));
  }

  /** The layout of a query, with the two blank tests as plain flags. */
  lemma QueryLayout(quoted: string, isbn: string, hasTitle: bool, hasIsbn: bool)
    ensures var byTitle := if hasTitle then "+intitle:" + quoted else "";
      var q := if hasIsbn then byTitle + "+isbn:" + isbn else byTitle;
      && (q == "" <==> !hasTitle && !hasIsbn)
      && (hasTitle ==> "+intitle:" + quoted <= q)
      && (hasIsbn ==> |q| >= |isbn| + 6 && q[|q| - |isbn| - 6..] == "+isbn:" + isbn)
      && (!hasTitle && hasIsbn ==> q == "+isbn:" + isbn)
  {
    var byTitle := if hasTitle then "+intitle:" + quoted else "";
    if hasIsbn {
      var q := byTitle + "+isbn:" + isbn;
      assert q[..|byTitle|] == byTitle;
      assert q[|byTitle|..] == "+isbn:" + isbn;
    }
  }

  /** The items a response yields: none when the status is not OK, when
      "totalItems" is not positive or when there is no "items". */
  function ResponseItems(r: Response): (items: seq<Json>)
    requires ResponseShape(r)
    ensures AllItems(items)
  {
    if !r.ok then []
    else if r.body.fields["totalItems"].n <= 0 || "items" !in r.body.fields then []
    else
      var items := r.body.fields["items"].items;
      assert forall k :: 0 <= k < |items| ==> items[k] in items;
      items
  }

  /** The built book has a non-empty title (`if book and book.title`). */
  predicate Titled(d: BookData)
  {
    d.title.Some? && d.title.value != ""
  }

  predicate AllTitled(ds: seq<BookData>)
  {
    forall i :: 0 <= i < |ds| ==> Titled(ds[i])
  }

  /** Every book has a title, possibly an empty one. */
  predicate AllHaveTitle(ds: seq<BookData>)
  {
    forall i :: 0 <= i < |ds| ==> ds[i].title.Some?
  }

  /** An item is kept when it has "volumeInfo" and that gives a titled book. */
  predicate IsHit(item: Json)
    requires ItemShape(item)
  {
    "volumeInfo" in item.fields && Titled(VolumeData(item.fields["volumeInfo"]))
  }

  /** The books `search_google_books` returns for a list of items: the
      titled ones, in the order of the items. */
  function Hits(items: seq<Json>): (r: seq<BookData>)
    ensures |r| <= |items|
    ensures AllTitled(r)
  {
    if items == [] then [] else Hits(items[..|items| - 1]) + HitOf(items[|items| - 1])
  }

  /** The book one item gives, if it is kept. */
  function HitOf(item: Json): (r: seq<BookData>)
    ensures |r| <= 1 && AllTitled(r)
  {
    if ItemShape(item) && IsHit(item) then [VolumeData(item.fields["volumeInfo"])] else []
  }

  /** Keeping the hits works item by item and keeps the order of the items. */
  lemma {:induction false} HitsAppend(a: seq<Json>, b: seq<Json>)
    ensures Hits(a + b) == Hits(a) + Hits(b)
  {
    if b == [] {
      assert a + b == a;
    } else {
      var c, init, last := a + b, b[..|b| - 1], b[|b| - 1];
      assert c[..|c| - 1] == a + init && c[|c| - 1] == last;
      HitsAppend(a, init);
      calc {
        Hits(c);
        Hits(a + init) + HitOf(last);
        (Hits(a) + Hits(init)) + HitOf(last);
        { AppendAssoc(Hits(a), Hits(init), HitOf(last)); }
        Hits(a) + (Hits(init) + HitOf(last));
        Hits(a) + Hits(b);
      }
    }
  }

  /** A request made to an outbound service. */
  datatype Request =
    | GoogleVolumes(query: string)
    | AmazonItem(isbn: string)
    | RelatedIsbns(isbn: string)
    | TitleByIsbn(isbn: string)

  /** The outbound services, as functions of what they are asked. */
  datatype Services = Services(
    google: string -> Response,
    amazon: string -> seq<BookData>,
    related: string -> seq<BookData>,
    titleOf: string -> Option<string>,
    convert: string -> Option<string>,
    quotePlus: string -> string,
    isWordOrSpace: char -> bool)

  /** Google Books answers with the documented shape; an Amazon book always
      has a title (possibly ""); the related-ISBN books come from Google
      Books searches, so they are titled. */
  ghost predicate ServicesShape(svc: Services)
  {
    && (forall q :: ResponseShape(svc.google(q)))
    && (forall isbn :: AllHaveTitle(svc.amazon(isbn)))
    && (forall isbn :: AllTitled(svc.related(isbn)))
  }

  /** The requests `search_google_books` makes for a query: none for "". */
  function QueryRequests(query: string): seq<Request>
  {
    if query == "" then [] else [GoogleVolumes(query)]
  }

  /** The books `search_google_books` returns for a query. */
  function GoogleHits(svc: Services, query: string): (r: seq<BookData>)
    requires ServicesShape(svc)
    ensures AllTitled(r)
  {
    if query == "" then [] else Hits(ResponseItems(svc.google(query)))
  }

  // =====================================================================
  // lookup_by_title

  /** `del results[i]` inside `for i, book in enumerate(results)`: when an
      element is deleted the next one slides into the slot just examined and
      is never examined itself. `bad[i]` says whether `s[i]` would be deleted
      if it were examined. */
  function EnumDelete<T>(s: seq<T>, bad: seq<bool>): (r: seq<T>)
    requires |s| == |bad|
    ensures |r| <= |s|
  {
    if s == [] then []
    else if !bad[0] then [s[0]] + EnumDelete(s[1..], bad[1..])
    else if |s| == 1 then []
    else [s[1]] + EnumDelete(s[2..], bad[2..])
  }

  /** Which elements that loop deletes, worked out position by position: an
      element is deleted when it is bad and the one before it was not
      deleted (a deleted element makes the loop skip its successor). */
  function Deleted(bad: seq<bool>, previousDeleted: bool): (r: seq<bool>)
    ensures |r| == |bad|
  {
    if bad == [] then []
    else
      var d := bad[0] && !previousDeleted;
      [d] + Deleted(bad[1..], d)
  }

  /** The elements whose flag is false, in order. */
  function KeepWhere<T>(s: seq<T>, drop: seq<bool>): seq<T>
    requires |s| == |drop|
  {
    if s == [] then []
    else (if drop[0] then [] else [s[0]]) + KeepWhere(s[1..], drop[1..])
  }

  /** The loop deletes exactly the elements `Deleted` marks. */
  lemma {:induction false} EnumDeleteKeeps<T>(s: seq<T>, bad: seq<bool>)
    requires |s| == |bad|
    ensures EnumDelete(s, bad) == KeepWhere(s, Deleted(bad, false))
  {
    if s != [] {
      if !bad[0] {
        EnumDeleteKeeps(s[1..], bad[1..]);
      } else if |s| == 1 {
      } else {
        EnumDeleteKeeps(s[2..], bad[2..]);
        assert Deleted(bad, false) == [true] + Deleted(bad[1..], true);
        assert Deleted(bad[1..], true) == [false] + Deleted(bad[2..], false);
        assert s[1..][1..] == s[2..];
      }
    }
  }

  /** Only bad elements are deleted, and never two neighbours: of two bad
      neighbours at most the first goes, so not every bad element is removed. */
  lemma {:induction false} DeletedOnlyBad(bad: seq<bool>, previousDeleted: bool)
    ensures forall i :: 0 <= i < |bad| && Deleted(bad, previousDeleted)[i] ==> bad[i]
    ensures forall i :: 0 <= i < |bad| - 1 && Deleted(bad, previousDeleted)[i] ==> !Deleted(bad, previousDeleted)[i + 1]
    ensures forall i ::
      (0 <= i < |bad| && bad[i] && (if i == 0 then !previousDeleted else !Deleted(bad, previousDeleted)[i - 1]))
      ==> Deleted(bad, previousDeleted)[i]
  {
    if bad != [] {
      var d := bad[0] && !previousDeleted;
      DeletedOnlyBad(bad[1..], d);
      var r := Deleted(bad, previousDeleted);
      assert r[1..] == Deleted(bad[1..], d);
    }
  }

  /** What survives the deletions comes from the input, so a property of
      every input element holds of every survivor. */
  lemma {:induction false} KeepWhereKeeps<T>(s: seq<T>, drop: seq<bool>, p: T -> bool)
    requires |s| == |drop| && forall i :: 0 <= i < |s| ==> p(s[i])
    ensures forall i :: 0 <= i < |KeepWhere(s, drop)| ==> p(KeepWhere(s, drop)[i])
  {
    if s != [] {
      KeepWhereKeeps(s[1..], drop[1..], p);
      assert forall i :: 0 <= i < |s| - 1 ==> s[1..][i] == s[i + 1];
    }
  }

  /** Two mismatching neighbours at the front: the second survives. */
  lemma SecondOfTwoBadSurvives<T>(x: T, y: T)
    ensures EnumDelete([x, y], [true, true]) == [y]
  {
  }

  /** `re.sub(r'[^\w\s]', '', s)`: only word and white-space characters stay. */
  function KeepWordsAndSpaces(s: string, isWordOrSpace: char -> bool): (r: string)
    ensures |r| <= |s|
    ensures forall c :: c in r ==> c in s && isWordOrSpace(c)
  {
    if s == [] then []
    else (if isWordOrSpace(s[0]) then [s[0]] else []) + KeepWordsAndSpaces(s[1..], isWordOrSpace)
  }

  /** The title test of `lookup_by_title`: after lower-casing and dropping
      punctuation, neither title occurs inside the other. */
  predicate TitleMismatch(bookTitle: string, searched: string, isWordOrSpace: char -> bool)
  {
    var gb := KeepWordsAndSpaces(Lower(bookTitle), isWordOrSpace);
    var s := KeepWordsAndSpaces(Lower(searched), isWordOrSpace);
    !IsSubstring(gb, s) && !IsSubstring(s, gb)
  }

  function MismatchFlags(ds: seq<BookData>, searched: string, isWordOrSpace: char -> bool): (r: seq<bool>)
    requires AllHaveTitle(ds)
    ensures |r| == |ds|
  {
    seq(|ds|, i requires 0 <= i < |ds| => TitleMismatch(ds[i].title.value, searched, isWordOrSpace))
  }

  /** `title or self.book_title` */
  function TitleTarget(title: Option<string>, bookTitle: string): string
  {
    if title.Some? && title.value != "" then title.value else bookTitle
  }

  /** The books `lookup_by_title` returns for a title. */
  function TitleHits(svc: Services, title: string): (r: seq<BookData>)
    requires ServicesShape(svc)
    ensures AllTitled(r)
  {
    var hits := GoogleHits(svc, SearchQuery(None, Some(title), svc.quotePlus));
    var bad := MismatchFlags(hits, title, svc.isWordOrSpace);
    EnumDeleteKeeps(hits, bad);
    KeepWhereKeeps(hits, Deleted(bad, false), Titled);
    EnumDelete(hits, bad)
  }

  /** `lookup_by_title` keeps the books it does not delete in their order,
      only ever deletes books whose title mismatches the searched one, and of two neighbouring
      mismatches the second is never examined, so it survives. */
  lemma TitleFilterRemovesOnlyMismatches(svc: Services, title: string)
    requires ServicesShape(svc)
    ensures var hits := GoogleHits(svc, SearchQuery(None, Some(title), svc.quotePlus));
      var bad := MismatchFlags(hits, title, svc.isWordOrSpace);
      && TitleHits(svc, title) == KeepWhere(hits, Deleted(bad, false))
      && (forall i :: 0 <= i < |hits| && Deleted(bad, false)[i] ==>
            TitleMismatch(hits[i].title.value, title, svc.isWordOrSpace))
      && (forall i :: 0 <= i < |hits| - 1 && Deleted(bad, false)[i] ==> !Deleted(bad, false)[i + 1])
  {
    var hits := GoogleHits(svc, SearchQuery(None, Some(title), svc.quotePlus));
    var bad := MismatchFlags(hits, title, svc.isWordOrSpace);
    EnumDeleteKeeps(hits, bad);
    DeletedOnlyBad(bad, false);
  }

  // =====================================================================
  // find_books, on values: books are positions in a pool, so that one book
  // found twice, or stamped after it was found, is one entry.

  /** The state of `find_books`: every book made so far (`pool`), the
      positions of `found_books` and of `lookup_results` in it, the number
      of errors caught, and the requests made. */
  datatype Finder = Finder(
    pool: seq<BookData>,
    found: seq<nat>,
    lookup: seq<nat>,
    errors: nat,
    requests: seq<Request>)

  /** Every position is one of the first `n`. */
  predicate InBounds(idxs: seq<nat>, n: nat)
  {
    forall i :: 0 <= i < |idxs| ==> idxs[i] < n
  }

  predicate Wf(st: Finder)
  {
    InBounds(st.found, |st.pool|) && InBounds(st.lookup, |st.pool|) && AllHaveTitle(st.pool)
  }

  /** `from, from + 1, ..., from + count - 1` */
  function Range(from: nat, count: nat): (r: seq<nat>)
    ensures |r| == count && forall i :: 0 <= i < count ==> r[i] == from + i
  {
    seq(count, i requires 0 <= i < count => from + i)
  }

  /** `lookup_results += books` for new books `ds`. */
  function Gather(st: Finder, ds: seq<BookData>): (r: Finder)
    requires Wf(st) && AllHaveTitle(ds)
    ensures Wf(r) && r.requests == st.requests && r.found == st.found && r.errors == st.errors
  {
    st.(pool := st.pool + ds, lookup := st.lookup + Range(|st.pool|, |ds|))
  }

  /** `lookup_results = books` for new books `ds`. */
  function Replace(st: Finder, ds: seq<BookData>): (r: Finder)
    requires Wf(st) && AllHaveTitle(ds)
    ensures Wf(r) && r.requests == st.requests && r.found == st.found && r.errors == st.errors
  {
    st.(pool := st.pool + ds, lookup := Range(|st.pool|, |ds|))
  }

  /** What the sources answer for one stripped ISBN. The sources are
      functions of what they are asked, so these answers are fixed before
      the fallback chain decides which of them it asks for. */
  datatype Answers = Answers(
    googleAsked: seq<Request>,
    google: seq<BookData>,
    amazon: seq<BookData>,
    related: seq<BookData>,
    titleAsked: seq<Request>,
    byTitle: seq<BookData>)

  /** Every answer holds books with a title, and the Google Books searches
      only ever send Google Books requests. */
  predicate AnswersShape(a: Answers)
  {
    && AllHaveTitle(a.google) && AllHaveTitle(a.amazon) && AllHaveTitle(a.related) && AllHaveTitle(a.byTitle)
    && (forall r :: r in a.googleAsked ==> r.GoogleVolumes?)
    && (forall r :: r in a.titleAsked ==> r.GoogleVolumes?)
  }

  /** What `search_google_books(isbn, None)` asks and answers. */
  ghost predicate GoogleAnswer(a: Answers, svc: Services, isbn: string)
    requires ServicesShape(svc)
  {
    var q := SearchQuery(Some(isbn), None, svc.quotePlus);
    a.googleAsked == QueryRequests(q) && a.google == GoogleHits(svc, q)
  }

  /** What `lookup_by_title(self.lookup_title(isbn))` asks (after the title
      service) and answers. */
  ghost predicate TitleAnswer(a: Answers, svc: Services, isbn: string, bookTitle: string)
    requires ServicesShape(svc)
  {
    var t := TitleTarget(svc.titleOf(isbn), bookTitle);
    a.titleAsked == QueryRequests(SearchQuery(None, Some(t), svc.quotePlus)) && a.byTitle == TitleHits(svc, t)
  }

  /** The answers for `isbn`: `search_google_books(isbn, None)`,
      `search_amazon(isbn)`, `lookup_by_related_isbn(isbn)`, and
      `lookup_by_title(self.lookup_title(isbn))`. */
  function AnswersFor(svc: Services, isbn: string, bookTitle: string): (a: Answers)
    requires ServicesShape(svc)
    ensures AnswersShape(a)
    ensures GoogleAnswer(a, svc, isbn) && a.amazon == svc.amazon(isbn) && a.related == svc.related(isbn)
    ensures TitleAnswer(a, svc, isbn, bookTitle)
  {
    var q := SearchQuery(Some(isbn), None, svc.quotePlus);
    var t := TitleTarget(svc.titleOf(isbn), bookTitle);
    Answers(QueryRequests(q), GoogleHits(svc, q), svc.amazon(isbn), svc.related(isbn),
            QueryRequests(SearchQuery(None, Some(t), svc.quotePlus)), TitleHits(svc, t))
  }

  /** The answers the sources give, ISBN by ISBN, as one value: `ans`
      answers as the services do, and every answer has the shape above.
      The loop model is written over such an `ans`. */
  ghost predicate AnswersOf(ans: string -> Answers, svc: Services, bookTitle: string)
    requires ServicesShape(svc)
  {
    && Shaped(ans)
    && (forall isbn {:trigger AnswersFor(svc, isbn, bookTitle)} :: ans(isbn) == AnswersFor(svc, isbn, bookTitle))
  }

  /** The answers of the services, ISBN by ISBN. */
  ghost function Oracle(svc: Services, bookTitle: string): (ans: string -> Answers)
    requires ServicesShape(svc)
    ensures AnswersOf(ans, svc, bookTitle)
  {
    var ans := (isbn: string) => AnswersFor(svc, isbn, bookTitle);
    assert forall isbn :: ans(isbn) == AnswersFor(svc, isbn, bookTitle);
    ans
  }

  /** What the oracle answers to `search_google_books(isbn, None)`. */
  lemma GooglePart(ans: string -> Answers, svc: Services, isbn: string, bookTitle: string)
    requires ServicesShape(svc) && AnswersOf(ans, svc, bookTitle)
    ensures AnswersShape(ans(isbn)) && GoogleAnswer(ans(isbn), svc, isbn)
  {
    assert ans(isbn) == AnswersFor(svc, isbn, bookTitle);
  }

  /** What the oracle answers to `search_amazon(isbn)`. */
  lemma AmazonPart(ans: string -> Answers, svc: Services, isbn: string, bookTitle: string)
    requires ServicesShape(svc) && AnswersOf(ans, svc, bookTitle)
    ensures AnswersShape(ans(isbn)) && ans(isbn).amazon == svc.amazon(isbn)
  {
    assert ans(isbn) == AnswersFor(svc, isbn, bookTitle);
  }

  /** What the oracle answers to `lookup_by_related_isbn(isbn)`. */
  lemma RelatedPart(ans: string -> Answers, svc: Services, isbn: string, bookTitle: string)
    requires ServicesShape(svc) && AnswersOf(ans, svc, bookTitle)
    ensures AnswersShape(ans(isbn)) && ans(isbn).related == svc.related(isbn)
  {
    assert ans(isbn) == AnswersFor(svc, isbn, bookTitle);
  }

  /** What the oracle answers to `lookup_by_title(self.lookup_title(isbn))`. */
  lemma TitlePart(ans: string -> Answers, svc: Services, isbn: string, bookTitle: string)
    requires ServicesShape(svc) && AnswersOf(ans, svc, bookTitle)
    ensures AnswersShape(ans(isbn)) && TitleAnswer(ans(isbn), svc, isbn, bookTitle)
  {
    assert ans(isbn) == AnswersFor(svc, isbn, bookTitle);
  }

  /** `lookup_results += self.search_google_books(isbn, None)` */
  function GoogleStep(st: Finder, a: Answers): (r: Finder)
    requires Wf(st) && AnswersShape(a)
    ensures Wf(r)
  {
    Gather(st.(requests := st.requests + a.googleAsked), a.google)
  }

  /** `lookup_results += self.search_amazon(isbn)` */
  function AmazonStep(st: Finder, isbn: string, a: Answers): (r: Finder)
    requires Wf(st) && AnswersShape(a)
    ensures Wf(r)
  {
    Gather(st.(requests := st.requests + [AmazonItem(isbn)]), a.amazon)
  }

  /** `lookup_results += self.lookup_by_related_isbn(isbn)` */
  function RelatedStep(st: Finder, isbn: string, a: Answers): (r: Finder)
    requires Wf(st) && AnswersShape(a)
    ensures Wf(r)
  {
    Gather(st.(requests := st.requests + [RelatedIsbns(isbn)]), a.related)
  }

  /** `lookup_results = self.lookup_by_title(self.lookup_title(isbn))` */
  function TitleStep(st: Finder, isbn: string, a: Answers): (r: Finder)
    requires Wf(st) && AnswersShape(a)
    ensures Wf(r)
  {
    Replace(st.(requests := st.requests + [TitleByIsbn(isbn)] + a.titleAsked), a.byTitle)
  }

  /** The fallback chain for one stripped ISBN. */
  function Consult(st: Finder, isbn: string, direct: bool, a: Answers): (r: Finder)
    requires Wf(st) && AnswersShape(a)
    ensures Wf(r)
  {
    var s1 := GoogleStep(st, a);
    var s2 := if s1.lookup == [] then AmazonStep(s1, isbn, a) else s1;
    if !direct && s2.lookup == [] then Further(s2, isbn, a) else s2
  }

  /** The related-ISBN and title lookups, tried when Google and Amazon found nothing. */
  function Further(st: Finder, isbn: string, a: Answers): (r: Finder)
    requires Wf(st) && AnswersShape(a)
    ensures Wf(r)
  {
    var s3 := RelatedStep(st, isbn, a);
    if s3.lookup == [] then TitleStep(s3, isbn, a) else s3
  }

  /** The stamping of one book, `converted` being `pyisbn.convert(isbn)`. */
  function Stamped(d: BookData, isbn: string, converted: string): BookData
  {
    if |isbn| == 13 then d.(isbn13 := Some(isbn), isbn10 := Some(converted))
    else d.(isbn10 := Some(isbn), isbn13 := Some(converted))
  }

  /** The first assignment of the stamping, before `pyisbn.convert` raises. */
  function HalfStamped(d: BookData, isbn: string): BookData
  {
    if |isbn| == 13 then d.(isbn13 := Some(isbn)) else d.(isbn10 := Some(isbn))
  }

  /** The pool after the stamping loop over `lookup`: every book stamped when
      the conversion succeeds; otherwise the loop stops in the middle of the
      first book. */
  function StampedPool(pool: seq<BookData>, lookup: seq<nat>, isbn: string, converted: Option<string>): (r: seq<BookData>)
    requires InBounds(lookup, |pool|)
    ensures |r| == |pool|
  {
    if lookup == [] then pool
    else if converted.Some? then
      seq(|pool|, j requires 0 <= j < |pool| => if j in lookup then Stamped(pool[j], isbn, converted.value) else pool[j])
    else pool[lookup[0] := HalfStamped(pool[lookup[0]], isbn)]
  }

  /** Stamp, then `found_books += lookup_results`, or count the
      error when `pyisbn.convert` raised. */
  function StampStep(st: Finder, isbn: string, converted: Option<string>): (r: Finder)
    requires Wf(st)
    ensures Wf(r)
  {
    var pool := StampedPool(st.pool, st.lookup, isbn, converted);
    assert forall j :: 0 <= j < |pool| ==> pool[j].title == st.pool[j].title;
    if st.lookup == [] || converted.Some? then st.(pool := pool, found := st.found + st.lookup)
    else st.(pool := pool, errors := st.errors + 1)
  }

  /** Stamping adds `lookup_results` to `found_books` unless the conversion
      failed on a non-empty `lookup_results`, which is counted as an error. */
  lemma StampStepCounts(st: Finder, isbn: string, converted: Option<string>)
    requires Wf(st)
    ensures var r := StampStep(st, isbn, converted);
      && r.lookup == st.lookup && r.requests == st.requests
      && (st.lookup == [] || converted.Some? ==> r.found == st.found + st.lookup && r.errors == st.errors)
      && (st.lookup != [] && converted.None? ==> r.found == st.found && r.errors == st.errors + 1)
  {
  }

  /** Every answer of `ans` has the shape the loop model needs. */
  ghost predicate Shaped(ans: string -> Answers)
  {
    forall isbn :: AnswersShape(ans(isbn))
  }

  /** One pass of the ISBN loop, `ans` giving the sources' answers and
      `convert` being `pyisbn.convert`. */
  function IsbnStep(st: Finder, raw: string, direct: bool, ans: string -> Answers, convert: string -> Option<string>): (r: Finder)
    requires Wf(st) && Shaped(ans)
    ensures Wf(r)
  {
    var isbn := Strip(raw);
    StampStep(Consult(st, isbn, direct, ans(isbn)), isbn, convert(isbn))
  }

  /** `found_books += self.lookup_by_title()`: the title lookup with the client's own title. */
  function Initial(svc: Services, bookTitle: string): (r: Finder)
    requires ServicesShape(svc)
    ensures Wf(r) && r.lookup == [] && r.errors == 0
  {
    var hits := TitleHits(svc, bookTitle);
    Finder(hits, Range(0, |hits|), [], 0, QueryRequests(SearchQuery(None, Some(bookTitle), svc.quotePlus)))
  }

  /** The requests sent for one ISBN, read off the conditions of the
      fallback chain: Google Books; then Amazon when nothing was gathered and
      Google Books found nothing; then, unless direct search is on, the
      related ISBNs when Amazon found nothing; then the title by ISBN and a
      title search when the related ISBNs found nothing either. */
  function Asked(st: Finder, isbn: string, direct: bool, a: Answers): seq<Request>
  {
    if st.lookup != [] || a.google != [] then a.googleAsked
    else if direct || a.amazon != [] then a.googleAsked + [AmazonItem(isbn)]
    else if a.related != [] then a.googleAsked + [AmazonItem(isbn), RelatedIsbns(isbn)]
    else a.googleAsked + [AmazonItem(isbn), RelatedIsbns(isbn), TitleByIsbn(isbn)] + a.titleAsked
  }

  /** The fallback chain sends exactly the requests `Asked` lists. */
  lemma ConsultAsks(st: Finder, isbn: string, direct: bool, a: Answers)
    requires Wf(st) && AnswersShape(a)
    ensures Consult(st, isbn, direct, a).requests == st.requests + Asked(st, isbn, direct, a)
  {
    var g := a.googleAsked;
    var s1 := GoogleStep(st, a);
    assert s1.lookup == [] <==> st.lookup == [] && a.google == [];
    if s1.lookup == [] {
      var s2 := AmazonStep(s1, isbn, a);
      assert s2.requests == st.requests + (g + [AmazonItem(isbn)]);
      if !direct && s2.lookup == [] {
        var s3 := RelatedStep(s2, isbn, a);
        var before := g + [AmazonItem(isbn), RelatedIsbns(isbn)];
        assert s3.requests == st.requests + before;
        if s3.lookup == [] {
          AppendAssoc(st.requests, before, [TitleByIsbn(isbn)]);
          AppendAssoc(st.requests, before + [TitleByIsbn(isbn)], a.titleAsked);
          assert before + [TitleByIsbn(isbn)] == g + [AmazonItem(isbn), RelatedIsbns(isbn), TitleByIsbn(isbn)];
        }
      }
    }
  }

  /** The fallback order: Google Books is always asked first; Amazon is
      asked only when nothing has been gathered yet and Google Books found
      nothing; the related ISBNs only when, in addition, direct search is off
      and Amazon found nothing; the title by ISBN only when the related ISBNs
      found nothing too. */
  lemma FallbackOrder(st: Finder, isbn: string, direct: bool, a: Answers)
    requires AnswersShape(a)
    ensures var asked := Asked(st, isbn, direct, a);
      && a.googleAsked <= asked
      && (AmazonItem(isbn) in asked <==> st.lookup == [] && a.google == [])
      && (RelatedIsbns(isbn) in asked <==> !direct && st.lookup == [] && a.google == [] && a.amazon == [])
      && (TitleByIsbn(isbn) in asked <==>
            !direct && st.lookup == [] && a.google == [] && a.amazon == [] && a.related == [])
  {
    assert AmazonItem(isbn) !in a.googleAsked && RelatedIsbns(isbn) !in a.googleAsked && TitleByIsbn(isbn) !in a.googleAsked;
    assert AmazonItem(isbn) !in a.titleAsked && RelatedIsbns(isbn) !in a.titleAsked && TitleByIsbn(isbn) !in a.titleAsked;
  }

  lemma AppendAssoc<T>(a: seq<T>, b: seq<T>, c: seq<T>)
    ensures (a + b) + c == a + (b + c)
  {
  }

  /** `lookup_results` is never reset: what was gathered for earlier ISBNs
      stays at its head, and once it holds anything, later ISBNs only ever
      ask Google Books. The books made so far and `found_books` are left
      alone. */
  lemma LookupNeverReset(st: Finder, isbn: string, direct: bool, a: Answers)
    requires Wf(st) && AnswersShape(a)
    ensures var r := Consult(st, isbn, direct, a);
      && st.lookup <= r.lookup && st.pool <= r.pool
      && r.found == st.found && r.errors == st.errors
      && (st.lookup != [] ==> r.requests == st.requests + a.googleAsked)
  {
    var s1 := GoogleStep(st, a);
    assert st.lookup <= s1.lookup && st.pool <= s1.pool;
    if s1.lookup == [] {
      var s2 := AmazonStep(s1, isbn, a);
      assert s1.pool <= s2.pool;
      if !direct && s2.lookup == [] {
        var s3 := RelatedStep(s2, isbn, a);
        assert s2.pool <= s3.pool;
        if s3.lookup == [] {
          assert s3.pool <= TitleStep(s3, isbn, a).pool;
        }
      }
    }
  }

  /** The state after the ISBN loop has run over `isbns`, from `init`. */
  function AfterIsbns(isbns: seq<string>, direct: bool, ans: string -> Answers, convert: string -> Option<string>, init: Finder): (r: Finder)
    requires Shaped(ans) && Wf(init)
    ensures Wf(r)
  {
    if isbns == [] then init
    else IsbnStep(AfterIsbns(isbns[..|isbns| - 1], direct, ans, convert, init), isbns[|isbns| - 1], direct, ans, convert)
  }

  lemma AfterIsbnsStep(isbns: seq<string>, n: nat, direct: bool, ans: string -> Answers, convert: string -> Option<string>, init: Finder)
    requires Shaped(ans) && Wf(init) && n < |isbns|
    ensures AfterIsbns(isbns[..n + 1], direct, ans, convert, init)
      == IsbnStep(AfterIsbns(isbns[..n], direct, ans, convert, init), isbns[n], direct, ans, convert)
  {
    assert isbns[..n + 1][..n] == isbns[..n];
  }

  /** When `pyisbn.convert` succeeds, every book in `lookup_results` is
      stamped with this ISBN (as ISBN-13 when it has 13 characters, as ISBN-10
      otherwise) and added to `found_books`; nothing else changes. When it
      raises, only the first book gets the first assignment, nothing is added
      to `found_books` and the error is counted. */
  lemma StampStepEffect(st: Finder, isbn: string, converted: Option<string>)
    requires Wf(st)
    ensures var r := StampStep(st, isbn, converted);
      && |r.pool| == |st.pool|
      && (converted.Some? ==>
            && r.found == st.found + st.lookup && r.errors == st.errors
            && (forall k :: k in st.lookup ==>
                  r.pool[k] == Stamped(st.pool[k], isbn, converted.value)
                  && (if |isbn| == 13 then r.pool[k].isbn13 == Some(isbn) else r.pool[k].isbn10 == Some(isbn)))
            && (forall k :: 0 <= k < |st.pool| && k !in st.lookup ==> r.pool[k] == st.pool[k]))
      && (converted.None? && st.lookup != [] ==>
            && r.found == st.found && r.errors == st.errors + 1
            && r.pool == st.pool[st.lookup[0] := HalfStamped(st.pool[st.lookup[0]], isbn)])
  {
  }

  /** Because `lookup_results` is not reset, a book gathered for an earlier
      ISBN is stamped again with every later ISBN whose conversion succeeds:
      it ends up carrying the later ISBN, not the one it was found for. */
  lemma EarlierBooksRestamped(st: Finder, raw: string, direct: bool, ans: string -> Answers, convert: string -> Option<string>, i: nat)
    requires Wf(st) && Shaped(ans)
    requires i < |st.lookup| && convert(Strip(raw)).Some?
    ensures var isbn := Strip(raw);
      var r := IsbnStep(st, raw, direct, ans, convert);
      var k := st.lookup[i];
      && k < |r.pool|
      && r.pool[k] == Stamped(st.pool[k], isbn, convert(isbn).value)
      && k in r.found
  {
    var isbn := Strip(raw);
    var k := st.lookup[i];
    var c := Consult(st, isbn, direct, ans(isbn));
    LookupNeverReset(st, isbn, direct, ans(isbn));
    assert c.lookup[i] == k;
    assert c.pool[k] == st.pool[k];
    StampStepEffect(c, isbn, convert(isbn));
  }

  // =====================================================================
  // The imperative client

  /** The books as values, position by position. */
  function Datas(books: seq<Book>): (r: seq<BookData>)
    reads books
    ensures |r| == |books| && forall i :: 0 <= i < |books| ==> r[i] == books[i].Data()
  {
    if books == [] then [] else Datas(books[..|books| - 1]) + [books[|books| - 1].Data()]
  }

  predicate Distinct(books: seq<Book>)
  {
    forall i, j :: 0 <= i < j < |books| ==> books[i] != books[j]
  }

  /** `objs[i]` is the book at position `i` of the pool. */
  ghost predicate Tracks(objs: seq<Book>, pool: seq<BookData>)
    reads objs
  {
    |objs| == |pool| && Distinct(objs) && forall i :: 0 <= i < |objs| ==> objs[i].Data() == pool[i]
  }

  /** The books at the given positions. */
  function Pick(objs: seq<Book>, idxs: seq<nat>): (r: seq<Book>)
    requires InBounds(idxs, |objs|)
    ensures |r| == |idxs| && forall i :: 0 <= i < |idxs| ==> r[i] == objs[idxs[i]]
  {
    seq(|idxs|, i requires 0 <= i < |idxs| => objs[idxs[i]])
  }

  /** `b.title` ordering (`sorted(..., key=lambda b: b.title)`). */
  predicate TitleLe(a: Book, b: Book)
    reads a, b
    requires a.title.Some? && b.title.Some?
  {
    StrLe(a.title.value, b.title.value)
  }

  /** `sorted(set(books), key=lambda b: b.title)`: each book once, by title. */
  method SortedByTitle(books: seq<Book>) returns (sorted: seq<Book>)
    requires forall b :: b in books ==> b.title.Some?
    ensures forall b :: b in sorted <==> b in books
    ensures Distinct(sorted)
    ensures forall i :: 0 <= i < |sorted| ==> sorted[i].title.Some?
    ensures forall i, j :: 0 <= i < j < |sorted| ==> TitleLe(sorted[i], sorted[j])
  {
    sorted := [];
    for k := 0 to |books|
      invariant forall b :: b in sorted <==> b in books[..k]
      invariant forall i :: 0 <= i < |sorted| ==> sorted[i].title.Some?
      invariant Distinct(sorted)
      invariant forall i, j :: 0 <= i < j < |sorted| ==> TitleLe(sorted[i], sorted[j])
    {
      var b := books[k];
      if b !in sorted {
        var p := 0;
        while p < |sorted| && StrLe(sorted[p].title.value, b.title.value)
          invariant 0 <= p <= |sorted|
          invariant forall i :: 0 <= i < p ==> TitleLe(sorted[i], b)
        {
          p := p + 1;
        }
        if p < |sorted| {
          StrLeTotal(sorted[p].title.value, b.title.value);
          forall i | p <= i < |sorted| ensures TitleLe(b, sorted[i]) {
            if i > p {
              StrLeTransitive(b.title.value, sorted[p].title.value, sorted[i].title.value);
            }
          }
        }
        sorted := sorted[..p] + [b] + sorted[p..];
      }
      assert books[..k + 1] == books[..k] + [b];
    }
    assert books[..|books|] == books;
  }

  /** The client of the book-information services (`APIClient`). */
  class APIClient {
    const isbns: seq<string>
    const bookTitle: string
    const services: Services
    /** The requests sent so far. */
    ghost var requests: seq<Request>

    /** `APIClient(isbn_list, book_title)`; the API keys are part of `services`. */
    constructor (isbnList: Option<seq<string>>, bookTitle: Option<string>, services: Services)
      ensures isbns == (if isbnList.Some? then isbnList.value else [])
      ensures this.bookTitle == (if bookTitle.Some? then Strip(bookTitle.value) else "")
      ensures this.services == services && requests == []
    {
      isbns := if isbnList.Some? then isbnList.value else [];
      this.bookTitle := if bookTitle.Some? then Strip(bookTitle.value) else "";
      this.services := services;
      requests := [];
    }

    /** `search_google_books(isbn, title)` */
    method SearchGoogleBooks(isbn: Option<string>, title: Option<string>) returns (foundBooks: seq<Book>)
      requires ServicesShape(services)
      modifies this
      ensures requests == old(requests) + QueryRequests(SearchQuery(isbn, title, services.quotePlus))
      ensures forall b :: b in foundBooks ==> fresh(b)
      ensures Distinct(foundBooks)
      ensures Datas(foundBooks) == GoogleHits(services, SearchQuery(isbn, title, services.quotePlus))
    {
      var searchQuery := SearchQuery(isbn, title, services.quotePlus);
      if searchQuery == "" {
        return [];
      }
      requests := requests + [GoogleVolumes(searchQuery)];
      var searchResult := services.google(searchQuery);
      if !searchResult.ok {
        return [];
      }
      if searchResult.body.fields["totalItems"].n <= 0 || "items" !in searchResult.body.fields {
        return [];
      }
      var items := searchResult.body.fields["items"].items;
      assert items == ResponseItems(searchResult);
      foundBooks := BuildHits(items);
    }

    /** `lookup_by_title(title)` */
    method LookupByTitle(title: Option<string>) returns (results: seq<Book>)
      requires ServicesShape(services)
      modifies this
      ensures requests == old(requests)
        + QueryRequests(SearchQuery(None, Some(TitleTarget(title, bookTitle)), services.quotePlus))
      ensures forall b :: b in results ==> fresh(b)
      ensures Distinct(results)
      ensures Datas(results) == TitleHits(services, TitleTarget(title, bookTitle))
    {
      var t := if title.None? || title.value == "" then bookTitle else title.value;
      results := SearchGoogleBooks(None, Some(t));
      ghost var searched := results;
      ghost var bad := MismatchFlags(Datas(searched), t, services.isWordOrSpace);
      results := DropMismatches(results, t, services.isWordOrSpace);
      assert t == TitleTarget(title, bookTitle);
      assert Datas(searched) == GoogleHits(services, SearchQuery(None, Some(t), services.quotePlus));
      EnumDeleteKeeps(searched, bad);
      EnumDeleteKeeps(Datas(searched), bad);
      DatasKeepWhere(searched, Deleted(bad, false));
      assert results == KeepWhere(searched, Deleted(bad, false));
    }

    /** `search_amazon(isbn)`: the books the Amazon service gives. */
    method SearchAmazon(isbn: string) returns (foundBooks: seq<Book>)
      modifies this
      ensures requests == old(requests) + [AmazonItem(isbn)]
      ensures forall b :: b in foundBooks ==> fresh(b)
      ensures Distinct(foundBooks)
      ensures Datas(foundBooks) == services.amazon(isbn)
    {
      requests := requests + [AmazonItem(isbn)];
      foundBooks := MakeBooks(services.amazon(isbn));
    }

    /** `lookup_by_related_isbn(isbn)`: the books the related-ISBN services give. */
    method LookupByRelatedIsbn(isbn: string) returns (foundBooks: seq<Book>)
      modifies this
      ensures requests == old(requests) + [RelatedIsbns(isbn)]
      ensures forall b :: b in foundBooks ==> fresh(b)
      ensures Distinct(foundBooks)
      ensures Datas(foundBooks) == services.related(isbn)
    {
      requests := requests + [RelatedIsbns(isbn)];
      foundBooks := MakeBooks(services.related(isbn));
    }

    /** `lookup_title(isbn)`: the title the eBay service gives, if any. */
    method LookupTitle(isbn: string) returns (title: Option<string>)
      modifies this
      ensures requests == old(requests) + [TitleByIsbn(isbn)]
      ensures title == services.titleOf(isbn)
    {
      requests := requests + [TitleByIsbn(isbn)];
      title := services.titleOf(isbn);
    }

    /** `find_books(direct_search_only)`. Besides the books it returns, the
        model gives every book made during the call (`objs`) and the state
        of the pool model (`model`) they track. */
    method FindBooks(directSearchOnly: bool, ghost ans: string -> Answers)
      returns (foundBooks: seq<Book>, ghost objs: seq<Book>, ghost model: Finder)
      requires ServicesShape(services) && AnswersOf(ans, services, bookTitle)
      modifies this
      ensures model == AfterIsbns(isbns, directSearchOnly, ans, services.convert, Initial(services, bookTitle))
      ensures requests == old(requests) + model.requests
      ensures Tracks(objs, model.pool)
      ensures forall b :: b in foundBooks <==> b in Pick(objs, model.found)
      ensures Distinct(foundBooks)
      ensures forall i :: 0 <= i < |foundBooks| ==> foundBooks[i].title.Some?
      ensures forall i, j :: 0 <= i < j < |foundBooks| ==> TitleLe(foundBooks[i], foundBooks[j])
    {
      var found;
      found, model := LookupOwnTitle();
      objs := found;
      found, objs, model := RunIsbns(directSearchOnly, found, objs, model, old(requests), ans);
      MirrorsTitled(found, Pick(objs, model.lookup), objs, model);
      foundBooks := SortedByTitle(found);
    }

    /** The first step of `find_books`: `self.lookup_by_title()`, which
        searches the client's own title. */
    method LookupOwnTitle() returns (found: seq<Book>, ghost st: Finder)
      requires ServicesShape(services)
      modifies this
      ensures st == Initial(services, bookTitle) && requests == old(requests) + st.requests
      ensures Mirrors(found, [], found, st)
      ensures forall b :: b in found ==> fresh(b)
    {
      found := LookupByTitle(None);
      st := Initial(services, bookTitle);
      MirrorsInitial(found, st);
    }

    /** The ISBN loop of `find_books`, from the state the first title lookup
        left; `lookup_results` starts empty and is never reset. */
    method RunIsbns(direct: bool, found: seq<Book>, ghost objs: seq<Book>, ghost st: Finder, ghost base: seq<Request>,
                    ghost ans: string -> Answers)
      returns (found': seq<Book>, ghost objs': seq<Book>, ghost st': Finder)
      requires ServicesShape(services) && AnswersOf(ans, services, bookTitle)
      requires Mirrors(found, [], objs, st) && st.lookup == [] && st.errors == 0 && requests == base + st.requests
      modifies this
      ensures st' == AfterIsbns(isbns, direct, ans, services.convert, st)
      ensures requests == base + st'.requests && Tracks(objs', st'.pool)
      ensures Mirrors(found', Pick(objs', st'.lookup), objs', st')
    {
      found', objs', st' := found, objs, st;
      var lookupResults: seq<Book> := [];
      var errors := 0;
      assert isbns[..0] == [];
      for n := 0 to |isbns|
        invariant st' == AfterIsbns(isbns[..n], direct, ans, services.convert, st)
        invariant Mirrors(found', lookupResults, objs', st')
        invariant requests == base + st'.requests && errors == st'.errors
        invariant forall b :: b in lookupResults ==> fresh(b)
      {
        found', lookupResults, errors, objs', st' :=
          NextIsbn(n, direct, found', lookupResults, errors, objs', st', base, ans, st);
      }
      assert isbns[..|isbns|] == isbns;
    }

    /** The ISBN loop of `find_books` after `isbns[n]`. */
    method NextIsbn(n: nat, direct: bool, found: seq<Book>, lookupResults: seq<Book>, errors: nat,
                    ghost objs: seq<Book>, ghost st: Finder, ghost base: seq<Request>, ghost ans: string -> Answers, ghost init: Finder)
      returns (found': seq<Book>, lookup': seq<Book>, errors': nat, ghost objs': seq<Book>, ghost st': Finder)
      requires ServicesShape(services) && AnswersOf(ans, services, bookTitle) && Wf(init) && n < |isbns|
      requires st == AfterIsbns(isbns[..n], direct, ans, services.convert, init)
      requires Mirrors(found, lookupResults, objs, st) && requests == base + st.requests && errors == st.errors
      modifies this, set b | b in lookupResults
      ensures st' == AfterIsbns(isbns[..n + 1], direct, ans, services.convert, init)
      ensures Mirrors(found', lookup', objs', st') && requests == base + st'.requests && errors' == st'.errors
      ensures forall b :: b in lookup' ==> b in lookupResults || fresh(b)
    {
      AfterIsbnsStep(isbns, n, direct, ans, services.convert, init);
      found', lookup', errors', objs', st' :=
        ProcessIsbn(isbns[n], direct, found, lookupResults, errors, objs, st, base, ans);
    }

    /** One pass of the ISBN loop of `find_books`: strip the ISBN, run the
        fallback chain, stamp what `lookup_results` holds and either add it
        to `found_books` or count the error. */
    method ProcessIsbn(raw: string, direct: bool, found: seq<Book>, lookupResults: seq<Book>, errors: nat,
                       ghost objs: seq<Book>, ghost st: Finder, ghost base: seq<Request>, ghost ans: string -> Answers)
      returns (found': seq<Book>, lookup': seq<Book>, errors': nat, ghost objs': seq<Book>, ghost st': Finder)
      requires ServicesShape(services) && AnswersOf(ans, services, bookTitle) && Mirrors(found, lookupResults, objs, st)
      requires requests == base + st.requests && errors == st.errors
      modifies this, set b | b in lookupResults
      ensures st' == IsbnStep(st, raw, direct, ans, services.convert)
      ensures requests == base + st'.requests && errors' == st'.errors
      ensures Mirrors(found', lookup', objs', st') && objs <= objs'
      ensures forall b :: b in lookup' ==> b in lookupResults || fresh(b)
    {
      var isbn := Strip(raw);
      ghost var consulted: Finder;
      lookup', objs', consulted := ConsultSources(isbn, direct, found, lookupResults, objs, st, base, ans);
      LookupNeverReset(st, isbn, direct, ans(isbn));
      found', errors', st' := StampLookup(isbn, found, lookup', errors, objs', consulted);
    }

    /** The end of one pass of the ISBN loop: stamp the books of
        `lookup_results`, then add them to `found_books`, or count the error
        when `pyisbn.convert` raised. */
    method StampLookup(isbn: string, found: seq<Book>, lookupResults: seq<Book>, errors: nat,
                       ghost objs: seq<Book>, ghost st: Finder)
      returns (found': seq<Book>, errors': nat, ghost st': Finder)
      requires Mirrors(found, lookupResults, objs, st) && errors == st.errors
      modifies set b | b in lookupResults
      ensures st' == StampStep(st, isbn, services.convert(isbn))
      ensures Mirrors(found', lookupResults, objs, st') && errors' == st'.errors && st'.requests == st.requests
    {
      var converted := StampResults(isbn, lookupResults, objs, st.pool, st.lookup);
      st' := StampStep(st, isbn, services.convert(isbn));
      StampStepCounts(st, isbn, services.convert(isbn));
      MirrorsStamp(found, lookupResults, objs, st, isbn, services.convert(isbn));
      if converted {
        found' := found + lookupResults;
        errors' := errors;
      } else {
        found' := found;
        errors' := errors + 1;
      }
    }

    /** The fallback chain of `find_books` for one stripped ISBN, adding to
        `lookup_results`. */
    method ConsultSources(isbn: string, direct: bool, found: seq<Book>, lookupResults: seq<Book>,
                          ghost objs: seq<Book>, ghost st: Finder, ghost base: seq<Request>, ghost ans: string -> Answers)
      returns (lookup: seq<Book>, ghost objs': seq<Book>, ghost st': Finder)
      requires ServicesShape(services) && Mirrors(found, lookupResults, objs, st) && requests == base + st.requests
      requires AnswersOf(ans, services, bookTitle)
      modifies this
      ensures st' == Consult(st, isbn, direct, ans(isbn)) && requests == base + st'.requests
      ensures Mirrors(found, lookup, objs', st') && objs <= objs'
      ensures forall b :: b in lookup ==> b in lookupResults || fresh(b)
    {
      lookup, objs', st' := AskGoogle(isbn, found, lookupResults, objs, st, base, ans);
      if lookup == [] {
        lookup, objs', st' := AskAmazon(isbn, found, lookup, objs', st', base, ans);
      }
      if !direct && lookup == [] {
        lookup, objs', st' := AskFurther(isbn, found, lookup, objs', st', base, ans);
      }
    }

    /** The related-ISBN lookup and then, if that finds nothing, the title lookup. */
    method AskFurther(isbn: string, found: seq<Book>, lookupResults: seq<Book>,
                      ghost objs: seq<Book>, ghost st: Finder, ghost base: seq<Request>, ghost ans: string -> Answers)
      returns (lookup: seq<Book>, ghost objs': seq<Book>, ghost st': Finder)
      requires ServicesShape(services) && Mirrors(found, lookupResults, objs, st) && requests == base + st.requests
      requires AnswersOf(ans, services, bookTitle)
      modifies this
      ensures st' == Further(st, isbn, ans(isbn)) && requests == base + st'.requests
      ensures Mirrors(found, lookup, objs', st') && objs <= objs'
      ensures forall b :: b in lookup ==> b in lookupResults || fresh(b)
    {
      lookup, objs', st' := AskRelated(isbn, found, lookupResults, objs, st, base, ans);
      if lookup == [] {
        lookup, objs', st' := AskByTitle(isbn, found, lookup, objs', st', base, ans);
      }
    }

    /** `self.search_google_books(isbn, None)`, answered as the oracle says. */
    method FetchByIsbn(isbn: string, ghost ans: string -> Answers) returns (books: seq<Book>)
      requires ServicesShape(services) && AnswersOf(ans, services, bookTitle)
      modifies this
      ensures requests == old(requests) + ans(isbn).googleAsked
      ensures forall b :: b in books ==> fresh(b)
      ensures Distinct(books) && Datas(books) == ans(isbn).google
    {
      GooglePart(ans, services, isbn, bookTitle);
      books := SearchGoogleBooks(Some(isbn), None);
    }

    /** `self.lookup_by_title(self.lookup_title(isbn))`, answered as the oracle says. */
    method FetchByTitleOf(isbn: string, ghost ans: string -> Answers) returns (books: seq<Book>)
      requires ServicesShape(services) && AnswersOf(ans, services, bookTitle)
      modifies this
      ensures requests == old(requests) + ([TitleByIsbn(isbn)] + ans(isbn).titleAsked)
      ensures forall b :: b in books ==> fresh(b)
      ensures Distinct(books) && Datas(books) == ans(isbn).byTitle
    {
      TitlePart(ans, services, isbn, bookTitle);
      books := TitleLookup(isbn);
    }

    /** `self.lookup_by_title(self.lookup_title(isbn))` */
    method TitleLookup(isbn: string) returns (books: seq<Book>)
      requires ServicesShape(services)
      modifies this
      ensures var t := TitleTarget(services.titleOf(isbn), bookTitle);
        && requests == old(requests) + ([TitleByIsbn(isbn)] + QueryRequests(SearchQuery(None, Some(t), services.quotePlus)))
        && Datas(books) == TitleHits(services, t)
      ensures forall b :: b in books ==> fresh(b)
      ensures Distinct(books)
    {
      var title := LookupTitle(isbn);
      books := LookupByTitle(title);
    }

    /** `lookup_results += self.search_google_books(isbn, None)` */
    method AskGoogle(isbn: string, found: seq<Book>, lookupResults: seq<Book>,
                     ghost objs: seq<Book>, ghost st: Finder, ghost base: seq<Request>, ghost ans: string -> Answers)
      returns (lookup: seq<Book>, ghost objs': seq<Book>, ghost st': Finder)
      requires ServicesShape(services) && Mirrors(found, lookupResults, objs, st) && requests == base + st.requests
      requires AnswersOf(ans, services, bookTitle)
      modifies this
      ensures st' == GoogleStep(st, ans(isbn)) && requests == base + st'.requests
      ensures Mirrors(found, lookup, objs', st') && objs <= objs'
      ensures forall b :: b in lookup ==> b in lookupResults || fresh(b)
    {
      var books := FetchByIsbn(isbn, ans);
      MirrorsGather(found, lookupResults, objs, st.(requests := st.requests + ans(isbn).googleAsked), books, ans(isbn).google);
      lookup := lookupResults + books;
      objs' := objs + books;
      st' := GoogleStep(st, ans(isbn));
    }

    /** `lookup_results += self.search_amazon(isbn)` */
    method AskAmazon(isbn: string, found: seq<Book>, lookupResults: seq<Book>,
                     ghost objs: seq<Book>, ghost st: Finder, ghost base: seq<Request>, ghost ans: string -> Answers)
      returns (lookup: seq<Book>, ghost objs': seq<Book>, ghost st': Finder)
      requires ServicesShape(services) && Mirrors(found, lookupResults, objs, st) && requests == base + st.requests
      requires AnswersOf(ans, services, bookTitle)
      modifies this
      ensures st' == AmazonStep(st, isbn, ans(isbn)) && requests == base + st'.requests
      ensures Mirrors(found, lookup, objs', st') && objs <= objs'
      ensures forall b :: b in lookup ==> b in lookupResults || fresh(b)
    {
      AmazonPart(ans, services, isbn, bookTitle);
      var books := SearchAmazon(isbn);
      MirrorsGather(found, lookupResults, objs, st.(requests := st.requests + [AmazonItem(isbn)]), books, ans(isbn).amazon);
      lookup := lookupResults + books;
      objs' := objs + books;
      st' := AmazonStep(st, isbn, ans(isbn));
    }

    /** `lookup_results += self.lookup_by_related_isbn(isbn)` */
    method AskRelated(isbn: string, found: seq<Book>, lookupResults: seq<Book>,
                      ghost objs: seq<Book>, ghost st: Finder, ghost base: seq<Request>, ghost ans: string -> Answers)
      returns (lookup: seq<Book>, ghost objs': seq<Book>, ghost st': Finder)
      requires ServicesShape(services) && Mirrors(found, lookupResults, objs, st) && requests == base + st.requests
      requires AnswersOf(ans, services, bookTitle)
      modifies this
      ensures st' == RelatedStep(st, isbn, ans(isbn)) && requests == base + st'.requests
      ensures Mirrors(found, lookup, objs', st') && objs <= objs'
      ensures forall b :: b in lookup ==> b in lookupResults || fresh(b)
    {
      RelatedPart(ans, services, isbn, bookTitle);
      var books := LookupByRelatedIsbn(isbn);
      MirrorsGather(found, lookupResults, objs, st.(requests := st.requests + [RelatedIsbns(isbn)]), books, ans(isbn).related);
      lookup := lookupResults + books;
      objs' := objs + books;
      st' := RelatedStep(st, isbn, ans(isbn));
    }

    /** `lookup_results = self.lookup_by_title(self.lookup_title(isbn))` */
    method AskByTitle(isbn: string, found: seq<Book>, lookupResults: seq<Book>,
                      ghost objs: seq<Book>, ghost st: Finder, ghost base: seq<Request>, ghost ans: string -> Answers)
      returns (lookup: seq<Book>, ghost objs': seq<Book>, ghost st': Finder)
      requires ServicesShape(services) && Mirrors(found, lookupResults, objs, st) && requests == base + st.requests
      requires AnswersOf(ans, services, bookTitle)
      modifies this
      ensures st' == TitleStep(st, isbn, ans(isbn)) && requests == base + st'.requests
      ensures Mirrors(found, lookup, objs', st') && objs <= objs'
      ensures forall b :: b in lookup ==> b in lookupResults || fresh(b)
    {
      var books := FetchByTitleOf(isbn, ans);
      AppendAssoc(base, st.requests, [TitleByIsbn(isbn)] + ans(isbn).titleAsked);
      AppendAssoc(st.requests, [TitleByIsbn(isbn)], ans(isbn).titleAsked);
      MirrorsReplace(found, lookupResults, objs, st.(requests := st.requests + [TitleByIsbn(isbn)] + ans(isbn).titleAsked), books, ans(isbn).byTitle);
      lookup := books;
      objs' := objs + books;
      st' := TitleStep(st, isbn, ans(isbn));
    }

    /** The stamping loop of `find_books`: every book in `lookup_results`
        gets the ISBN and its conversion; `converted` is false when
        `pyisbn.convert` raised, which stops the loop after the first
        assignment to the first book. */
    method StampResults(isbn: string, lookupResults: seq<Book>, ghost objs: seq<Book>, ghost pool: seq<BookData>, ghost lookup: seq<nat>)
      returns (converted: bool)
      requires Tracks(objs, pool) && InBounds(lookup, |pool|) && lookupResults == Pick(objs, lookup)
      modifies set b | b in lookupResults
      ensures Tracks(objs, StampedPool(pool, lookup, isbn, services.convert(isbn)))
      ensures converted <==> lookup == [] || services.convert(isbn).Some?
    {
      for i := 0 to |lookupResults|
        invariant Tracks(objs, StampedPool(pool, lookup[..i], isbn, services.convert(isbn)))
        invariant i > 0 ==> services.convert(isbn).Some?
      {
        ghost var cur := StampedPool(pool, lookup[..i], isbn, services.convert(isbn));
        var ok := StampBook(lookupResults[i], isbn, services.convert(isbn), objs, cur, lookup[i]);
        if !ok {
          assert lookup[..0] == [];
          return false;
        }
        StampedPoolSnoc(pool, lookup, i, isbn, services.convert(isbn).value);
      }
      assert lookup[..|lookup|] == lookup;
      return true;
    }
  }

  /** The stamping of one book: the ISBN goes into the field its length
      selects, then the conversion into the other one; `ok` is false when
      `pyisbn.convert` raised, after the first assignment. */
  method StampBook(book: Book, isbn: string, conv: Option<string>, ghost objs: seq<Book>, ghost cur: seq<BookData>, ghost idx: nat)
    returns (ok: bool)
    requires Tracks(objs, cur) && idx < |objs| && objs[idx] == book
    modifies book
    ensures ok == conv.Some?
    ensures Tracks(objs, cur[idx := if ok then Stamped(cur[idx], isbn, conv.value) else HalfStamped(cur[idx], isbn)])
  {
    if |isbn| == 13 {
      book.isbn13 := Some(isbn);
      if conv.None? {
        return false;
      }
      book.isbn10 := conv;
    } else {
      book.isbn10 := Some(isbn);
      if conv.None? {
        return false;
      }
      book.isbn13 := conv;
    }
    return true;
  }

  /** Stamping one more position of `lookup_results`. */
  lemma StampedPoolSnoc(pool: seq<BookData>, lookup: seq<nat>, i: nat, isbn: string, converted: string)
    requires InBounds(lookup, |pool|) && i < |lookup|
    ensures InBounds(lookup[..i], |pool|) && InBounds(lookup[..i + 1], |pool|)
    ensures StampedPool(pool, lookup[..i + 1], isbn, Some(converted))
      == StampedPool(pool, lookup[..i], isbn, Some(converted))[lookup[i] := Stamped(pool[lookup[i]], isbn, converted)]
  {
  }

  /** The loop of `search_google_books` over the items of a response: a
      new book for each item with "volumeInfo", kept when it has a title. */
  method BuildHits(items: seq<Json>) returns (foundBooks: seq<Book>)
    requires AllItems(items)
    ensures forall b :: b in foundBooks ==> fresh(b)
    ensures Distinct(foundBooks)
    ensures Datas(foundBooks) == Hits(items)
  {
    foundBooks := [];
    for k := 0 to |items|
      invariant fresh(set b | b in foundBooks)
      invariant Distinct(foundBooks)
      invariant Datas(foundBooks) == Hits(items[..k])
    {
      HitsSnoc(items, k);
      foundBooks := AddHit(foundBooks, items, k);
    }
    assert items[..|items|] == items;
  }

  /** One pass of that loop: the book built from the item's "volumeInfo" is
      appended when the item has one and the book has a title. */
  method AddHit(books: seq<Book>, items: seq<Json>, k: nat) returns (books': seq<Book>)
    requires AllItems(items) && k < |items| && Distinct(books)
    ensures Distinct(books') && forall b :: b in books' ==> b in books || fresh(b)
    ensures Datas(books') == Datas(books) + HitOf(items[k])
  {
    var item := items[k];
    books' := books;
    if "volumeInfo" in item.fields {
      var book := BuildBook(item.fields["volumeInfo"]);
      if book.title.Some? && book.title.value != "" {
        AppendBook(books, book);
        books' := books + [book];
      }
    }
  }

  /** The kept books of one more item. */
  lemma HitsSnoc(items: seq<Json>, k: nat)
    requires k < |items|
    ensures Hits(items[..k + 1]) == Hits(items[..k]) + HitOf(items[k])
  {
    assert items[..k + 1][..k] == items[..k];
  }

  /** A book not yet in the list, appended to it. */
  lemma AppendBook(books: seq<Book>, b: Book)
    requires Distinct(books) && b !in books
    ensures Distinct(books + [b])
    ensures Datas(books + [b]) == Datas(books) + [b.Data()]
  {
    assert (books + [b])[..|books|] == books;
  }

  /** The loop of `lookup_by_title` that deletes, while enumerating them,
      the books whose title mismatches `searched`. */
  method DropMismatches(books: seq<Book>, searched: string, isWordOrSpace: char -> bool) returns (results: seq<Book>)
    requires AllHaveTitle(Datas(books)) && Distinct(books)
    ensures results == EnumDelete(books, MismatchFlags(Datas(books), searched, isWordOrSpace))
    ensures Distinct(results) && forall b :: b in results ==> b in books
  {
    ghost var bad := MismatchFlags(Datas(books), searched, isWordOrSpace);
    ScanStarts(books, searched, isWordOrSpace);
    results := DeleteWhileEnumerating(books, bad, searched, isWordOrSpace);
  }

  /** The loop itself, from the state where nothing has been examined. */
  method DeleteWhileEnumerating(books: seq<Book>, ghost bad: seq<bool>, searched: string, isWordOrSpace: char -> bool)
    returns (results: seq<Book>)
    requires Scan(books, bad, books, bad, 0, searched, isWordOrSpace)
    ensures results == EnumDelete(books, bad)
    ensures Distinct(results) && forall b :: b in results ==> b in books
  {
    ghost var flags := bad;
    results := books;
    var i := 0;
    while i < |results|
      invariant Scan(books, bad, results, flags, i, searched, isWordOrSpace)
      decreases |results| + 1 - i
    {
      results, flags := Examine(books, bad, results, flags, i, searched, isWordOrSpace);
      i := i + 1;
    }
    ScanEnds(books, bad, results, flags, i, searched, isWordOrSpace);
  }

  /** One pass of that loop: `del results[i]` when the book at slot `i`
      mismatches. */
  method Examine(books: seq<Book>, ghost bad: seq<bool>, results: seq<Book>, ghost flags: seq<bool>, i: nat,
                 searched: string, isWordOrSpace: char -> bool)
    returns (results': seq<Book>, ghost flags': seq<bool>)
    requires Scan(books, bad, results, flags, i, searched, isWordOrSpace) && i < |results|
    ensures Scan(books, bad, results', flags', i + 1, searched, isWordOrSpace)
    ensures results' == if flags[i] then results[..i] + results[i + 1..] else results
  {
    var book := results[i];
    if TitleMismatch(book.title.value, searched, isWordOrSpace) {
      ScanDeletes(books, bad, results, flags, i, searched, isWordOrSpace);
      results' := results[..i] + results[i + 1..];
      flags' := flags[..i] + flags[i + 1..];
    } else {
      ScanKeeps(books, bad, results, flags, i, searched, isWordOrSpace);
      results', flags' := results, flags;
    }
  }

  /** The state of that loop at slot `i`: `flags` tells which of the
      current `results` mismatch, and what is left at and after slot `i`,
      filtered the way the loop does, gives the final list. */
  ghost predicate Scan(books: seq<Book>, bad: seq<bool>, results: seq<Book>, flags: seq<bool>, i: nat,
                       searched: string, isWordOrSpace: char -> bool)
    reads results
  {
    && |books| == |bad| && |flags| == |results| && i <= |results| + 1
    && Survivors(books, results)
    && Flagged(results, flags, searched, isWordOrSpace)
    && (i <= |results| ==> results[..i] + EnumDelete(results[i..], flags[i..]) == EnumDelete(books, bad))
    && (i == |results| + 1 ==> results == EnumDelete(books, bad))
  }

  /** The books left are distinct books of the input. */
  ghost predicate Survivors(books: seq<Book>, results: seq<Book>)
  {
    (forall b :: b in results ==> b in books) && Distinct(results)
  }

  /** `flags` marks exactly the books whose title mismatches. */
  ghost predicate Flagged(results: seq<Book>, flags: seq<bool>, searched: string, isWordOrSpace: char -> bool)
    reads results
  {
    |flags| == |results| &&
    forall k :: 0 <= k < |results| ==>
      results[k].title.Some? && flags[k] == TitleMismatch(results[k].title.value, searched, isWordOrSpace)
  }

  lemma ScanStarts(books: seq<Book>, searched: string, isWordOrSpace: char -> bool)
    requires AllHaveTitle(Datas(books)) && Distinct(books)
    ensures var bad := MismatchFlags(Datas(books), searched, isWordOrSpace);
      Scan(books, bad, books, bad, 0, searched, isWordOrSpace)
  {
    assert forall k :: 0 <= k < |books| ==> Datas(books)[k] == books[k].Data();
  }

  lemma ScanDeletes(books: seq<Book>, bad: seq<bool>, results: seq<Book>, flags: seq<bool>, i: nat,
                    searched: string, isWordOrSpace: char -> bool)
    requires Scan(books, bad, results, flags, i, searched, isWordOrSpace) && i < |results|
    requires TitleMismatch(results[i].title.value, searched, isWordOrSpace)
    ensures Scan(books, bad, results[..i] + results[i + 1..], flags[..i] + flags[i + 1..], i + 1, searched, isWordOrSpace)
  {
    EnumDeleteSkips(results, flags, i);
    SurvivorsDelete(books, results, i);
    FlaggedDelete(results, flags, i, searched, isWordOrSpace);
  }

  lemma SurvivorsDelete(books: seq<Book>, results: seq<Book>, i: nat)
    requires Survivors(books, results) && i < |results|
    ensures Survivors(books, results[..i] + results[i + 1..])
  {
    DistinctDelete(results, i);
  }

  lemma FlaggedDelete(results: seq<Book>, flags: seq<bool>, i: nat, searched: string, isWordOrSpace: char -> bool)
    requires Flagged(results, flags, searched, isWordOrSpace) && i < |results|
    ensures Flagged(results[..i] + results[i + 1..], flags[..i] + flags[i + 1..], searched, isWordOrSpace)
  {
    DeleteAt(results, i);
    DeleteAt(flags, i);
  }

  lemma ScanKeeps(books: seq<Book>, bad: seq<bool>, results: seq<Book>, flags: seq<bool>, i: nat,
                  searched: string, isWordOrSpace: char -> bool)
    requires Scan(books, bad, results, flags, i, searched, isWordOrSpace) && i < |results|
    requires !TitleMismatch(results[i].title.value, searched, isWordOrSpace)
    ensures Scan(books, bad, results, flags, i + 1, searched, isWordOrSpace)
  {
    EnumDeleteKeepsExamined(results, flags, i);
  }

  lemma ScanEnds(books: seq<Book>, bad: seq<bool>, results: seq<Book>, flags: seq<bool>, i: nat,
                 searched: string, isWordOrSpace: char -> bool)
    requires Scan(books, bad, results, flags, i, searched, isWordOrSpace) && i >= |results|
    ensures results == EnumDelete(books, bad)
    ensures Distinct(results) && forall b :: b in results ==> b in books
  {
    if i <= |results| {
      assert results[i..] == [] && results[..i] == results;
    }
  }

  /** A deletion at the examined slot `i`: the next element moves into that
      slot and is skipped by the loop. */
  lemma EnumDeleteSkips<T>(s: seq<T>, bad: seq<bool>, i: nat)
    requires |s| == |bad| && i < |s| && bad[i]
    ensures var s' := s[..i] + s[i + 1..];
      var bad' := bad[..i] + bad[i + 1..];
      && |s'| == |bad'|
      && (i + 1 <= |s'| ==> s'[..i + 1] + EnumDelete(s'[i + 1..], bad'[i + 1..]) == s[..i] + EnumDelete(s[i..], bad[i..]))
      && (i + 1 > |s'| ==> s' == s[..i] + EnumDelete(s[i..], bad[i..]))
  {
    var s' := s[..i] + s[i + 1..];
    var bad' := bad[..i] + bad[i + 1..];
    if i + 1 < |s| {
      assert s[i..][1..][1..] == s[i + 2..] && bad[i..][1..][1..] == bad[i + 2..];
      assert EnumDelete(s[i..], bad[i..]) == [s[i + 1]] + EnumDelete(s[i + 2..], bad[i + 2..]);
      assert s'[..i + 1] == s[..i] + [s[i + 1]];
      assert s'[i + 1..] == s[i + 2..] && bad'[i + 1..] == bad[i + 2..];
    } else {
      assert s' == s[..i];
    }
  }

  /** An examined element that stays: the loop moves on to the next slot. */
  lemma EnumDeleteKeepsExamined<T>(s: seq<T>, bad: seq<bool>, i: nat)
    requires |s| == |bad| && i < |s| && !bad[i]
    ensures s[..i + 1] + EnumDelete(s[i + 1..], bad[i + 1..]) == s[..i] + EnumDelete(s[i..], bad[i..])
  {
    assert s[i..][1..] == s[i + 1..] && bad[i..][1..] == bad[i + 1..];
    assert s[..i + 1] == s[..i] + [s[i]];
  }

  lemma DeleteAt<T>(s: seq<T>, i: nat)
    requires i < |s|
    ensures |s[..i] + s[i + 1..]| == |s| - 1
    ensures forall k :: 0 <= k < i ==> (s[..i] + s[i + 1..])[k] == s[k]
    ensures forall k :: i < k < |s| ==> (s[..i] + s[i + 1..])[k - 1] == s[k]
  {
  }

  lemma DistinctDelete(books: seq<Book>, i: nat)
    requires Distinct(books) && i < |books|
    ensures Distinct(books[..i] + books[i + 1..])
    ensures forall b :: b in books[..i] + books[i + 1..] ==> b in books
  {
    var r := books[..i] + books[i + 1..];
    assert forall k :: 0 <= k < |r| ==> r[k] == books[if k < i then k else k + 1];
  }

  /** `found_books` and `lookup_results` are the books at the model's
      positions, and `objs[i]` is the book at position `i` of the pool. */
  ghost predicate Mirrors(found: seq<Book>, lookup: seq<Book>, objs: seq<Book>, st: Finder)
    reads objs
  {
    Wf(st) && Tracks(objs, st.pool) && found == Pick(objs, st.found) && lookup == Pick(objs, st.lookup)
  }

  /** The state after the first title lookup. */
  lemma MirrorsInitial(found: seq<Book>, st: Finder)
    requires Wf(st) && Distinct(found) && Datas(found) == st.pool && st.found == Range(0, |st.pool|) && st.lookup == []
    ensures Mirrors(found, [], found, st)
  {
  }

  /** Every book of `found_books` has a title. */
  lemma MirrorsTitled(found: seq<Book>, lookup: seq<Book>, objs: seq<Book>, st: Finder)
    requires Mirrors(found, lookup, objs, st)
    ensures forall b :: b in found ==> b.title.Some?
    ensures forall b :: b in found <==> b in Pick(objs, st.found)
  {
    forall b | b in found ensures b.title.Some? {
      var i :| 0 <= i < |found| && found[i] == b;
      assert b.Data() == st.pool[st.found[i]];
    }
  }

  /** New books appended to `lookup_results` and to the pool. */
  lemma MirrorsGather(found: seq<Book>, lookup: seq<Book>, objs: seq<Book>, st: Finder, books: seq<Book>, ds: seq<BookData>)
    requires Mirrors(found, lookup, objs, st) && AllHaveTitle(ds)
    requires Distinct(books) && Datas(books) == ds && forall b :: b in books ==> b !in objs
    ensures Mirrors(found, lookup + books, objs + books, Gather(st, ds))
  {
    var all := objs + books;
    assert forall i :: |objs| <= i < |all| ==> all[i] == books[i - |objs|] && all[i] in books;
    PickPrefix(objs, all, st.found);
  }

  /** New books replacing `lookup_results`, appended to the pool. */
  lemma MirrorsReplace(found: seq<Book>, lookup: seq<Book>, objs: seq<Book>, st: Finder, books: seq<Book>, ds: seq<BookData>)
    requires Mirrors(found, lookup, objs, st) && AllHaveTitle(ds)
    requires Distinct(books) && Datas(books) == ds && forall b :: b in books ==> b !in objs
    ensures Mirrors(found, books, objs + books, Replace(st, ds))
  {
    var all := objs + books;
    assert forall i :: |objs| <= i < |all| ==> all[i] == books[i - |objs|] && all[i] in books;
    PickPrefix(objs, all, st.found);
  }

  /** After the stamping loop, `found_books` has grown by `lookup_results`
      unless `pyisbn.convert` raised. */
  lemma MirrorsStamp(found: seq<Book>, lookup: seq<Book>, objs: seq<Book>, st: Finder, isbn: string, converted: Option<string>)
    requires Wf(st) && |objs| == |st.pool| && Distinct(objs)
    requires found == Pick(objs, st.found) && lookup == Pick(objs, st.lookup)
    requires Tracks(objs, StampedPool(st.pool, st.lookup, isbn, converted))
    ensures Mirrors(if st.lookup == [] || converted.Some? then found + lookup else found, lookup, objs, StampStep(st, isbn, converted))
  {
    PickAppend(objs, st.found, st.lookup);
  }

  lemma PickPrefix(objs: seq<Book>, objs': seq<Book>, idxs: seq<nat>)
    requires objs <= objs' && InBounds(idxs, |objs|)
    ensures InBounds(idxs, |objs'|) && Pick(objs', idxs) == Pick(objs, idxs)
  {
  }

  lemma PickAppend(objs: seq<Book>, a: seq<nat>, b: seq<nat>)
    requires InBounds(a, |objs|) && InBounds(b, |objs|)
    ensures InBounds(a + b, |objs|) && Pick(objs, a + b) == Pick(objs, a) + Pick(objs, b)
  {
  }

  /** New books holding the given values. */
  method MakeBooks(ds: seq<BookData>) returns (books: seq<Book>)
    ensures forall b :: b in books ==> fresh(b)
    ensures Distinct(books)
    ensures Datas(books) == ds
  {
    books := [];
    for k := 0 to |ds|
      invariant forall b :: b in books ==> fresh(b)
      invariant Distinct(books)
      invariant Datas(books) == ds[..k]
    {
      var book := new Book.FromData(ds[k]);
      books := books + [book];
      assert ds[..k + 1] == ds[..k] + [ds[k]];
    }
    assert ds[..|ds|] == ds;
  }

  lemma {:induction false} DatasKeepWhere(books: seq<Book>, drop: seq<bool>)
    requires |books| == |drop|
    ensures Datas(KeepWhere(books, drop)) == KeepWhere(Datas(books), drop)
  {
    if books != [] {
      var head := if drop[0] then [] else [books[0]];
      var rest := KeepWhere(books[1..], drop[1..]);
      var ds := Datas(books);
      DatasKeepWhere(books[1..], drop[1..]);
      DatasAppend(head, rest);
      assert Datas(head) == if drop[0] then [] else [ds[0]];
      assert ds[1..] == Datas(books[1..]);
      calc {
        Datas(KeepWhere(books, drop));
        Datas(head + rest);
        Datas(head) + Datas(rest);
        Datas(head) + KeepWhere(ds[1..], drop[1..]);
        KeepWhere(ds, drop);
      }
    }
  }

  lemma DatasAppend(a: seq<Book>, b: seq<Book>)
    ensures Datas(a + b) == Datas(a) + Datas(b)
  {
  }
}
