# School library: verified model of the lookup, parsing and request-handling core

This project is a Dafny model of the sequential logic inside the school
library web application (a Flask/SQLAlchemy site where teachers register
books by scanning barcodes, look their details up on Google Books and record
loans to pupils). The model covers:

- **Book-metadata reconciliation** (`utils/apihandler.py`).
  - `build_book` turns a Google Books `volumeInfo` record into a fresh `Book`.
  - `search_google_books` builds the query and keeps only titled items.
  - `lookup_by_title` filters the results by title. It deletes while it
    enumerates, so the element right after a deleted one is never examined;
    the model keeps that quirk.
  - `find_books` runs the fallback chain Google → Amazon → related ISBNs →
    title lookup. `lookup_results` is never reset between ISBNs, so books found
    for an earlier ISBN are stamped again with every later ISBN; the model keeps
    this too (`ApiHandler.EarlierBooksRestamped`).
  - At the end, `find_books` removes repeated objects and sorts by title.
  - Every remote service is a function-valued field of `Services`.
- **JSON path traversal** (`utils/jsonparser.py`): `traverse` and its helpers
  `reduce_list`, `reduce_dict`, `flatten` and `is_valid_index`, over a `Json`
  datatype. Python's `value[int(item)]` also indexes strings, and the model
  does too.
- **Book display helpers** (`models.py`): `get_author_name`,
  `get_category_name` and `get_short_description`.
- **Upload validation and roster import**:
  - `allowed_file` and the check chain of `update_classroom` (`views/users.py`);
  - `upload_to_tmp` (`utils/fileuploader.py`);
  - the CSV row grouping of `update_db`, as a method over `Classroom` objects
    and a database session. The session's pending and committed objects are
    plain fields.
- **Loans** (`views/loans.py`): `record_loan` and `record_return`. Each is a
  chain of validation errors in order, followed by the state change on the
  book, the loan and the session.
- **Redirect selection** (`utils/nav.py`): `redirect_to_previous`, with
  `is_safe_url` stated over abstract `urlparse`/`urljoin` functions.

Code that changes state in the source is imperative here:
- `Book`, `Classroom`, `Loan`, `APIClient` and `Session` are classes.
- `reduce_list`, `reduce_dict`, `flatten`, `traverse`, `build_book`,
  `update_db` and the `find_books` loop are methods with loop invariants.
- Each method is proved against a specification function, and the
  properties are proved as lemmas about that function.

Pure code (`models.py` helpers, `nav.py`, `upload_to_tmp`, `allowed_file`) is
modelled as functions.

Where the documentation and the code disagree, the model follows the code:
- `get_short_description` keeps 150 characters, although its docstring says 50.
- `is_valid_index` uses `re.match` with `$`, which also matches before a
  trailing newline. So `"12\n"` is a valid index (and `int("12\n") == 12`).
  The model accepts it too, and `JsonParser.ValidIndexIsNumeral` states the
  exact set.

## Model

| member | source | states |
|---|---|---|
| Text.StripCutsOnlySpace | schoollibrary/bpslibrary/utils/apihandler.py:109 | `str.strip` removes only leading and trailing whitespace: the result is a contiguous slice with only whitespace around it, and it neither starts nor ends with whitespace |
| Text.BlankIffAllSpace | schoollibrary/bpslibrary/models.py:199 | a string strips to "" exactly when it is all whitespace |
| Text.TrimStartShape | schoollibrary/bpslibrary/utils/apihandler.py:109 | `lstrip` drops a prefix of whitespace only and leaves a string that is empty or starts with a non-space |
| Text.TrimEndShape | schoollibrary/bpslibrary/utils/apihandler.py:109 | `rstrip` drops a suffix of whitespace only and leaves a string that is empty or ends with a non-space |
| Text.SplitJoin | schoollibrary/bpslibrary/utils/jsonparser.py:56 | joining `path.split('.')` with '.' gives the path back, and no piece contains '.' |
| Text.ExtensionUnique | schoollibrary/bpslibrary/views/users.py:39 | `rsplit('.', 1)[1]` is the part after the last dot: for `p + "." + e` with no dot in `e`, it is `e` |
| JsonParser.DecimalStringIsCanonical | schoollibrary/bpslibrary/utils/jsonparser.py:117-118 | the decimal numeral of every natural number matches `0\|[1-9][0-9]*`, and its value is that number |
| JsonParser.CanonicalIsDecimalString | schoollibrary/bpslibrary/utils/jsonparser.py:117-118 | every string matching `0\|[1-9][0-9]*` is the numeral of its own value, so it has no leading zero |
| JsonParser.ValidIndexIsNumeral | schoollibrary/bpslibrary/utils/jsonparser.py:117-118 | `is_valid_index` accepts exactly the numerals of natural numbers, optionally followed by one newline, and `int` reads back the number |
| JsonParser.ListReducedAppend | schoollibrary/bpslibrary/utils/jsonparser.py:86-95 | `reduce_list` works element by element: reducing a concatenation is the concatenation of the reductions |
| JsonParser.ListReducedPicks | schoollibrary/bpslibrary/utils/jsonparser.py:86-95 | every output of `reduce_list` is the element at the index of some input that can be indexed there |
| JsonParser.DictReducedAppend | schoollibrary/bpslibrary/utils/jsonparser.py:97-106 | `reduce_dict` works element by element, in order |
| JsonParser.DictReducedPicks | schoollibrary/bpslibrary/utils/jsonparser.py:97-106 | every output of `reduce_dict` is the value under the key in some input object that has it |
| JsonParser.FlattenedAppend | schoollibrary/bpslibrary/utils/jsonparser.py:108-115 | `flatten` splices element by element, in order |
| JsonParser.FlattenedLength | schoollibrary/bpslibrary/utils/jsonparser.py:108-115 | the output length is the sum of the spliced list lengths plus the number of non-list items |
| JsonParser.FlattenedNoLists | schoollibrary/bpslibrary/utils/jsonparser.py:108-115 | a sequence with no lists is left unchanged by `flatten` |
| JsonParser.JsonTraverseParser.ReduceList | schoollibrary/bpslibrary/utils/jsonparser.py:86-95 | the loop computes the list reduction, so its output is never longer than its input |
| JsonParser.JsonTraverseParser.ReduceDict | schoollibrary/bpslibrary/utils/jsonparser.py:97-106 | the loop computes the key reduction, so its output is never longer than its input |
| JsonParser.JsonTraverseParser.Flatten | schoollibrary/bpslibrary/utils/jsonparser.py:108-115 | the loop computes the one-level flattening |
| JsonParser.JsonTraverseParser.Traverse | schoollibrary/bpslibrary/utils/jsonparser.py:45-84 | the path loop and the final normalisation compute `TraverseResult`, the specification the lemmas below are about |
| JsonParser.JsonTraverseParser.ApplySegment | schoollibrary/bpslibrary/utils/jsonparser.py:57-70 | one pass of the path loop replaces the reduction by `Step` of it: the list reduction when it changes something, else the key reduction of the flattening when that changes something, else [] |
| JsonParser.EmptyPath | schoollibrary/bpslibrary/utils/jsonparser.py:50-55 | an empty path gives the data when it is truthy and None otherwise; with `force_list`, it gives [] or the data wrapped in a list unless the data already is a list |
| JsonParser.NormalisedShape | schoollibrary/bpslibrary/utils/jsonparser.py:72-82 | a one-element result is unwrapped and an empty one becomes None; with `force_list`, the result is always a list: None becomes [] and a non-list x becomes [x] |
| JsonParser.StallEmpties | schoollibrary/bpslibrary/utils/jsonparser.py:62-70 | a step that changes nothing empties the reduction |
| JsonParser.WalkFromEmpty | schoollibrary/bpslibrary/utils/jsonparser.py:55-70 | once empty, the reduction stays empty for all later steps |
| JsonParser.WalkAppend | schoollibrary/bpslibrary/utils/jsonparser.py:55-70 | walking a path in two parts is walking the whole path |
| JsonParser.WalkStalls | schoollibrary/bpslibrary/utils/jsonparser.py:55-70 | a stalled step anywhere on the path empties the whole walk |
| JsonParser.StallGivesNone | schoollibrary/bpslibrary/utils/jsonparser.py:55-82 | a path with a step that changes nothing traverses to None, or to [] with `force_list` |
| Models.Book.GetAuthorName | schoollibrary/bpslibrary/models.py:178-184 | the author names joined with ", ", in order, starting with the first name; its length is the sum of the names plus two per separator; at least one author is required, since none raises IndexError |
| Models.Book.GetCategoryName | schoollibrary/bpslibrary/models.py:186-194 | None exactly when there are no categories; otherwise the names joined with ", " in order |
| Models.Book.GetShortDescription | schoollibrary/bpslibrary/models.py:196-201 | "..." exactly when the description is missing or blank; otherwise its first 150 characters followed by " ..."; never longer than 154 characters |
| Text.JoinLength | schoollibrary/bpslibrary/models.py:182 | `', '.join` has the total length of the names plus one separator between each pair |
| ApiHandler.VolumeCopiesFields | schoollibrary/bpslibrary/utils/apihandler.py:18-44 | the book's title, description and preview link are `Some(s)` exactly when the record holds the string `s` under that key, and None exactly when the key is missing or null; two records that agree on those three keys give equal fields |
| ApiHandler.LastIdentifierWins | schoollibrary/bpslibrary/utils/apihandler.py:24-29 | an ISBN field holds the identifier of the last identifier of that type, with the type compared after upper-casing; it stays None when there is none |
| ApiHandler.VolumeListsAndThumbnail | schoollibrary/bpslibrary/utils/apihandler.py:31-42 | one author or category per name, in input order; the thumbnail is `smallthumbnail` unless that is missing or empty, and then `thumbnail` |
| ApiHandler.BuildBook | schoollibrary/bpslibrary/utils/apihandler.py:16-45 | a fresh book whose data is exactly `VolumeData` of the record, with no location |
| ApiHandler.SetIdentifiers | schoollibrary/bpslibrary/utils/apihandler.py:24-29 | the identifier loop sets only the two ISBN fields, to the last identifier of each type |
| ApiHandler.AddAuthors | schoollibrary/bpslibrary/utils/apihandler.py:31-33 | the loop appends one author per name in order and changes nothing else |
| ApiHandler.AddCategories | schoollibrary/bpslibrary/utils/apihandler.py:35-37 | the loop appends one category per name in order and changes nothing else |
| ApiHandler.APIClient.constructor | schoollibrary/bpslibrary/utils/apihandler.py:74-75 | a missing ISBN list becomes [], and the title is stripped, or "" when it is missing |
| ApiHandler.SearchQueryShape | schoollibrary/bpslibrary/utils/apihandler.py:159-168 | the query is empty exactly when neither the title nor the ISBN is non-blank; otherwise it is `+intitle:<quoted title>` followed by `+isbn:<isbn>` |
| ApiHandler.HitsAppend | schoollibrary/bpslibrary/utils/apihandler.py:181-189 | items are filtered one by one, in response order |
| ApiHandler.Hits | schoollibrary/bpslibrary/utils/apihandler.py:181-189 | only items with a built title are kept, so the result is never longer than the items |
| ApiHandler.APIClient.SearchGoogleBooks | schoollibrary/bpslibrary/utils/apihandler.py:150-190 | issues exactly the request for the query, none when the query is empty; returns distinct fresh books whose data are the titled hits in response order |
| ApiHandler.BuildHits | schoollibrary/bpslibrary/utils/apihandler.py:180-190 | the item loop returns distinct fresh books whose data are exactly `Hits(items)` |
| ApiHandler.EnumDeleteKeeps | schoollibrary/bpslibrary/utils/apihandler.py:255-259 | deleting during enumeration keeps exactly the elements not marked by `Deleted`: an element is deleted when it is bad and the one before it was not deleted |
| ApiHandler.DeletedOnlyBad | schoollibrary/bpslibrary/utils/apihandler.py:255-259 | only mismatching books are removed; no two neighbours are both removed; a mismatch right after a kept book is removed |
| ApiHandler.KeepWhereKeeps | schoollibrary/bpslibrary/utils/apihandler.py:255-259 | the survivors are drawn from the input, so any property shared by all inputs holds for them |
| ApiHandler.SecondOfTwoBadSurvives | schoollibrary/bpslibrary/utils/apihandler.py:255-259 | an example of the skip, on a two-book list: of two mismatches in a row the second is not removed (the general rule is `DeletedOnlyBad`) |
| ApiHandler.KeepWordsAndSpaces | schoollibrary/bpslibrary/utils/apihandler.py:256-257 | removing the non-word, non-space characters keeps a subsequence made only of word and space characters |
| ApiHandler.TitleFilterRemovesOnlyMismatches | schoollibrary/bpslibrary/utils/apihandler.py:246-261 | the title lookup is the title search with the enumerate-delete applied: every removed book has a mismatching title, and no two neighbours are removed |
| ApiHandler.DeleteWhileEnumerating | schoollibrary/bpslibrary/utils/apihandler.py:255-259 | the `enumerate` loop with `del results[i]` leaves exactly `EnumDelete` of the books and their flags, a duplicate-free selection of the input books |
| ApiHandler.DropMismatches | schoollibrary/bpslibrary/utils/apihandler.py:255-259 | the in-place loop keeps exactly the enumerate-delete result, and the survivors are distinct books from the input |
| ApiHandler.APIClient.LookupByTitle | schoollibrary/bpslibrary/utils/apihandler.py:246-261 | searches for the given title, or the client's own when it is missing or empty, and returns fresh distinct books with the filtered data |
| ApiHandler.APIClient.SearchAmazon | schoollibrary/bpslibrary/utils/apihandler.py:263-270 | one Amazon request; the books carry the service's answer |
| ApiHandler.APIClient.LookupByRelatedIsbn | schoollibrary/bpslibrary/utils/apihandler.py:192-223 | one related-ISBN request; the books carry the service's answer |
| ApiHandler.APIClient.LookupTitle | schoollibrary/bpslibrary/utils/apihandler.py:225-244 | one title request; the title is the service's answer |
| ApiHandler.FallbackOrder | schoollibrary/bpslibrary/utils/apihandler.py:112-126 | Google is always asked; Amazon only while the accumulated results are empty; related ISBNs and the title only when `direct_search_only` is off and every earlier source came back empty |
| ApiHandler.ConsultAsks | schoollibrary/bpslibrary/utils/apihandler.py:112-126 | the requests of one ISBN are exactly those of the sources consulted, in fallback order |
| ApiHandler.APIClient.ConsultSources | schoollibrary/bpslibrary/utils/apihandler.py:112-126 | the fallback chain extends `lookup_results` and the request log exactly as `Consult` says, Amazon only after Google found nothing and the further lookups only when the search is not direct |
| ApiHandler.APIClient.AskFurther | schoollibrary/bpslibrary/utils/apihandler.py:120-126 | the related-ISBN lookup, then the title lookup only when it found nothing, as `Further` says |
| ApiHandler.LookupNeverReset | schoollibrary/bpslibrary/utils/apihandler.py:101-126 | the accumulated results only grow while one ISBN is consulted; once they are non-empty, only Google is asked |
| ApiHandler.StampStepCounts | schoollibrary/bpslibrary/utils/apihandler.py:130-143 | after stamping, the accumulated results are added to the found books; a failed ISBN conversion instead counts one error and adds nothing (the only failure modelled; failing lookups are listed under Left out) |
| ApiHandler.StampStepEffect | schoollibrary/bpslibrary/utils/apihandler.py:130-136 | every accumulated book gets the ISBN in `isbn13` when it has 13 characters, else in `isbn10`, with the converted value in the other field; no other book changes; when conversion fails, only the first book is half-stamped |
| ApiHandler.EarlierBooksRestamped | schoollibrary/bpslibrary/utils/apihandler.py:101-138 | a book found for an earlier ISBN is stamped again with a later ISBN and found again |
| ApiHandler.AfterIsbnsStep | schoollibrary/bpslibrary/utils/apihandler.py:107-143 | the ISBN loop model is a left fold: one more ISBN is one more step |
| ApiHandler.StampResults | schoollibrary/bpslibrary/utils/apihandler.py:130-136 | the in-place stamping loop updates the book objects exactly as `StampedPool` describes, and stops at the first failed conversion |
| ApiHandler.StampBook | schoollibrary/bpslibrary/utils/apihandler.py:131-136 | one book is stamped fully, or only its first field when the conversion fails |
| ApiHandler.SortedByTitle | schoollibrary/bpslibrary/utils/apihandler.py:145 | `sorted(set(...), key=title)`: the same books, each object once, in non-decreasing title order |
| ApiHandler.APIClient.FindBooks | schoollibrary/bpslibrary/utils/apihandler.py:82-148 | the requests are those of the fallback model, in order; the returned books are exactly the objects the model finds, each once, sorted by title |
| ApiHandler.APIClient.RunIsbns | schoollibrary/bpslibrary/utils/apihandler.py:106-143 | the ISBN loop keeps the book objects in step with the pure model after every ISBN |
| ApiHandler.APIClient.ProcessIsbn | schoollibrary/bpslibrary/utils/apihandler.py:108-138 | one ISBN: strip, consult the sources, stamp, and add to the found books, as one step of the model |
| FileUploader.AllowedExtensions | schoollibrary/bpslibrary/utils/fileuploader.py:9-13 | images allow jpg, jpeg, png and bmp, CSV uploads allow only csv; every entry is lower-case without a dot |
| FileUploader.ImageAndCsvDisjoint | schoollibrary/bpslibrary/utils/fileuploader.py:9-13 | no file name passes both the image and the CSV check |
| FileUploader.PermittedByLastPart | schoollibrary/bpslibrary/utils/fileuploader.py:23-25 | the extension check looks only at the text after the last dot, lower-cased |
| FileUploader.PermittedIgnoresCase | schoollibrary/bpslibrary/utils/fileuploader.py:23-25 | the check gives the same answer for a file name and its lower-cased form |
| FileUploader.PathJoin | schoollibrary/bpslibrary/utils/fileuploader.py:29 | `os.path.join` ends with the name, and returns it alone when it is absolute |
| FileUploader.UploadToTmp | schoollibrary/bpslibrary/utils/fileuploader.py:7-32 | checks in order: a missing field, then an empty file name, then a disallowed extension, each with its own error and each exactly when the earlier checks pass; it succeeds exactly when all pass, with the path `/tmp/` plus the secured name |
| Users.AllowedFileIffCsvSuffix | schoollibrary/bpslibrary/views/users.py:36-39 | a file name is allowed exactly when it ends in ".csv" in any case |
| Users.AllowedFileIsCsvUpload | schoollibrary/bpslibrary/views/users.py:36-39 | `allowed_file` is the CSV check of `upload_to_tmp` |
| Users.CheckClassroomFile | schoollibrary/bpslibrary/views/users.py:53-66 | the classroom upload runs the same three checks, in the same order, with the same path as a CSV upload to `/tmp/` |
| Users.UpdateClassroom | schoollibrary/bpslibrary/views/users.py:52-69 | a failed check leaves the session untouched and reports the error; otherwise the saved file is imported, and the outcome records whether it was stored; when it was not, the classrooms built before the short row stay pending and nothing is committed |
| Users.GroupedPupils | schoollibrary/bpslibrary/views/users.py:93 | each row adds one pupil named `row[2]`, in order, so there are as many pupils as rows |
| Users.GroupedHeads | schoollibrary/bpslibrary/views/users.py:87-92 | a classroom begins exactly where the name differs from the previous row; it is named and dated by the first row of its run; the last classroom carries the last row's name |
| Users.GroupedShape | schoollibrary/bpslibrary/views/users.py:87-93 | neighbouring classrooms have different names and none is empty |
| Users.AddRowKeeps | schoollibrary/bpslibrary/views/users.py:87-93 | one row keeps neighbouring names different and every classroom non-empty |
| Users.UpdateDb | schoollibrary/bpslibrary/views/users.py:78-99 | returns True exactly when every row has at least three fields; then the new classrooms are the grouping of the rows and everything pending is committed; otherwise nothing is committed, and the classrooms built before the short row stay pending |
| Users.ReadRows | schoollibrary/bpslibrary/views/users.py:85-93 | the row loop builds fresh classrooms matching the grouping and adds each one to the session |
| Users.ShortRowIsFirst | schoollibrary/bpslibrary/views/users.py:87-93 | the first short row is where the import stops |
| Users.GroupedStep | schoollibrary/bpslibrary/views/users.py:87-93 | one more full row is one more step of the grouping |
| Users.OpenClassroom | schoollibrary/bpslibrary/views/users.py:90-92 | a fresh classroom with the row's name and year and no pupils, added to the session |
| Users.AddPupil | schoollibrary/bpslibrary/views/users.py:93 | one pupil is appended to the current classroom, and no other classroom changes |
| Loans.LoanCheck | schoollibrary/bpslibrary/views/loans.py:49-70 | rejects in order: a missing user, pupil or book; no barcode image; no ISBN scanned; the book's ISBN-13 not among those scanned; each exactly when the earlier checks pass |
| Loans.ReturnCheck | schoollibrary/bpslibrary/views/loans.py:102-121 | the loan checks on the book, then "no loan found" exactly when they all pass and there is no current loan |
| Loans.ReturnChecksLikeLoan | schoollibrary/bpslibrary/views/loans.py:102-121 | the return check is the loan check followed by the current-loan check |
| Loans.RecordLoan | schoollibrary/bpslibrary/views/loans.py:27-87 | a failure is the first failing check and changes nothing; a success commits exactly one fresh loan for that pupil and book, starting today and still open, and puts the book on loan; the book's location is not checked first |
| Loans.RecordReturn | schoollibrary/bpslibrary/views/loans.py:90-132 | a failure is the first failing check and changes nothing; a success closes the current loan today, puts the book back in the library, and commits no new loan |
| Nav.OtherHostUnsafe | schoollibrary/bpslibrary/utils/nav.py:24-27 | an absolute URL on another host is never safe |
| Nav.SafetyOfJoined | schoollibrary/bpslibrary/utils/nav.py:24-27 | safety depends only on the URL joined onto the host URL |
| Nav.RedirectToPrevious | schoollibrary/bpslibrary/utils/nav.py:42-57 | the target is "" or a `next`/referrer value that passed `is_safe_url`; a safe `next` wins over a safe referrer; with `avoid_current`, it is never the current URL; a logged-in user is never sent to a URL containing the login URL; a safe `next` is returned unless one of those two rules clears it, and so is a safe referrer when `next` is missing or unsafe |

## Left out

- HTTP and the remote services (Google Books, Amazon, xISBN, LibraryThing, eBay) are function-valued parameters. Their URL building and their JSON and XML parsing are not modelled. For Google Books, the status test and the `totalItems`/`items` test of `search_google_books` are modelled on the parsed body; the other `ApiHandler.Services` fields return books directly.
- ApiHandler.APIClient.FindBooks: the services never fail. In the source, an exception in a lookup inside the loop (a connection error, a non-JSON xISBN answer, a missing "stat", the eBay indexing) is caught: it adds one error, skips the remaining sources and the stamping of that ISBN, and leaves `lookup_results` as it was. An exception in the opening `lookup_by_title()` call, outside the `try`, propagates out of `find_books`. Neither path is modelled; the only error the model counts is a failed `pyisbn.convert`.
- ApiHandler.BuildBook: requires `VolumeShape`, that is, string or null fields, string lists for "authors" and "categories", and a string "type" on every identifier. On other records the source raises (`.upper()` on a missing "type", iteration over a non-list) or stores a non-string.
- ApiHandler.APIClient.SearchGoogleBooks: requires `ServicesShape`, whose Google part is `ResponseShape` of every answer: a numeric "totalItems" and a list of objects under "items". On other answers the source raises (`int(...)` of a non-numeric "totalItems").
- ApiHandler.APIClient.FindBooks: requires `ServicesShape`, that is, well-shaped Google answers and titled Amazon and related-ISBN books, so the failures above cannot arise.
- `search_amazon`, `lookup_by_related_isbn` and `lookup_title` are modelled only as one request plus the service's answer. Their internal loops over xISBN and LibraryThing are not modelled.
- `pyisbn.convert` is an abstract function returning an optional string. `None` stands for the exception that the `find_books` loop catches.
- `urllib.parse.quote_plus`, the regex class `[\w\s]`, `werkzeug.secure_filename` and `urlparse`/`urljoin` are abstract function parameters.
- `json.loads` in the parser's constructor is not modelled: the parser is built from a `Json` value. JSON numbers are integers, and floating point is not modelled.
- The `TypeError` raised for a non-string path or raw data cannot arise: both are typed as strings.
- Case mapping (`lower`, `upper`) is modelled for ASCII letters only; Unicode case mapping is left out. `strip` uses Python's full whitespace set.
- Python's `set` iteration order in `sorted(set(found_books), ...)` is not modelled. `ApiHandler.SortedByTitle` states the same books, each once, sorted by title, but not which of two books with the same title comes first.
- ApiHandler.APIClient.FindBooks: does not state that every returned book is freshly allocated, because that invariant was too costly for the verifier. It states only that the returned objects are those the model finds.
- The error strings with timestamps and the `flash` of the collected errors in `find_books` are left out: time and flashing are I/O. Only the number of errors is kept.
- Users.UpdateDb: an exception from `open` or `csv.reader` is not modelled. The only failure modelled is a row with fewer than three fields, which makes the loop raise `IndexError`.
- The CSV file's save and read-back are not modelled: `UpdateClassroom` receives the parsed rows directly.
- Loans: the WTForms parsing (`int(...)` of the form ids), the database queries, the pupil choice list from `current_user.classroom`, the barcode scan (an input list of ISBNs) and the clock (an input date) are parameters or left out.
- The flash messages and the final `redirect_to_previous(True)` of the loan handlers are not modelled.
- `book.current_loan` is not defined in this version of `models.py`, so `RecordReturn` takes the current loan as a parameter.
- This version of `models.py` defines `ClassRoom` (with a unique `name` and a required `password`) but no `Classroom`, `User` or `Loan` class and no `Book.current_location`, although `users.py` and `loans.py` import and use them. `Models.Classroom`, `Models.User`, `Models.Loan` and `Book.currentLocation` model the classes and field those views use, not classes of this `models.py`.
- Users.UpdateDb: a database constraint failure in `session.commit()` (a duplicate classroom name, a missing password) is not modelled; the commit always succeeds.
- The SQLAlchemy session is modelled as two sequences: pending objects and committed objects. Relationships and queries are not modelled.
- Nav.RedirectToPrevious: returns the target URL rather than the `redirect` response. The request, `current_user` and `url_for(login_view)` are parameters.
