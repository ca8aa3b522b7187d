/**
  Recording loans and returns of books (`bpslibrary/views/loans.py`).

  What the form refers to is given already looked up: the user, pupil and
  book are `null` where the query found none. The barcode image is given
  as whether one was sent and the ISBNs the barcode scanner read from it;
  today's date is a parameter. Flashed messages, the redirect and the
  pages that list loans are left out.
 */
module Loans {
  import opened Wrappers
  import opened Enums
  import opened Models
  import opened Database

  /** The errors the two handlers raise, in the order they are checked. */
  datatype LoanError =
    | InvalidEntries   // the user, pupil or book was not found
    | NoBarcodeImage   // no barcode image was sent
    | NoIsbnFound      // the scanner read no ISBN from the image
    | BarcodeMismatch  // the book's ISBN-13 is not among those read
    | NoLoanFound      // returning a book that has no current loan

  /** `book.isbn13 in isbnlist`: a book without an ISBN-13 matches no scan. */
  predicate Matches(isbn13: Option<string>, scanned: seq<string>)
  {
    isbn13.Some? && isbn13.value in scanned
  }

  /** The checks of `record_loan`: the first one that fails, if any.
      `found` says whether the user, the pupil and the book were all found.
      Where the book is already is not looked at. */
  function LoanCheck(found: bool, isbn13: Option<string>, hasImage: bool, scanned: seq<string>): (r: Option<LoanError>)
    ensures r == None <==> found && hasImage && |scanned| >= 1 && Matches(isbn13, scanned)
    ensures r == Some(InvalidEntries) <==> !found
    ensures r == Some(NoBarcodeImage) <==> found && !hasImage
    ensures r == Some(NoIsbnFound) <==> found && hasImage && scanned == []
    ensures r == Some(BarcodeMismatch) <==> found && hasImage && scanned != [] && !Matches(isbn13, scanned)
    ensures r != Some(NoLoanFound)
  {
    if !found then Some(InvalidEntries)
    else if !hasImage then Some(NoBarcodeImage)
    else if |scanned| < 1 then Some(NoIsbnFound)
    else if !Matches(isbn13, scanned) then Some(BarcodeMismatch)
    else None
  }

  /** The checks of `record_return`, the first one that fails, if any. */
  function ReturnCheck(found: bool, isbn13: Option<string>, hasImage: bool, scanned: seq<string>, hasLoan: bool)
    : (r: Option<LoanError>)
    ensures r == None <==> found && hasImage && |scanned| >= 1 && Matches(isbn13, scanned) && hasLoan
    ensures r == Some(NoLoanFound) <==> found && hasImage && |scanned| >= 1 && Matches(isbn13, scanned) && !hasLoan
  {
    if !found then Some(InvalidEntries)
    else if !hasImage then Some(NoBarcodeImage)
    else if |scanned| < 1 then Some(NoIsbnFound)
    else if !Matches(isbn13, scanned) then Some(BarcodeMismatch)
    else if !hasLoan then Some(NoLoanFound)
    else None
  }

  /** A return checks the book and its barcode exactly as a loan checks the
      user, pupil, book and barcode, and only then asks for a current loan. */
  lemma ReturnChecksLikeLoan(found: bool, isbn13: Option<string>, hasImage: bool, scanned: seq<string>, hasLoan: bool)
    ensures ReturnCheck(found, isbn13, hasImage, scanned, hasLoan)
         == if LoanCheck(found, isbn13, hasImage, scanned).Some? then LoanCheck(found, isbn13, hasImage, scanned)
            else if hasLoan then None else Some(NoLoanFound)
  {
  }

  /** `record_loan()`. On success a new loan of the book to the pupil,
      starting today, is stored and the book is marked as on loan; on an
      error nothing changes. */
  method RecordLoan(user: User?, pupil: Pupil?, book: Book?, hasImage: bool, scanned: seq<string>, today: Date,
                    session: Session)
    returns (r: Result<Loan, LoanError>)
    modifies session, book
    ensures var check := LoanCheck(user != null && pupil != null && book != null,
                                   if book != null then old(book.isbn13) else None, hasImage, scanned);
      && (r.Failure? <==> check.Some?)
      && (r.Failure? ==> r.error == check.value)
    ensures r.Failure? ==>
      && session.pending == old(session.pending) && session.committed == old(session.committed)
      && (book != null ==> book.currentLocation == old(book.currentLocation))
    ensures r.Success? ==>
      && book != null && pupil != null
      && fresh(r.value)
      && r.value.pupil == Some(pupil) && r.value.book == Some(book)
      && r.value.startDate == Some(today) && r.value.endDate == None
      && book.currentLocation == Some(BookLocation.Loan)
      && session.pending == []
      && session.committed == old(session.committed) + old(session.pending) + [r.value]
    ensures book != null ==> book.Data() == old(book.Data())
  {
    if user == null || pupil == null || book == null {
      return Failure(InvalidEntries);
    }
    if !hasImage {
      return Failure(NoBarcodeImage);
    }
    if |scanned| < 1 {
      return Failure(NoIsbnFound);
    }
    if !Matches(book.isbn13, scanned) {
      return Failure(BarcodeMismatch);
    }
    var loan := new Loan();
    loan.pupil := Some(pupil);
    loan.book := Some(book);
    loan.startDate := Some(today);
    book.currentLocation := Some(BookLocation.Loan);
    session.Add(loan);
    session.Commit();
    r := Success(loan);
  }

  /** `record_return()`. `currentLoan` is the book's current loan as the
      database gives it (`book.current_loan`). On success that loan ends
      today, the book is back in the library and no loan is added; on an
      error nothing changes. */
  method RecordReturn(book: Book?, hasImage: bool, scanned: seq<string>, currentLoan: Loan?, today: Date,
                      session: Session)
    returns (r: Result<Loan, LoanError>)
    modifies session, book, currentLoan
    ensures var check := ReturnCheck(book != null, if book != null then old(book.isbn13) else None,
                                     hasImage, scanned, currentLoan != null);
      && (r.Failure? <==> check.Some?)
      && (r.Failure? ==> r.error == check.value)
    ensures r.Failure? ==>
      && session.pending == old(session.pending) && session.committed == old(session.committed)
      && (book != null ==> book.currentLocation == old(book.currentLocation))
      && (currentLoan != null ==>
            && currentLoan.endDate == old(currentLoan.endDate)
            && currentLoan.pupil == old(currentLoan.pupil) && currentLoan.book == old(currentLoan.book)
            && currentLoan.startDate == old(currentLoan.startDate))
    ensures r.Success? ==>
      && book != null && r.value == currentLoan
      && currentLoan.endDate == Some(today)
      && currentLoan.pupil == old(currentLoan.pupil) && currentLoan.book == old(currentLoan.book)
      && currentLoan.startDate == old(currentLoan.startDate)
      && book.currentLocation == Some(BookLocation.Library)
      && session.pending == []
      && session.committed == old(session.committed) + old(session.pending)
    ensures book != null ==> book.Data() == old(book.Data())
  {
    if book == null {
      return Failure(InvalidEntries);
    }
    if !hasImage {
      return Failure(NoBarcodeImage);
    }
    if |scanned| < 1 {
      return Failure(NoIsbnFound);
    }
    if !Matches(book.isbn13, scanned) {
      return Failure(BarcodeMismatch);
    }
    if currentLoan == null {
      return Failure(NoLoanFound);
    }
    currentLoan.endDate := Some(today);
    book.currentLocation := Some(BookLocation.Library);
    session.Commit();
    r := Success(currentLoan);
  }
}
