/** The enumerations of the library (`bpslibrary/utils/enums.py`). */
module Enums {

  /** Kinds of uploaded files (`FileType`). */
  datatype FileType = Image | Csv

  /** Where a book is (`BookLocation`). */
  datatype BookLocation = Library | Loan | Classroom
}
