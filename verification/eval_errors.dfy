/** The failures the two evaluation scripts can end with. */
module EvalErrors {
  datatype Error =
    | FileNotFound          // `keyword.txt` is absent
    | DivisionByZero        // a mean or percentage over zero items
    | ColumnLengthMismatch  // pandas refuses columns of unequal length
}
