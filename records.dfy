/**
 * The input rows both analysis scripts read, once the CSV files have been
 * loaded and filtered: one record per enterprise-subscription row and one
 * per transaction row. A cell pandas reads as NaN is `None`.
 */
module Records {
  import opened Wrappers

  /** One row of the enterprise-subscription table. */
  datatype SubscriptionRow = SubscriptionRow(
    program: string,            // "Enterprise Name"
    plate: string,              // "Vehicle License Plate Text", not yet stripped
    email: Option<string>,      // "User Email"
    first: Option<string>,      // "User First Name"
    last: Option<string>,       // "User Last Name"
    phone: Option<int>          // "User Phone Number"
  )

  /** One row of the transaction table. */
  datatype Transaction = Transaction(
    plate: string,              // "Vehicle License Plate"
    startDate: string,          // "Visit Start Date (local)"
    startTime: string,          // "Visit Start Time (local)"
    endDate: string,            // "Visit End Date (local)"
    endTime: string,            // "Visit End Time (local)"
    duration: string,           // "Visit Duration (minutes)", copied to the report as read
    userId: int                 // "User Id"
  )

  /**
   * The right-hand side of a `user == other` comparison: another user, a
   * string (an email), an int (an id) or any other Python value.
   */
  datatype Operand<U> = AUser(user: U) | AText(text: string) | ANumber(number: int) | AnotherValue
}
