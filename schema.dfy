/** The rows of the four tables the backend reads and writes. Calendar dates
    are day numbers and timestamps are seconds, so that both order as the
    store orders DATE and DATETIME values. */
module Schema {

  datatype Option<+T> = None | Some(value: T)

  /** A `service_date`: a calendar day, counted from an arbitrary origin. */
  type Date = nat

  /** A `check_in_time` or `created_at` value, in seconds. */
  type Timestamp = int

  /** A row of `members`; provisioned outside this system and only read. */
  datatype Member = Member(
    id: int,
    memberId: string,
    firstName: string,
    lastName: string,
    phone: string,
    email: Option<string>,
    gender: string)

  /** A row of `attendance`: one member check-in. */
  datatype Attendance = Attendance(
    id: int,
    memberId: int,
    service: string,
    serviceDate: Date,
    checkInTime: Timestamp)

  /** A row of `visitors`. */
  datatype Visitor = Visitor(
    id: int,
    fullName: string,
    phone: Option<string>,
    gender: string,
    firstTime: bool,
    createdAt: Timestamp)

  /** A row of `visitor_attendance`: one visitor check-in. */
  datatype VisitorAttendance = VisitorAttendance(
    id: int,
    visitorId: int,
    service: string,
    serviceDate: Date,
    checkInTime: Timestamp)

  /** `SELECT ... WHERE id = ?` on a table whose key is `id`: the last row
      with that id, if any. */
  function RowWithId<T>(rows: seq<T>, id: T -> int, key: int): (r: Option<T>)
    ensures r.Some? ==> r.value in rows && id(r.value) == key
    ensures r.None? ==> forall i :: 0 <= i < |rows| ==> id(rows[i]) != key
  {
    if rows == [] then None
    else if id(rows[|rows| - 1]) == key then Some(rows[|rows| - 1])
    else RowWithId(rows[..|rows| - 1], id, key)
  }

  /** Two appends in a row append both elements. */
  lemma AppendTwice<T>(a: seq<T>, b: seq<T>, c: seq<T>, x: T, y: T)
    requires b == a + [x] && c == b + [y]
    ensures c == a + [x, y]
  {
  }
}
