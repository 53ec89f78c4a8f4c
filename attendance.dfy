/** Member check-in, `POST /attendance/register`: validate the body, look for
    an existing check-in of the member for the service today, insert one
    otherwise, and read the inserted row back by its id. A duplicate-key
    error from the store's unique index answers like the pre-check does. */
module MemberCheckIn {
  import opened Js
  import opened Schema
  import opened Validation

  /** What the store does to this request: nothing goes wrong, or one of its
      calls fails. `InsertDuplicate` is the unique index on
      (member_id, service, service_date) refusing the insert because a
      concurrent request got there first. */
  datatype StoreFault = NoFault | CheckFails | InsertDuplicate | InsertFails | RereadFails

  datatype RegisterResponse =
    | Invalid(errors: seq<string>)   // 400
    | Created(attendance: Attendance) // 201
    | AlreadyCheckedIn               // 409
    | ServerError                    // 500

  const DuplicateMessage := "You have already checked in for this service today."

  predicate SameCheckIn(r: Attendance, memberId: int, service: string, day: Date)
  {
    r.memberId == memberId && r.service == service && r.serviceDate == day
  }

  /** The duplicate check: some row already records this check-in. */
  predicate CheckedIn(rows: seq<Attendance>, memberId: int, service: string, day: Date)
  {
    exists i :: 0 <= i < |rows| && SameCheckIn(rows[i], memberId, service, day)
  }

  /** At most one row per (member_id, service, service_date). */
  ghost predicate OnePerDay(rows: seq<Attendance>)
  {
    forall i, j :: 0 <= i < j < |rows| ==>
      !SameCheckIn(rows[j], rows[i].memberId, rows[i].service, rows[i].serviceDate)
  }

  /** Ids grow with insertion order and stay below the next id to assign. */
  ghost predicate IdsBelow(rows: seq<Attendance>, nextId: int)
  {
    && (forall i, j :: 0 <= i < j < |rows| ==> rows[i].id < rows[j].id)
    && (forall i :: 0 <= i < |rows| ==> rows[i].id < nextId)
  }

  function AttendanceId(r: Attendance): int { r.id }

  /** The table after a request, and the next auto-increment id. */
  datatype Table = Table(rows: seq<Attendance>, nextId: int)

  /** The handler as a function of the table before the request. */
  function Step(t: Table, memberId: JsValue, service: JsValue, today: Date, now: Timestamp, fault: StoreFault)
    : (out: (RegisterResponse, Table))
  {
    var errors := ValidateAttendance(memberId, service);
    if errors != [] then (Invalid(Messages(errors)), t)
    else if fault == CheckFails then (ServerError, t)
    else if CheckedIn(t.rows, memberId.n, service.s, today) then (AlreadyCheckedIn, t)
    else if fault == InsertDuplicate then (AlreadyCheckedIn, t)
    else if fault == InsertFails then (ServerError, t)
    else
      var row := Attendance(t.nextId, memberId.n, service.s, today, now);
      var t' := Table(t.rows + [row], t.nextId + 1);
      if fault == RereadFails then (ServerError, t')
      else match RowWithId(t'.rows, AttendanceId, t.nextId)
        case Some(r) => (Created(r), t')
        case None => (ServerError, t')
  }

  class AttendanceStore {
    var rows: seq<Attendance>
    var nextId: int

    ghost predicate Valid()
      reads this
    {
      OnePerDay(rows) && IdsBelow(rows, nextId)
    }

    constructor ()
      ensures Valid() && rows == [] && nextId == 1
    {
      rows := [];
      nextId := 1;
    }

    /** Registers `memberId` for `service` on `today`, at time `now`. */
    method Register(memberId: JsValue, service: JsValue, today: Date, now: Timestamp, fault: StoreFault)
      returns (resp: RegisterResponse)
      requires Valid()
      modifies this
      ensures Valid()
      ensures (resp, Table(rows, nextId)) == Step(Table(old(rows), old(nextId)), memberId, service, today, now, fault)
    {
      var errors := ValidateAttendance(memberId, service);
      if errors != [] {
        return Invalid(Messages(errors));
      }
      var id, svc := memberId.n, service.s;
      if fault == CheckFails {
        return ServerError;
      }
      if CheckedIn(rows, id, svc, today) {
        return AlreadyCheckedIn;
      }
      if fault == InsertDuplicate {
        return AlreadyCheckedIn;
      }
      if fault == InsertFails {
        return ServerError;
      }
      var insertId := nextId;
      rows := rows + [Attendance(insertId, id, svc, today, now)];
      nextId := nextId + 1;
      if fault == RereadFails {
        return ServerError;
      }
      var reread := RowWithId(rows, AttendanceId, insertId);
      match reread {
        case Some(r) => resp := Created(r);
        case None => resp := ServerError;
      }
    }
  }

  // ------------------------------------------------------------ properties

  /** Every request keeps at most one row per member, service and day, and
      keeps the ids increasing. */
  lemma StepPreservesInvariant(t: Table, memberId: JsValue, service: JsValue, today: Date, now: Timestamp, fault: StoreFault)
    requires OnePerDay(t.rows) && IdsBelow(t.rows, t.nextId)
    ensures OnePerDay(Step(t, memberId, service, today, now, fault).1.rows)
    ensures IdsBelow(Step(t, memberId, service, today, now, fault).1.rows, Step(t, memberId, service, today, now, fault).1.nextId)
  {
    var t' := Step(t, memberId, service, today, now, fault).1;
    if t' != t {
      var row := t'.rows[|t.rows|];
      assert t'.rows == t.rows + [row];
      assert !CheckedIn(t.rows, row.memberId, row.service, row.serviceDate);
    }
  }

  /** What a request does to the table: a 400, 409 or a failure before the
      insert leaves it as it was; otherwise exactly the row
      (id, member, service, today, now) is appended. A 201 returns that row. */
  lemma StepEffect(t: Table, memberId: JsValue, service: JsValue, today: Date, now: Timestamp, fault: StoreFault)
    requires IdsBelow(t.rows, t.nextId)
    ensures var (resp, t') := Step(t, memberId, service, today, now, fault);
      && (resp.Invalid? || resp.AlreadyCheckedIn? ==> t' == t)
      && (resp.Invalid? <==> ValidateAttendance(memberId, service) != [])
      && (resp.Created? ==>
            && resp.attendance == Attendance(t.nextId, memberId.n, service.s, today, now)
            && t'.rows == t.rows + [resp.attendance])
  {
    var (resp, t') := Step(t, memberId, service, today, now, fault);
    if resp.Created? {
      var row := Attendance(t.nextId, memberId.n, service.s, today, now);
      var rows' := t.rows + [row];
      assert RowWithId(rows', AttendanceId, t.nextId) == Some(row);
    }
  }

  /** The response depends only on whether the check-in already exists:
      when the store raises nothing, a valid request is 201 exactly when no
      row records the same member, service and day, and 409 otherwise. */
  lemma StepDecides(t: Table, memberId: JsValue, service: JsValue, today: Date, now: Timestamp)
    requires IdsBelow(t.rows, t.nextId)
    requires ValidateAttendance(memberId, service) == []
    ensures Step(t, memberId, service, today, now, NoFault).0.Created? <==> !CheckedIn(t.rows, memberId.n, service.s, today)
    ensures Step(t, memberId, service, today, now, NoFault).0.AlreadyCheckedIn? <==> CheckedIn(t.rows, memberId.n, service.s, today)
  {
    StepEffect(t, memberId, service, today, now, NoFault);
    var row := Attendance(t.nextId, memberId.n, service.s, today, now);
    assert RowWithId(t.rows + [row], AttendanceId, t.nextId) == Some(row);
  }

  /** The duplicate-key fallback answers exactly like the pre-check. */
  lemma DuplicateKeyLikePreCheck(t: Table, memberId: JsValue, service: JsValue, today: Date, now: Timestamp)
    requires ValidateAttendance(memberId, service) == []
    requires !CheckedIn(t.rows, memberId.n, service.s, today)
    ensures Step(t, memberId, service, today, now, InsertDuplicate) == (AlreadyCheckedIn, t)
  {
  }

  /** Two same-day requests with the same valid body: 201, then 409, and the
      table holds one new row. */
  lemma {:induction false} SecondCheckInRefused(t: Table, memberId: JsValue, service: JsValue, today: Date, now1: Timestamp, now2: Timestamp, fault2: StoreFault)
    requires IdsBelow(t.rows, t.nextId)
    requires fault2 != CheckFails
    requires Step(t, memberId, service, today, now1, NoFault).0.Created?
    ensures var t1 := Step(t, memberId, service, today, now1, NoFault).1;
      Step(t1, memberId, service, today, now2, fault2) == (AlreadyCheckedIn, t1)
      && |t1.rows| == |t.rows| + 1
  {
    var (resp, t1) := Step(t, memberId, service, today, now1, NoFault);
    StepEffect(t, memberId, service, today, now1, NoFault);
    var k := |t.rows|;
    assert SameCheckIn(t1.rows[k], memberId.n, service.s, today);
    assert CheckedIn(t1.rows, memberId.n, service.s, today);
  }

  /** The same two requests made against the store object. */
  method CheckInTwice(store: AttendanceStore, memberId: int, service: string, today: Date, now1: Timestamp, now2: Timestamp)
    returns (first: RegisterResponse, second: RegisterResponse)
    requires store.Valid()
    requires memberId >= 1 && service in Services
    requires !CheckedIn(store.rows, memberId, service, today)
    modifies store
    ensures store.Valid()
    ensures first.Created? && first.attendance.memberId == memberId && first.attendance.serviceDate == today
    ensures second == AlreadyCheckedIn
    ensures store.rows == old(store.rows) + [first.attendance]
  {
    var t := Table(store.rows, store.nextId);
    StepDecides(t, Num(memberId), Str(service), today, now1);
    StepEffect(t, Num(memberId), Str(service), today, now1, NoFault);
    SecondCheckInRefused(t, Num(memberId), Str(service), today, now1, now2, NoFault);
    first := store.Register(Num(memberId), Str(service), today, now1, NoFault);
    second := store.Register(Num(memberId), Str(service), today, now2, NoFault);
  }
}
