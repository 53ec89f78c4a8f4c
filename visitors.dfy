/** Visitor registration, `POST /visitors/register`: validate the body, then
    inside one transaction insert the visitor, read it back, insert its
    attendance row pointing at it, read that back and commit. Any failure
    after the transaction began rolls both inserts back; the auto-increment
    counters are not rolled back. */
module VisitorRegistration {
  import opened Text
  import opened Js
  import opened Schema
  import opened Validation

  /** Which store call fails, if any. */
  datatype StoreFault =
    | NoFault
    | ConnectFails            // the pool hands out no connection
    | BeginFails
    | VisitorInsertFails
    | VisitorRereadFails
    | AttendanceInsertFails
    | AttendanceRereadFails
    | CommitFails

  datatype RegisterResponse =
    | Invalid(errors: seq<string>)                                  // 400
    | Created(visitor: Visitor, attendance: VisitorAttendance)      // 201
    | ServerError                                                   // 500

  function VisitorId(v: Visitor): int { v.id }

  function VisitorAttendanceId(a: VisitorAttendance): int { a.id }

  /** `sanitise(phone) || null`. */
  function StoredPhone(phone: JsValue): (r: Option<string>)
    ensures r.None? <==> Sanitise(phone) == ""
    ensures r.Some? ==> r.value == Sanitise(phone)
  {
    var p := Sanitise(phone);
    if p == "" then None else Some(p)
  }

  /** The fields a valid body is stored with: sanitised name and gender,
      the sanitised phone or null, the flag and the service as given. */
  datatype Entry = Entry(fullName: string, phone: Option<string>, gender: string, firstTime: bool, service: string)

  function Clean(body: VisitorBody): (e: Entry)
    requires ValidateVisitor(body) == []
    ensures e.phone.None? <==> Sanitise(body.phone) == ""
    ensures 2 <= JsLength(e.fullName) <= 200 && e.gender in Genders && e.service in Services
  {
    Entry(Sanitise(body.fullName), StoredPhone(body.phone), Sanitise(body.gender), body.firstTime.b, body.service.s)
  }

  /** Both tables and their next auto-increment ids. */
  datatype Tables = Tables(
    visitors: seq<Visitor>,
    attendance: seq<VisitorAttendance>,
    nextVisitorId: int,
    nextAttendanceId: int)

  predicate HasVisitor(visitors: seq<Visitor>, id: int)
  {
    exists j :: 0 <= j < |visitors| && visitors[j].id == id
  }

  /** Ids increase in insertion order and stay below the next id of their
      table; every visitor check-in points at a stored visitor. */
  ghost predicate Consistent(t: Tables)
  {
    && (forall i, j :: 0 <= i < j < |t.visitors| ==> t.visitors[i].id < t.visitors[j].id)
    && (forall i :: 0 <= i < |t.visitors| ==> t.visitors[i].id < t.nextVisitorId)
    && (forall i, j :: 0 <= i < j < |t.attendance| ==> t.attendance[i].id < t.attendance[j].id)
    && (forall i :: 0 <= i < |t.attendance| ==> t.attendance[i].id < t.nextAttendanceId)
    && (forall i :: 0 <= i < |t.attendance| ==> HasVisitor(t.visitors, t.attendance[i].visitorId))
  }

  /** The transaction for a valid body, as a function of the tables before
      it. A failure after an insert restores the rows of both tables but
      keeps the counters the inserts advanced. */
  function Insert(t: Tables, e: Entry, today: Date, createdAt: Timestamp, checkedIn: Timestamp, fault: StoreFault)
    : (out: (RegisterResponse, Tables))
  {
    if fault == ConnectFails || fault == BeginFails || fault == VisitorInsertFails then (ServerError, t)
    else
      var visitors' := t.visitors + [Visitor(t.nextVisitorId, e.fullName, e.phone, e.gender, e.firstTime, createdAt)];
      var afterOne := t.(nextVisitorId := t.nextVisitorId + 1);
      if fault == VisitorRereadFails || fault == AttendanceInsertFails then (ServerError, afterOne)
      else
        // the re-read finds the row just inserted
        var visitor := RowWithId(visitors', VisitorId, t.nextVisitorId).value;
        var attendance' := t.attendance + [VisitorAttendance(t.nextAttendanceId, visitor.id, e.service, today, checkedIn)];
        var afterTwo := afterOne.(nextAttendanceId := t.nextAttendanceId + 1);
        if fault == AttendanceRereadFails || fault == CommitFails then (ServerError, afterTwo)
        else
          var row := RowWithId(attendance', VisitorAttendanceId, t.nextAttendanceId).value;
          (Created(visitor, row), afterTwo.(visitors := visitors', attendance := attendance'))
  }

  /** The handler: a 400 for an invalid body, the transaction otherwise. */
  function Step(t: Tables, body: VisitorBody, today: Date, createdAt: Timestamp, checkedIn: Timestamp, fault: StoreFault)
    : (out: (RegisterResponse, Tables))
  {
    var errors := ValidateVisitor(body);
    if errors != [] then (Invalid(Messages(errors)), t)
    else Insert(t, Clean(body), today, createdAt, checkedIn, fault)
  }

  class VisitorStore {
    var visitors: seq<Visitor>
    var attendance: seq<VisitorAttendance>
    var nextVisitorId: int
    var nextAttendanceId: int

    function State(): Tables
      reads this
    {
      Tables(visitors, attendance, nextVisitorId, nextAttendanceId)
    }

    ghost predicate Valid()
      reads this
    {
      Consistent(State())
    }

    constructor ()
      ensures Valid() && visitors == [] && attendance == []
    {
      visitors, attendance := [], [];
      nextVisitorId, nextAttendanceId := 1, 1;
    }

    /** Registers a visitor check-in for `today`. The two inserts run
        `NOW()` separately: `createdAt` stamps the visitor and `checkedIn`
        the check-in. */
    method Register(body: VisitorBody, today: Date, createdAt: Timestamp, checkedIn: Timestamp, fault: StoreFault)
      returns (resp: RegisterResponse)
      requires Valid()
      modifies this
      ensures Valid()
      ensures (resp, State()) == Step(old(State()), body, today, createdAt, checkedIn, fault)
    {
      var errors := ValidateVisitor(body);
      if errors != [] {
        return Invalid(Messages(errors));
      }
      ghost var before := State();
      resp := Transact(Clean(body), today, createdAt, checkedIn, fault);
      InsertPreservesConsistent(before, Clean(body), today, createdAt, checkedIn, fault);
    }

    /** The transaction of a valid registration. */
    method Transact(e: Entry, today: Date, createdAt: Timestamp, checkedIn: Timestamp, fault: StoreFault)
      returns (resp: RegisterResponse)
      modifies this
      ensures (resp, State()) == Insert(old(State()), e, today, createdAt, checkedIn, fault)
    {
      // the snapshot a rollback restores
      var savedVisitors, savedAttendance := visitors, attendance;
      ghost var before := State();
      if fault == ConnectFails || fault == BeginFails || fault == VisitorInsertFails {
        return ServerError;
      }
      var visitorId := nextVisitorId;
      nextVisitorId := nextVisitorId + 1;
      visitors := visitors + [Visitor(visitorId, e.fullName, e.phone, e.gender, e.firstTime, createdAt)];
      if fault == VisitorRereadFails || fault == AttendanceInsertFails {
        visitors := savedVisitors;
        return ServerError;
      }
      assert visitors == before.visitors + [Visitor(visitorId, e.fullName, e.phone, e.gender, e.firstTime, createdAt)];
      var visitor := RowWithId(visitors, VisitorId, visitorId).value;
      var attendanceId := nextAttendanceId;
      nextAttendanceId := nextAttendanceId + 1;
      attendance := attendance + [VisitorAttendance(attendanceId, visitor.id, e.service, today, checkedIn)];
      if fault == AttendanceRereadFails || fault == CommitFails {
        visitors, attendance := savedVisitors, savedAttendance;
        return ServerError;
      }
      var row := RowWithId(attendance, VisitorAttendanceId, attendanceId).value;
      resp := Created(visitor, row);
      assert State() == Tables(visitors, attendance, nextVisitorId, nextAttendanceId);
    }
  }

  // ------------------------------------------------------------ properties

  /** Every transaction keeps the ids increasing and every visitor check-in
      pointing at a stored visitor. */
  lemma InsertPreservesConsistent(t: Tables, e: Entry, today: Date, createdAt: Timestamp, checkedIn: Timestamp, fault: StoreFault)
    requires Consistent(t)
    ensures Consistent(Insert(t, e, today, createdAt, checkedIn, fault).1)
  {
    var (resp, t') := Insert(t, e, today, createdAt, checkedIn, fault);
    if resp.Created? {
      InsertEffect(t, e, today, createdAt, checkedIn, fault);
      var k := |t.visitors|;
      assert t'.visitors[k].id == resp.visitor.id;
      assert HasVisitor(t'.visitors, resp.visitor.id);
      forall i | 0 <= i < |t'.attendance|
        ensures HasVisitor(t'.visitors, t'.attendance[i].visitorId)
      {
        if i < |t.attendance| {
          assert t'.attendance[i] == t.attendance[i];
          var j :| 0 <= j < |t.visitors| && t.visitors[j].id == t.attendance[i].visitorId;
          assert t'.visitors[j] == t.visitors[j];
        }
      }
    }
  }

  /** A transaction is all or nothing: it succeeds exactly when no store
      call fails, and then appends the visitor under the next visitor id and
      one check-in for it under the next check-in id; otherwise the rows of
      both tables are as they were. */
  lemma InsertEffect(t: Tables, e: Entry, today: Date, createdAt: Timestamp, checkedIn: Timestamp, fault: StoreFault)
    ensures var (resp, t') := Insert(t, e, today, createdAt, checkedIn, fault);
      && (resp.Created? <==> fault == NoFault)
      && (resp.Created? ==> t'.nextVisitorId == t.nextVisitorId + 1 && t'.nextAttendanceId == t.nextAttendanceId + 1)
      && (!resp.Created? ==> resp.ServerError? && t'.visitors == t.visitors && t'.attendance == t.attendance)
      && (resp.Created? ==>
            && resp.visitor == Visitor(t.nextVisitorId, e.fullName, e.phone, e.gender, e.firstTime, createdAt)
            && resp.attendance == VisitorAttendance(t.nextAttendanceId, t.nextVisitorId, e.service, today, checkedIn)
            && t'.visitors == t.visitors + [resp.visitor]
            && t'.attendance == t.attendance + [resp.attendance])
      && t'.nextVisitorId >= t.nextVisitorId && t'.nextAttendanceId >= t.nextAttendanceId
  {
    var v := Visitor(t.nextVisitorId, e.fullName, e.phone, e.gender, e.firstTime, createdAt);
    assert RowWithId(t.visitors + [v], VisitorId, t.nextVisitorId) == Some(v);
    var a := VisitorAttendance(t.nextAttendanceId, v.id, e.service, today, checkedIn);
    assert RowWithId(t.attendance + [a], VisitorAttendanceId, t.nextAttendanceId) == Some(a);
  }

  /** The handler: a 400 exactly when the body is invalid, leaving the
      tables alone; a 201 exactly when it is valid and no store call fails,
      storing the visitor with its sanitised name and gender, its sanitised
      phone or null when none was given, and a check-in for that visitor
      with the requested service, today and the second `NOW()`. */
  lemma StepEffect(t: Tables, body: VisitorBody, today: Date, createdAt: Timestamp, checkedIn: Timestamp, fault: StoreFault)
    ensures var (resp, t') := Step(t, body, today, createdAt, checkedIn, fault);
      && (resp.Invalid? <==> ValidateVisitor(body) != [])
      && (resp.Invalid? ==> t' == t)
      && (resp.Created? <==> ValidateVisitor(body) == [] && fault == NoFault)
      && (!resp.Created? ==> t'.visitors == t.visitors && t'.attendance == t.attendance)
      && (resp.Created? ==>
            && resp.visitor.fullName == Sanitise(body.fullName)
            && resp.visitor.gender == Sanitise(body.gender)
            && (resp.visitor.phone.None? <==> Sanitise(body.phone) == "")
            && resp.attendance.visitorId == resp.visitor.id
            && resp.attendance.service == body.service.s
            && resp.attendance.serviceDate == today
            && resp.visitor.createdAt == createdAt
            && resp.attendance.checkInTime == checkedIn
            && resp.visitor.id == t.nextVisitorId
            && resp.attendance.id == t.nextAttendanceId
            && t'.nextVisitorId == t.nextVisitorId + 1
            && t'.nextAttendanceId == t.nextAttendanceId + 1
            && t'.visitors == t.visitors + [resp.visitor]
            && t'.attendance == t.attendance + [resp.attendance])
  {
    if ValidateVisitor(body) == [] {
      InsertEffect(t, Clean(body), today, createdAt, checkedIn, fault);
    }
  }

  /** Registering the same person twice is not deduplicated: two distinct
      visitors and two check-ins are added. */
  method RegisterTwice(store: VisitorStore, body: VisitorBody, today: Date,
                       created1: Timestamp, checkedIn1: Timestamp, created2: Timestamp, checkedIn2: Timestamp)
    returns (first: RegisterResponse, second: RegisterResponse)
    requires store.Valid()
    requires ValidateVisitor(body) == []
    modifies store
    ensures store.Valid()
    ensures first.Created? && second.Created?
    ensures first.visitor.id != second.visitor.id
    ensures first.attendance.id != second.attendance.id
    ensures store.visitors == old(store.visitors) + [first.visitor, second.visitor]
    ensures store.attendance == old(store.attendance) + [first.attendance, second.attendance]
  {
    ghost var t0 := store.State();
    StepEffect(t0, body, today, created1, checkedIn1, NoFault);
    first := store.Register(body, today, created1, checkedIn1, NoFault);
    ghost var t1 := store.State();
    StepEffect(t1, body, today, created2, checkedIn2, NoFault);
    second := store.Register(body, today, created2, checkedIn2, NoFault);
    AppendTwice(t0.visitors, t1.visitors, store.visitors, first.visitor, second.visitor);
    AppendTwice(t0.attendance, t1.attendance, store.attendance, first.attendance, second.attendance);
  }
}
