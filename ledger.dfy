/** The attendance ledger behind `/history`: a PIN gate in front of every
    route, the ledger query (member and visitor check-ins projected onto one
    row shape, newest first) and the purge that empties both check-in
    tables. */
module Ledger {
  import opened Text
  import opened Js
  import opened Schema

  // ------------------------------------------------------------ PIN gate

  const ValidPin := "1234"

  const DeniedMessage := "Invalid or missing PIN. Access denied."

  /** The pin a request carries: the query's when it is truthy, otherwise
      the body's (`Undefined` when there is no body). */
  function RequestPin(queryPin: JsValue, bodyPin: JsValue): (pin: JsValue)
    ensures Truthy(queryPin) ==> pin == queryPin
    ensures !Truthy(queryPin) ==> pin == bodyPin
  {
    if Truthy(queryPin) then queryPin else bodyPin
  }

  /** `requirePin`: the request passes when its pin is present and its
      string form is exactly "1234". */
  predicate Granted(queryPin: JsValue, bodyPin: JsValue)
  {
    var pin := RequestPin(queryPin, bodyPin);
    Truthy(pin) && ToStr(pin) == ValidPin
  }

  /** A truthy query pin decides alone: a correct body pin does not rescue
      a wrong query pin, and a wrong body pin does not spoil a correct one. */
  lemma QueryPinTakesPrecedence(queryPin: JsValue, bodyPin: JsValue)
    requires Truthy(queryPin)
    ensures Granted(queryPin, bodyPin) <==> ToStr(queryPin) == ValidPin
    ensures Granted(queryPin, bodyPin) == Granted(queryPin, Undefined)
  {
  }

  /** Without a query pin, the body's pin decides; a JSON number 1234 is as
      good as the string, and a missing or empty pin is refused. */
  lemma BodyPinWhenNoQueryPin(bodyPin: JsValue)
    ensures Granted(Undefined, Str("1234"))
    ensures Granted(Str(""), Num(1234))
    ensures !Granted(Undefined, Undefined) && !Granted(Str(""), Str(""))
    ensures Granted(Undefined, bodyPin) <==> Truthy(bodyPin) && ToStr(bodyPin) == ValidPin
  {
    assert Digits(1234) == Digits(123) + ['4'];
    assert Digits(123) == Digits(12) + ['3'];
    assert Digits(12) == Digits(1) + ['2'];
  }

  // ------------------------------------------------------------ the ledger rows

  datatype Kind = MemberKind | VisitorKind

  /** The `type` column. */
  function KindLabel(k: Kind): (s: string)
    ensures s == "Member" <==> k == MemberKind
    ensures s == "Visitor" <==> k == VisitorKind
  {
    match k
    case MemberKind => "Member"
    case VisitorKind => "Visitor"
  }

  /** A row of the ledger query. */
  datatype Entry = Entry(
    name: string,
    kind: Kind,
    phone: string,
    gender: string,
    service: string,
    serviceDate: Date,
    checkInTime: Timestamp)

  /** The member half of the projection for one joined pair. */
  function MemberEntry(a: Attendance, m: Member): (e: Entry)
    ensures e.kind == MemberKind && e.name == m.firstName + " " + m.lastName
    ensures e.phone == m.phone && e.gender == m.gender
    ensures e.service == a.service && e.serviceDate == a.serviceDate && e.checkInTime == a.checkInTime
  {
    Entry(m.firstName + " " + m.lastName, MemberKind, m.phone, m.gender, a.service, a.serviceDate, a.checkInTime)
  }

  /** `COALESCE(v.phone, '-')`. */
  function PhoneOrDash(phone: Option<string>): (r: string)
    ensures phone.None? ==> r == "-"
    ensures phone.Some? ==> r == phone.value
  {
    match phone
    case None => "-"
    case Some(p) => p
  }

  /** The visitor half of the projection for one joined pair. */
  function VisitorEntry(va: VisitorAttendance, v: Visitor): (e: Entry)
    ensures e.kind == VisitorKind && e.name == v.fullName && e.phone == PhoneOrDash(v.phone)
    ensures e.gender == v.gender
    ensures e.service == va.service && e.serviceDate == va.serviceDate && e.checkInTime == va.checkInTime
  {
    Entry(v.fullName, VisitorKind, PhoneOrDash(v.phone), v.gender, va.service, va.serviceDate, va.checkInTime)
  }

  /** `JOIN members m ON a.member_id = m.id` for one attendance row. */
  function JoinMember(a: Attendance, members: seq<Member>): (r: seq<Entry>)
    ensures |r| <= |members|
    ensures forall e :: e in r ==> exists m :: m in members && m.id == a.memberId && e == MemberEntry(a, m)
  {
    if members == [] then []
    else
      var rest := JoinMember(a, members[1..]);
      if members[0].id == a.memberId then [MemberEntry(a, members[0])] + rest else rest
  }

  /** The join finds every member carrying the check-in's id. */
  lemma {:induction false} JoinMemberFindsEvery(a: Attendance, members: seq<Member>)
    ensures forall m :: m in members && m.id == a.memberId ==> MemberEntry(a, m) in JoinMember(a, members)
  {
    if members != [] {
      JoinMemberFindsEvery(a, members[1..]);
      assert forall m :: m in members && m != members[0] ==> m in members[1..];
    }
  }

  /** The member half of `HISTORY_SQL`. */
  function MemberPart(attendance: seq<Attendance>, members: seq<Member>): seq<Entry>
  {
    if attendance == [] then []
    else JoinMember(attendance[0], members) + MemberPart(attendance[1..], members)
  }

  /** `JOIN visitors v ON va.visitor_id = v.id` for one visitor check-in. */
  function JoinVisitor(va: VisitorAttendance, visitors: seq<Visitor>): (r: seq<Entry>)
    ensures |r| <= |visitors|
    ensures forall e :: e in r ==> exists v :: v in visitors && v.id == va.visitorId && e == VisitorEntry(va, v)
  {
    if visitors == [] then []
    else
      var rest := JoinVisitor(va, visitors[1..]);
      if visitors[0].id == va.visitorId then [VisitorEntry(va, visitors[0])] + rest else rest
  }

  /** The join finds every visitor carrying the check-in's id. */
  lemma {:induction false} JoinVisitorFindsEvery(va: VisitorAttendance, visitors: seq<Visitor>)
    ensures forall v :: v in visitors && v.id == va.visitorId ==> VisitorEntry(va, v) in JoinVisitor(va, visitors)
  {
    if visitors != [] {
      JoinVisitorFindsEvery(va, visitors[1..]);
      assert forall v :: v in visitors && v != visitors[0] ==> v in visitors[1..];
    }
  }

  /** The visitor half of `HISTORY_SQL`. */
  function VisitorPart(visitorAttendance: seq<VisitorAttendance>, visitors: seq<Visitor>): seq<Entry>
  {
    if visitorAttendance == [] then []
    else JoinVisitor(visitorAttendance[0], visitors) + VisitorPart(visitorAttendance[1..], visitors)
  }

  // ------------------------------------------------------------ ordering

  /** `ORDER BY service_date DESC, check_in_time DESC`: `a` may precede `b`. */
  predicate NewerOrSame(a: Entry, b: Entry)
  {
    a.serviceDate > b.serviceDate || (a.serviceDate == b.serviceDate && a.checkInTime >= b.checkInTime)
  }

  predicate NewestFirst(s: seq<Entry>)
  {
    forall i, j :: 0 <= i < j < |s| ==> NewerOrSame(s[i], s[j])
  }

  /** Places `e` in front of the first entry it may precede. */
  function InsertNewest(e: Entry, s: seq<Entry>): (r: seq<Entry>)
    ensures multiset(r) == multiset(s) + multiset{e}
  {
    if s == [] then [e]
    else if NewerOrSame(e, s[0]) then [e] + s
    else
      assert s == [s[0]] + s[1..];
      [s[0]] + InsertNewest(e, s[1..])
  }

  /** The ordering of the query, as an insertion sort over the union. The
      store leaves the order of rows with equal keys open; the model fixes
      the one this sort produces. */
  function SortNewest(s: seq<Entry>): (r: seq<Entry>)
    ensures multiset(r) == multiset(s)
  {
    if s == [] then []
    else
      assert s == [s[0]] + s[1..];
      InsertNewest(s[0], SortNewest(s[1..]))
  }

  lemma {:induction false} InsertKeepsNewestFirst(e: Entry, s: seq<Entry>)
    requires NewestFirst(s)
    ensures NewestFirst(InsertNewest(e, s))
  {
    if s != [] && !NewerOrSame(e, s[0]) {
      InsertKeepsNewestFirst(e, s[1..]);
      var r := InsertNewest(e, s);
      var tail := InsertNewest(e, s[1..]);
      assert r == [s[0]] + tail;
      forall j | 0 < j < |r|
        ensures NewerOrSame(s[0], r[j])
      {
        assert r[j] in multiset(tail);
        assert r[j] in multiset(s[1..]) + multiset{e};
        if r[j] != e {
          var k :| 0 <= k < |s[1..]| && s[1..][k] == r[j];
          assert s[k + 1] == r[j];
        }
      }
    }
  }

  lemma {:induction false} SortIsNewestFirst(s: seq<Entry>)
    ensures NewestFirst(SortNewest(s))
  {
    if s != [] {
      SortIsNewestFirst(s[1..]);
      InsertKeepsNewestFirst(s[0], SortNewest(s[1..]));
    }
  }

  /** The whole ledger query over the four tables. */
  function Rows(members: seq<Member>, attendance: seq<Attendance>, visitors: seq<Visitor>, visitorAttendance: seq<VisitorAttendance>): seq<Entry>
  {
    SortNewest(MemberPart(attendance, members) + VisitorPart(visitorAttendance, visitors))
  }

  // ------------------------------------------------------------ properties of the query

  /** Every ledger row is a projection of a stored check-in joined with the
      member or visitor it names, and the rows are newest first. */
  lemma {:induction false} RowsAreProjections(members: seq<Member>, attendance: seq<Attendance>, visitors: seq<Visitor>, visitorAttendance: seq<VisitorAttendance>)
    ensures NewestFirst(Rows(members, attendance, visitors, visitorAttendance))
    ensures forall e :: e in Rows(members, attendance, visitors, visitorAttendance) ==>
      || (exists a, m :: a in attendance && m in members && m.id == a.memberId && e == MemberEntry(a, m))
      || (exists va, v :: va in visitorAttendance && v in visitors && v.id == va.visitorId && e == VisitorEntry(va, v))
  {
    var mp, vp := MemberPart(attendance, members), VisitorPart(visitorAttendance, visitors);
    SortIsNewestFirst(mp + vp);
    MemberPartProjects(attendance, members);
    VisitorPartProjects(visitorAttendance, visitors);
    forall e | e in Rows(members, attendance, visitors, visitorAttendance)
      ensures e in mp + vp
    {
      assert e in multiset(mp + vp);
    }
  }

  lemma {:induction false} MemberPartProjects(attendance: seq<Attendance>, members: seq<Member>)
    ensures forall e :: e in MemberPart(attendance, members) ==>
      exists a, m :: a in attendance && m in members && m.id == a.memberId && e == MemberEntry(a, m)
  {
    if attendance != [] {
      MemberPartProjects(attendance[1..], members);
      forall e | e in MemberPart(attendance, members)
        ensures exists a, m :: a in attendance && m in members && m.id == a.memberId && e == MemberEntry(a, m)
      {
        if e in JoinMember(attendance[0], members) {
          var m :| m in members && m.id == attendance[0].memberId && e == MemberEntry(attendance[0], m);
        } else {
          assert e in MemberPart(attendance[1..], members);
          var a, m :| a in attendance[1..] && m in members && m.id == a.memberId && e == MemberEntry(a, m);
          assert a in attendance;
        }
      }
    }
  }

  lemma {:induction false} VisitorPartProjects(visitorAttendance: seq<VisitorAttendance>, visitors: seq<Visitor>)
    ensures forall e :: e in VisitorPart(visitorAttendance, visitors) ==>
      exists va, v :: va in visitorAttendance && v in visitors && v.id == va.visitorId && e == VisitorEntry(va, v)
  {
    if visitorAttendance != [] {
      VisitorPartProjects(visitorAttendance[1..], visitors);
      forall e | e in VisitorPart(visitorAttendance, visitors)
        ensures exists va, v :: va in visitorAttendance && v in visitors && v.id == va.visitorId && e == VisitorEntry(va, v)
      {
        if e in JoinVisitor(visitorAttendance[0], visitors) {
          var v :| v in visitors && v.id == visitorAttendance[0].visitorId && e == VisitorEntry(visitorAttendance[0], v);
        } else {
          assert e in VisitorPart(visitorAttendance[1..], visitors);
          var va, v :| va in visitorAttendance[1..] && v in visitors && v.id == va.visitorId && e == VisitorEntry(va, v);
          assert va in visitorAttendance;
        }
      }
    }
  }

  /** Exactly one member carries the id `key`. */
  predicate OneMemberWithId(members: seq<Member>, key: int)
  {
    exists i :: 0 <= i < |members| && members[i].id == key &&
      forall j :: 0 <= j < |members| && j != i ==> members[j].id != key
  }

  lemma {:induction false} JoinOneMember(a: Attendance, members: seq<Member>, i: nat)
    requires i < |members| && members[i].id == a.memberId
    requires forall j :: 0 <= j < |members| && j != i ==> members[j].id != a.memberId
    ensures JoinMember(a, members) == [MemberEntry(a, members[i])]
  {
    if i == 0 {
      JoinNoMember(a, members[1..]);
    } else {
      JoinOneMember(a, members[1..], i - 1);
    }
  }

  lemma {:induction false} JoinNoMember(a: Attendance, members: seq<Member>)
    requires forall j :: 0 <= j < |members| ==> members[j].id != a.memberId
    ensures JoinMember(a, members) == []
  {
    if members != [] {
      JoinNoMember(a, members[1..]);
    }
  }

  /** When every check-in names exactly one member, the member half holds
      one row per check-in, in table order: the check-in joined with its
      member. */
  lemma {:induction false} MemberPartOnePerCheckIn(attendance: seq<Attendance>, members: seq<Member>)
    requires forall k :: 0 <= k < |attendance| ==> OneMemberWithId(members, attendance[k].memberId)
    ensures |MemberPart(attendance, members)| == |attendance|
    ensures forall k, j :: 0 <= k < |attendance| && 0 <= j < |members| && members[j].id == attendance[k].memberId ==>
      MemberPart(attendance, members)[k] == MemberEntry(attendance[k], members[j])
  {
    if attendance != [] {
      var i :| 0 <= i < |members| && members[i].id == attendance[0].memberId &&
        forall j :: 0 <= j < |members| && j != i ==> members[j].id != attendance[0].memberId;
      JoinOneMember(attendance[0], members, i);
      MemberPartOnePerCheckIn(attendance[1..], members);
      var r := MemberPart(attendance, members);
      var rest := MemberPart(attendance[1..], members);
      assert r == [MemberEntry(attendance[0], members[i])] + rest;
      forall k, j | 0 < k < |attendance| && 0 <= j < |members| && members[j].id == attendance[k].memberId
        ensures r[k] == MemberEntry(attendance[k], members[j])
      {
        assert r[k] == rest[k - 1];
        assert attendance[1..][k - 1] == attendance[k];
      }
    }
  }

  /** Exactly one visitor carries the id `key`. */
  predicate OneVisitorWithId(visitors: seq<Visitor>, key: int)
  {
    exists i :: 0 <= i < |visitors| && visitors[i].id == key &&
      forall j :: 0 <= j < |visitors| && j != i ==> visitors[j].id != key
  }

  lemma {:induction false} JoinOneVisitor(va: VisitorAttendance, visitors: seq<Visitor>, i: nat)
    requires i < |visitors| && visitors[i].id == va.visitorId
    requires forall j :: 0 <= j < |visitors| && j != i ==> visitors[j].id != va.visitorId
    ensures JoinVisitor(va, visitors) == [VisitorEntry(va, visitors[i])]
  {
    if i == 0 {
      JoinNoVisitor(va, visitors[1..]);
    } else {
      JoinOneVisitor(va, visitors[1..], i - 1);
    }
  }

  lemma {:induction false} JoinNoVisitor(va: VisitorAttendance, visitors: seq<Visitor>)
    requires forall j :: 0 <= j < |visitors| ==> visitors[j].id != va.visitorId
    ensures JoinVisitor(va, visitors) == []
  {
    if visitors != [] {
      JoinNoVisitor(va, visitors[1..]);
    }
  }

  /** When every visitor check-in names exactly one visitor, the visitor
      half holds one row per check-in, in table order: the check-in joined
      with its visitor. */
  lemma {:induction false} VisitorPartOnePerCheckIn(visitorAttendance: seq<VisitorAttendance>, visitors: seq<Visitor>)
    requires forall k :: 0 <= k < |visitorAttendance| ==> OneVisitorWithId(visitors, visitorAttendance[k].visitorId)
    ensures |VisitorPart(visitorAttendance, visitors)| == |visitorAttendance|
    ensures forall k, j :: 0 <= k < |visitorAttendance| && 0 <= j < |visitors| && visitors[j].id == visitorAttendance[k].visitorId ==>
      VisitorPart(visitorAttendance, visitors)[k] == VisitorEntry(visitorAttendance[k], visitors[j])
  {
    if visitorAttendance != [] {
      var i :| 0 <= i < |visitors| && visitors[i].id == visitorAttendance[0].visitorId &&
        forall j :: 0 <= j < |visitors| && j != i ==> visitors[j].id != visitorAttendance[0].visitorId;
      JoinOneVisitor(visitorAttendance[0], visitors, i);
      VisitorPartOnePerCheckIn(visitorAttendance[1..], visitors);
      var r := VisitorPart(visitorAttendance, visitors);
      var rest := VisitorPart(visitorAttendance[1..], visitors);
      assert r == [VisitorEntry(visitorAttendance[0], visitors[i])] + rest;
      forall k, j | 0 < k < |visitorAttendance| && 0 <= j < |visitors| && visitors[j].id == visitorAttendance[k].visitorId
        ensures r[k] == VisitorEntry(visitorAttendance[k], visitors[j])
      {
        assert r[k] == rest[k - 1];
        assert visitorAttendance[1..][k - 1] == visitorAttendance[k];
      }
    }
  }

  lemma {:induction false} MemberPartHoldsEveryCheckIn(attendance: seq<Attendance>, members: seq<Member>)
    ensures forall a, m :: a in attendance && m in members && m.id == a.memberId ==>
      MemberEntry(a, m) in MemberPart(attendance, members)
  {
    if attendance != [] {
      MemberPartHoldsEveryCheckIn(attendance[1..], members);
      JoinMemberFindsEvery(attendance[0], members);
      forall a, m | a in attendance && m in members && m.id == a.memberId
        ensures MemberEntry(a, m) in MemberPart(attendance, members)
      {
        if a != attendance[0] {
          assert a in attendance[1..];
        }
      }
    }
  }

  lemma {:induction false} VisitorPartHoldsEveryCheckIn(visitorAttendance: seq<VisitorAttendance>, visitors: seq<Visitor>)
    ensures forall va, v :: va in visitorAttendance && v in visitors && v.id == va.visitorId ==>
      VisitorEntry(va, v) in VisitorPart(visitorAttendance, visitors)
  {
    if visitorAttendance != [] {
      VisitorPartHoldsEveryCheckIn(visitorAttendance[1..], visitors);
      JoinVisitorFindsEvery(visitorAttendance[0], visitors);
      forall va, v | va in visitorAttendance && v in visitors && v.id == va.visitorId
        ensures VisitorEntry(va, v) in VisitorPart(visitorAttendance, visitors)
      {
        if va != visitorAttendance[0] {
          assert va in visitorAttendance[1..];
        }
      }
    }
  }

  /** Every stored check-in, joined with the member or visitor it names,
      appears in the ledger: the union loses nothing. */
  lemma LedgerHoldsEveryCheckIn(members: seq<Member>, attendance: seq<Attendance>, visitors: seq<Visitor>, visitorAttendance: seq<VisitorAttendance>)
    ensures forall a, m :: a in attendance && m in members && m.id == a.memberId ==>
      MemberEntry(a, m) in Rows(members, attendance, visitors, visitorAttendance)
    ensures forall va, v :: va in visitorAttendance && v in visitors && v.id == va.visitorId ==>
      VisitorEntry(va, v) in Rows(members, attendance, visitors, visitorAttendance)
  {
    var mp, vp := MemberPart(attendance, members), VisitorPart(visitorAttendance, visitors);
    var rows := Rows(members, attendance, visitors, visitorAttendance);
    MemberPartHoldsEveryCheckIn(attendance, members);
    VisitorPartHoldsEveryCheckIn(visitorAttendance, visitors);
    forall e | e in mp + vp
      ensures e in rows
    {
      assert e in multiset(rows);
    }
  }

  // ------------------------------------------------------------ routes

  datatype HistoryResponse =
    | Unauthorized                 // 401
    | Records(rows: seq<Entry>)    // 200
    | ServerError                  // 500

  datatype PurgeResponse =
    | PurgeUnauthorized            // 401
    | Purged                       // 200
    | PurgeFailed                  // 500 "Failed to delete history"

  /** Which TRUNCATE fails, if any. */
  datatype PurgeFault = NoFault | AttendanceTruncateFails | VisitorTruncateFails

  /** The four tables, as the backend's store holds them. */
  class Store {
    var members: seq<Member>
    var attendance: seq<Attendance>
    var visitors: seq<Visitor>
    var visitorAttendance: seq<VisitorAttendance>

    constructor (members: seq<Member>, attendance: seq<Attendance>, visitors: seq<Visitor>, visitorAttendance: seq<VisitorAttendance>)
      ensures this.members == members && this.attendance == attendance
      ensures this.visitors == visitors && this.visitorAttendance == visitorAttendance
    {
      this.members, this.attendance := members, attendance;
      this.visitors, this.visitorAttendance := visitors, visitorAttendance;
    }

    function Ledger(): seq<Entry>
      reads this
    {
      Rows(members, attendance, visitors, visitorAttendance)
    }

    /** `GET /history`: the ledger, or 500 when the query fails. */
    method History(queryPin: JsValue, bodyPin: JsValue, queryFails: bool) returns (resp: HistoryResponse)
      ensures resp.Unauthorized? <==> !Granted(queryPin, bodyPin)
      ensures resp.ServerError? <==> Granted(queryPin, bodyPin) && queryFails
      ensures resp.Records? ==> resp.rows == Ledger() && NewestFirst(resp.rows)
    {
      if !Granted(queryPin, bodyPin) {
        return Unauthorized;
      }
      if queryFails {
        return ServerError;
      }
      SortIsNewestFirst(MemberPart(attendance, members) + VisitorPart(visitorAttendance, visitors));
      resp := Records(Ledger());
    }

    /** `DELETE /history`: TRUNCATE attendance, then TRUNCATE
        visitor_attendance, as two separate statements. */
    method Purge(queryPin: JsValue, bodyPin: JsValue, fault: PurgeFault) returns (resp: PurgeResponse)
      modifies this
      ensures members == old(members) && visitors == old(visitors)
      ensures resp.PurgeUnauthorized? <==> !Granted(queryPin, bodyPin)
      ensures resp.Purged? <==> Granted(queryPin, bodyPin) && fault == NoFault
      ensures resp.Purged? ==> attendance == [] && visitorAttendance == []
      ensures resp.PurgeUnauthorized? || fault == AttendanceTruncateFails ==>
        attendance == old(attendance) && visitorAttendance == old(visitorAttendance)
      ensures resp.PurgeFailed? && fault == VisitorTruncateFails ==>
        attendance == [] && visitorAttendance == old(visitorAttendance)
    {
      if !Granted(queryPin, bodyPin) {
        return PurgeUnauthorized;
      }
      if fault == AttendanceTruncateFails {
        return PurgeFailed;
      }
      attendance := [];
      if fault == VisitorTruncateFails {
        return PurgeFailed;
      }
      visitorAttendance := [];
      resp := Purged;
    }
  }

  /** After a successful purge the ledger is empty, whatever the members
      and visitors tables hold. */
  lemma PurgedLedgerIsEmpty(members: seq<Member>, visitors: seq<Visitor>)
    ensures Rows(members, [], visitors, []) == []
  {
  }
}
