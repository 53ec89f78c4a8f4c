/** The backend's shared request validators: the fixed service and gender
    enumerations, `sanitise`, and the four validators that each build an
    ordered list of error messages. */
module Validation {
  import opened Text
  import opened Js

  const Services: seq<string> := [
    "Sunday Morning Service",
    "Sunday Mid Service",
    "Mid-Week Service",
    "Lunch-Hour Service",
    "Special Service"
  ]

  const Genders: seq<string> := ["Male", "Female", "Other"]

  const SearchFields: seq<string> := ["phone", "member_id", "name"]

  /** The service name the kiosk's service picker offers that the backend
      does not list. */
  const KioskOnlyService: string := "Sunday Mid-Morning Service"

  predicate IsService(v: JsValue)
  {
    v.Str? && v.s in Services
  }

  // ---------------------------------------------------------------- sanitise

  /** `sanitise`: '' for anything that is not a string, otherwise the string
      trimmed with every inner whitespace run replaced by one space. */
  function Sanitise(v: JsValue): (r: string)
    ensures !v.Str? ==> r == ""
  {
    if v.Str? then Collapse(Trim(v.s)) else ""
  }

  /** Sanitising a string keeps its words and puts exactly one space
      between neighbouring words. */
  lemma SanitiseJoinsWords(s: string)
    ensures Sanitise(Str(s)) == Join(WordList(s), " ")
  {
    CollapseTrimJoinsWords(s);
  }

  /** The sanitised form is empty exactly for blank strings; it is the
      string's words joined by single spaces, so it has no whitespace at
      either end and no whitespace run longer than one space. */
  lemma SanitiseShape(v: JsValue)
    ensures v.Str? ==> (Sanitise(v) == "" <==> AllSpace(v.s))
    ensures v.Str? ==> Sanitise(v) == Join(WordList(v.s), " ")
    ensures Normalised(Sanitise(v))
  {
    if v.Str? {
      TrimShape(v.s);
      SanitiseJoinsWords(v.s);
    }
  }

  /** A normalised string is its own sanitised form. */
  lemma SanitiseFixesNormalised(s: string)
    requires Normalised(s)
    ensures Sanitise(Str(s)) == s
  {
    assert TrimStart(s) == s;
    assert TrimEnd(s) == s;
    CollapseFixed(s);
  }

  lemma SanitiseIdempotent(v: JsValue)
    ensures Sanitise(Str(Sanitise(v))) == Sanitise(v)
  {
    SanitiseShape(v);
    SanitiseFixesNormalised(Sanitise(v));
  }

  /** The characters of `s` that are not whitespace, in order. */
  function NonSpaceChars(s: string): (r: string)
    ensures |r| <= |s|
  {
    if s == [] then []
    else if IsSpace(s[0]) then NonSpaceChars(s[1..])
    else [s[0]] + NonSpaceChars(s[1..])
  }

  lemma {:induction false} NonSpaceAppend(a: string, b: string)
    ensures NonSpaceChars(a + b) == NonSpaceChars(a) + NonSpaceChars(b)
    decreases |a|
  {
    if a != [] {
      assert (a + b)[0] == a[0];
      assert (a + b)[1..] == a[1..] + b;
      NonSpaceAppend(a[1..], b);
      if IsSpace(a[0]) {
        assert NonSpaceChars(a + b) == NonSpaceChars(a[1..] + b);
      } else {
        assert NonSpaceChars(a + b) == [a[0]] + NonSpaceChars(a[1..] + b);
        assert NonSpaceChars(a) == [a[0]] + NonSpaceChars(a[1..]);
      }
    } else {
      assert a + b == b;
    }
  }

  lemma {:induction false} WordsOfSpaces(s: string)
    requires AllSpace(s)
    ensures NonSpaceChars(s) == []
    decreases |s|
  {
    if s != [] {
      WordsOfSpaces(s[1..]);
    }
  }

  lemma {:induction false} NonSpaceTrimStart(s: string)
    ensures NonSpaceChars(TrimStart(s)) == NonSpaceChars(s)
    decreases |s|
  {
    if s != [] && IsSpace(s[0]) {
      NonSpaceTrimStart(s[1..]);
    }
  }

  lemma {:induction false} NonSpaceTrimEnd(s: string)
    ensures NonSpaceChars(TrimEnd(s)) == NonSpaceChars(s)
    decreases |s|
  {
    if s != [] && IsSpace(s[|s| - 1]) {
      var init := s[..|s| - 1];
      NonSpaceTrimEnd(init);
      assert s == init + [s[|s| - 1]];
      NonSpaceAppend(init, [s[|s| - 1]]);
    }
  }

  lemma NonSpaceTrim(s: string)
    ensures NonSpaceChars(Trim(s)) == NonSpaceChars(s)
  {
    NonSpaceTrimStart(s);
    NonSpaceTrimEnd(TrimStart(s));
  }

  lemma {:induction false} NonSpaceCollapse(s: string)
    ensures NonSpaceChars(Collapse(s)) == NonSpaceChars(s)
    decreases |s|
  {
    if s == [] {
    } else if IsSpace(s[0]) {
      var rest := TrimStart(s);
      TrimStartSuffix(s);
      assert s == s[..|s| - |rest|] + rest;
      NonSpaceAppend(s[..|s| - |rest|], rest);
      WordsOfSpaces(s[..|s| - |rest|]);
      NonSpaceCollapse(rest);
      assert Collapse(s) == [' '] + Collapse(rest);
      NonSpaceAppend([' '], Collapse(rest));
    } else {
      NonSpaceCollapse(s[1..]);
      assert Collapse(s) == [s[0]] + Collapse(s[1..]);
      NonSpaceAppend([s[0]], Collapse(s[1..]));
    }
  }

  /** Sanitising only removes or rewrites whitespace: the text between the
      whitespace is kept, in order. */
  lemma SanitiseKeepsNonSpace(s: string)
    ensures NonSpaceChars(Sanitise(Str(s))) == NonSpaceChars(s)
  {
    NonSpaceCollapse(Trim(s));
    NonSpaceTrim(s);
  }

  // ------------------------------------------------------------- messages

  /** The validation failures, one per message the validators can push. */
  datatype Failure =
    | SearchByInvalid | QueryRequired | QueryTooLong
    | MemberIdInvalid | ServiceInvalid
    | FullNameRequired | FullNameTooLong | PhoneInvalid | GenderInvalid | FirstTimeInvalid
    | QRequired | QTooLong

  /** The text sent back for each failure. */
  function Message(f: Failure): string
  {
    match f
    case SearchByInvalid => "searchBy must be one of: phone, member_id, name"
    case QueryRequired => "query is required and cannot be empty"
    case QueryTooLong => "query must be under 200 characters"
    case MemberIdInvalid => "member_id must be a positive integer"
    case ServiceInvalid => "service must be one of: " + Join(Services, ", ")
    case FullNameRequired => "full_name is required (min 2 characters)"
    case FullNameTooLong => "full_name must be under 200 characters"
    case PhoneInvalid => "phone must be a valid phone number (6–20 characters, digits only)"
    case GenderInvalid => "gender must be one of: " + Join(Genders, ", ")
    case FirstTimeInvalid => "first_time must be a boolean (true or false)"
    case QRequired => "q is required and cannot be empty"
    case QTooLong => "q must be under 200 characters"
  }

  function Messages(fs: seq<Failure>): (r: seq<string>)
    ensures |r| == |fs|
  {
    if fs == [] then [] else [Message(fs[0])] + Messages(fs[1..])
  }

  // ------------------------------------------------------------- validators

  /** `if (failed) errors.push(f)`: the one-element list [f] when the check
      failed, otherwise nothing. */
  function Push(failed: bool, f: Failure): (r: seq<Failure>)
    ensures f in r <==> failed
    ensures forall g :: g in r ==> g == f
    ensures |r| <= 1
  {
    if failed then [f] else []
  }

  /** The checks of `validateMemberSearch`, in order, given whether `q` is
      truthy and what it sanitises to. */
  function MemberSearchChecks(searchBy: JsValue, qTruthy: bool, term: string): (errors: seq<Failure>)
    ensures (SearchByInvalid in errors) <==> !(searchBy.Str? && searchBy.s in SearchFields)
    ensures (QueryRequired in errors) <==> !qTruthy || term == ""
    ensures (QueryTooLong in errors) <==> JsLength(term) > 200
    ensures errors == [] <==> searchBy.Str? && searchBy.s in SearchFields && qTruthy && 0 < JsLength(term) <= 200
  {
    var fieldOk := searchBy.Str? && searchBy.s in SearchFields;
    assert fieldOk ==> Truthy(searchBy);
    Push(!Truthy(searchBy) || !fieldOk, SearchByInvalid)
    + Push(!qTruthy || JsLength(term) == 0, QueryRequired)
    + Push(JsLength(term) > 200, QueryTooLong)
  }

  /** `validateMemberSearch`: the search field must be one of the three
      names; the sanitised query must be non-empty and at most 200 UTF-16
      code units long. */
  function ValidateMemberSearch(searchBy: JsValue, q: JsValue): (errors: seq<Failure>)
    ensures (SearchByInvalid in errors) <==> !(searchBy.Str? && searchBy.s in SearchFields)
    ensures (QueryRequired in errors) <==> Sanitise(q) == ""
    ensures errors == [] <==> searchBy.Str? && searchBy.s in SearchFields && 0 < JsLength(Sanitise(q)) <= 200
  {
    assert !Truthy(q) ==> Sanitise(q) == "";
    MemberSearchChecks(searchBy, Truthy(q), Sanitise(q))
  }

  /** `validateAttendance`: a positive integer member id and a listed
      service; the member error, when present, comes first. */
  function ValidateAttendance(memberId: JsValue, service: JsValue): (errors: seq<Failure>)
    ensures errors == [] <==> memberId.Num? && memberId.n >= 1 && IsService(service)
    ensures |errors| <= 2
    ensures (MemberIdInvalid in errors) <==> !(memberId.Num? && memberId.n >= 1)
    ensures (ServiceInvalid in errors) <==> !IsService(service)
    ensures errors != [] && !(memberId.Num? && memberId.n >= 1) ==> errors[0] == MemberIdInvalid
  {
    Push(!Truthy(memberId) || !(memberId.Num? || memberId.NonInteger?) || !memberId.Num? || memberId.n < 1,
         MemberIdInvalid)
    + Push(!Truthy(service) || !IsService(service), ServiceInvalid)
  }

  /** The request body of a visitor registration. */
  datatype VisitorBody = VisitorBody(
    fullName: JsValue, phone: JsValue, gender: JsValue, firstTime: JsValue, service: JsValue)

  predicate PhoneChar(c: char)
  {
    IsDigit(c) || IsSpace(c) || c == '-' || c == '+' || c == '(' || c == ')'
  }

  /** `/^[\d\s\-+()]{6,20}$/`. */
  predicate PhonePattern(s: string)
  {
    6 <= |s| <= 20 && forall i :: 0 <= i < |s| ==> PhoneChar(s[i])
  }

  /** The conditions under which `validateVisitor` reports nothing. */
  predicate VisitorAcceptable(body: VisitorBody)
  {
    var name := Sanitise(body.fullName);
    var phone := Sanitise(body.phone);
    && 2 <= JsLength(name) <= 200
    && (phone == "" || PhonePattern(phone))
    && Sanitise(body.gender) in Genders
    && body.firstTime.Bool?
    && IsService(body.service)
  }

  /** Where each visitor message is pushed in `validateVisitor`. */
  function VisitorRank(f: Failure): nat
  {
    match f
    case FullNameRequired => 0
    case FullNameTooLong => 1
    case PhoneInvalid => 2
    case GenderInvalid => 3
    case FirstTimeInvalid => 4
    case _ => 5
  }

  /** The messages `validateVisitor` can push, in the order its checks run. */
  const VisitorOrder: seq<Failure> :=
    [FullNameRequired, FullNameTooLong, PhoneInvalid, GenderInvalid, FirstTimeInvalid, ServiceInvalid]

  /** The messages pushed by the first `|failed|` visitor checks, where
      `failed[i]` says whether check `i` failed. */
  function VisitorPushes(failed: seq<bool>): (errors: seq<Failure>)
    requires |failed| <= |VisitorOrder|
    decreases |failed|
  {
    if failed == [] then []
    else
      var n := |failed| - 1;
      VisitorPushes(failed[..n]) + Push(failed[n], VisitorOrder[n])
  }

  /** The messages are listed in strictly increasing push position. */
  predicate InPushOrder(errors: seq<Failure>)
  {
    forall i, j :: 0 <= i < j < |errors| ==> VisitorRank(errors[i]) < VisitorRank(errors[j])
  }

  /** Every message in the list was pushed before position `k`. */
  predicate PushedBefore(errors: seq<Failure>, k: nat)
  {
    forall i :: 0 <= i < |errors| ==> VisitorRank(errors[i]) < k
  }

  /** One more guarded push, by a later check, keeps the list in order. */
  lemma PushKeepsOrder(errors: seq<Failure>, failed: bool, f: Failure)
    requires InPushOrder(errors) && PushedBefore(errors, VisitorRank(f))
    ensures InPushOrder(errors + Push(failed, f))
    ensures PushedBefore(errors + Push(failed, f), VisitorRank(f) + 1)
  {
  }

  /** The visitor messages come in the order the checks push them, which is
      the order the client shows them in once joined. */
  lemma {:induction false} VisitorPushesInOrder(failed: seq<bool>)
    requires |failed| <= |VisitorOrder|
    ensures InPushOrder(VisitorPushes(failed))
    ensures PushedBefore(VisitorPushes(failed), |failed|)
  {
    if failed != [] {
      var n := |failed| - 1;
      VisitorPushesInOrder(failed[..n]);
      assert VisitorRank(VisitorOrder[n]) == n;
      PushKeepsOrder(VisitorPushes(failed[..n]), failed[n], VisitorOrder[n]);
    }
  }

  /** What a guarded push adds to the list before it. */
  lemma PushedMessages(earlier: seq<Failure>, failed: bool, f: Failure, g: Failure)
    ensures g in earlier + Push(failed, f) <==> g in earlier || (failed && g == f)
  {
  }

  /** The message of check `i` is reported exactly when that check failed. */
  lemma {:induction false} VisitorPushReported(failed: seq<bool>, i: nat)
    requires |failed| <= |VisitorOrder| && i < |failed|
    ensures VisitorOrder[i] in VisitorPushes(failed) <==> failed[i]
  {
    var n := |failed| - 1;
    var earlier := VisitorPushes(failed[..n]);
    VisitorPushesInOrder(failed[..n]);
    PushedMessages(earlier, failed[n], VisitorOrder[n], VisitorOrder[i]);
    assert VisitorRank(VisitorOrder[i]) == i;
    if i < n {
      VisitorPushReported(failed[..n], i);
      assert failed[..n][i] == failed[i];
    } else {
      assert VisitorOrder[n] !in earlier;
    }
  }

  /** Nothing is reported exactly when no check failed. */
  lemma {:induction false} VisitorPushesEmpty(failed: seq<bool>)
    requires |failed| <= |VisitorOrder|
    ensures VisitorPushes(failed) == [] <==> forall i :: 0 <= i < |failed| ==> !failed[i]
  {
    if failed != [] {
      var n := |failed| - 1;
      VisitorPushesEmpty(failed[..n]);
      assert forall i :: 0 <= i < n ==> failed[..n][i] == failed[i];
    }
  }

  /** The six visitor checks' pushes, message by message. */
  lemma SixPushes(failed: seq<bool>)
    requires |failed| == |VisitorOrder|
    ensures failed[0] == (FullNameRequired in VisitorPushes(failed))
    ensures failed[1] == (FullNameTooLong in VisitorPushes(failed))
    ensures failed[2] == (PhoneInvalid in VisitorPushes(failed))
    ensures failed[3] == (GenderInvalid in VisitorPushes(failed))
    ensures failed[4] == (FirstTimeInvalid in VisitorPushes(failed))
    ensures failed[5] == (ServiceInvalid in VisitorPushes(failed))
    ensures (VisitorPushes(failed) == []) == (!failed[0] && !failed[1] && !failed[2] && !failed[3] && !failed[4] && !failed[5])
    ensures InPushOrder(VisitorPushes(failed))
  {
    VisitorPushReported(failed, 0);
    VisitorPushReported(failed, 1);
    VisitorPushReported(failed, 2);
    VisitorPushReported(failed, 3);
    VisitorPushReported(failed, 4);
    VisitorPushReported(failed, 5);
    VisitorPushesEmpty(failed);
    VisitorPushesInOrder(failed);
  }

  /** The messages of the six visitor checks, given which of them failed. */
  function VisitorOutcome(name: bool, tooLong: bool, phone: bool, gender: bool, firstTime: bool, service: bool)
    : (errors: seq<Failure>)
    ensures (FullNameRequired in errors) <==> name
    ensures (FullNameTooLong in errors) <==> tooLong
    ensures (PhoneInvalid in errors) <==> phone
    ensures (GenderInvalid in errors) <==> gender
    ensures (FirstTimeInvalid in errors) <==> firstTime
    ensures (ServiceInvalid in errors) <==> service
    ensures errors == [] <==> !name && !tooLong && !phone && !gender && !firstTime && !service
    ensures InPushOrder(errors)
  {
    var failed := [name, tooLong, phone, gender, firstTime, service];
    SixPushes(failed);
    VisitorPushes(failed)
  }

  /** The checks of `validateVisitor`, in order, over the already
      sanitised name, phone and gender. */
  function VisitorChecks(fullName: string, phone: string, gender: string, firstTime: JsValue, service: JsValue)
    : (errors: seq<Failure>)
    ensures (FullNameRequired in errors) <==> JsLength(fullName) < 2
    ensures (FullNameTooLong in errors) <==> JsLength(fullName) > 200
    ensures (PhoneInvalid in errors) <==> phone != "" && !PhonePattern(phone)
    ensures (GenderInvalid in errors) <==> gender !in Genders
    ensures (FirstTimeInvalid in errors) <==> !firstTime.Bool?
    ensures (ServiceInvalid in errors) <==> !IsService(service)
    ensures errors == [] <==>
      2 <= JsLength(fullName) <= 200 && (phone == "" || PhonePattern(phone)) && gender in Genders
      && firstTime.Bool? && IsService(service)
    ensures InPushOrder(errors)
  {
    VisitorOutcome(
      fullName == "" || JsLength(fullName) < 2,
      JsLength(fullName) > 200,
      phone != "" && !PhonePattern(phone),
      gender == "" || gender !in Genders,
      firstTime != Bool(true) && firstTime != Bool(false),
      !Truthy(service) || !IsService(service))
  }

  /** `validateVisitor`: the checks above applied to the sanitised name,
      phone and gender. */
  function ValidateVisitor(body: VisitorBody): (errors: seq<Failure>)
    ensures errors == [] <==> VisitorAcceptable(body)
    ensures (ServiceInvalid in errors) <==> !IsService(body.service)
  {
    VisitorChecks(Sanitise(body.fullName), Sanitise(body.phone), Sanitise(body.gender), body.firstTime, body.service)
  }

  /** `validateSmartSearch`: `q` must be present and String(q), trimmed,
      must have 1 to 200 UTF-16 code units. */
  function ValidateSmartSearch(q: JsValue): (errors: seq<Failure>)
    ensures errors == [] <==> !q.Undefined? && !q.Null? && 0 < JsLength(Trim(ToStr(q))) <= 200
    ensures (QRequired in errors) <==> q.Undefined? || q.Null? || Trim(ToStr(q)) == ""
  {
    var text := Trim(ToStr(q));
    Push(q.Undefined? || q.Null? || JsLength(text) == 0, QRequired)
    + Push(Truthy(q) && JsLength(text) > 200, QTooLong)
  }

  /** The service the kiosk offers as "Sunday Mid-Morning Service" is not a
      listed service, so every check-in for it is refused. */
  lemma KioskOnlyServiceRejected(memberId: JsValue, body: VisitorBody)
    requires body.service == Str(KioskOnlyService)
    ensures ServiceInvalid in ValidateAttendance(memberId, Str(KioskOnlyService))
    ensures ServiceInvalid in ValidateVisitor(body)
  {
    assert !IsService(Str(KioskOnlyService));
  }
}
