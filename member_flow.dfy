/** The kiosk's member panel: a search box whose input is searched after a
    pause (or at once on Enter), a hint saying what the input looks like,
    the member found or the message explaining why none was, and the
    check-in button for the member found. */
module MemberPanel {
  import opened Text
  import opened Js
  import opened Schema
  import opened Validation
  import MemberSearch
  import MemberCheckIn

  // ------------------------------------------------------------ detectType

  const BlankHint := "phone, name, or ID"
  const IdHint := "Member ID"
  const PhoneHint := "Phone Number"
  const NameHint := "Name"

  /** `/^\d+$/`: one or more ASCII digits and nothing else. */
  predicate DigitRun(t: string)
  {
    t != [] && AllDigits(t)
  }

  /** `detectType`: what the trimmed query looks like. The member-code test
      comes first, so a code is never taken for a phone number. */
  function DetectType(query: string): (hint: string)
    ensures hint == BlankHint <==> Trim(query) == ""
    ensures hint == IdHint <==> MemberSearch.IsIdTerm(Trim(query))
    ensures hint == PhoneHint <==> DigitRun(Trim(query)) && !MemberSearch.IsIdTerm(Trim(query))
    ensures hint == NameHint <==>
      Trim(query) != "" && !MemberSearch.IsIdTerm(Trim(query)) && !DigitRun(Trim(query))
  {
    var t := Trim(query);
    if t == "" then BlankHint
    else if MemberSearch.IsIdTerm(t) then IdHint
    else if DigitRun(t) then PhoneHint
    else NameHint
  }

  /** The first four characters of a member code are not whitespace. */
  lemma IdPrefixHasNoSpace(t: string)
    requires MemberSearch.IsIdTerm(t)
    ensures forall i :: 0 <= i < 4 ==> !IsSpace(t[i])
  {
    var u := Upper(t[..4]);
    forall i | 0 <= i < 4
      ensures !IsSpace(t[i])
    {
      assert u[i] == UpperChar(t[..4][i]);
      assert u[i] in "MBR-";
    }
  }

  /** The hint says "Member ID" exactly when the server, given the trimmed
      query the panel sends, takes its exact member-code branch: the
      client's test and the server's are the same `/^MBR-/i`, and the
      server's sanitising does not move the first four characters of a code. */
  lemma IdHintIsServerIdBranch(query: string)
    ensures DetectType(query) == IdHint <==> MemberSearch.IsIdTerm(Sanitise(Str(Trim(query))))
  {
    var t := Trim(query);
    TrimIdempotent(query);
    var c := Sanitise(Str(t));
    assert c == Collapse(t);
    if MemberSearch.IsIdTerm(t) {
      IdPrefixHasNoSpace(t);
      CollapseKeepsLeadingWord(t, 4);
      assert c[..4] == t[..4];
    }
    if MemberSearch.IsIdTerm(c) {
      IdPrefixHasNoSpace(c);
      LeadingWordWasThere(t, 4);
      assert c[..4] == t[..4];
    }
  }

  // ------------------------------------------------------------ HTTP replies

  /** A failed request as the panel sees it: no response at all, or a
      status with the body's `message` ("" when absent) and its `errors`
      array, if any. */
  datatype HttpError = NoResponse | Response(status: int, message: string, errors: Option<seq<string>>)

  const NotFoundFallback := "Member not found."
  const SearchFailedMessage := "Something went wrong. Please try again."
  const DuplicateFallback := "Already checked in."
  const RegisterFailedMessage := "Registration failed. Please try again."

  /** The `catch` of `doSearch`. */
  function SearchErrorMessage(e: HttpError): (m: string)
  {
    if e.Response? && e.status == 404 then (if e.message != "" then e.message else NotFoundFallback)
    else if e.Response? && e.errors.Some? then Join(e.errors.value, " ")
    else SearchFailedMessage
  }

  /** The `catch` of `handleRegister`. */
  function RegisterErrorMessage(e: HttpError): (m: string)
  {
    if e.Response? && e.status == 409 then (if e.message != "" then e.message else DuplicateFallback)
    else RegisterFailedMessage
  }

  /** How the search returned: the member of a 200, or the failure. */
  datatype SearchOutcome = Matched(member: Member) | SearchFailed(err: HttpError)

  const InternalErrorMessage := "Internal server error"

  /** The search route's responses as they reach the panel. */
  function SearchReply(r: MemberSearch.SearchResponse): SearchOutcome
  {
    match r
    case Found(m) => Matched(m)
    case BadRequest(errors) => SearchFailed(Response(400, "", Some(errors)))
    case NotFound => SearchFailed(Response(404, MemberSearch.NotFoundMessage, None))
    case ServerError => SearchFailed(Response(500, InternalErrorMessage, None))
  }

  /** The check-in route's responses as they reach the panel: nothing for a
      201, the failure otherwise. */
  function RegisterReply(r: MemberCheckIn.RegisterResponse): Option<HttpError>
  {
    match r
    case Created(_) => None
    case Invalid(errors) => Some(Response(400, "", Some(errors)))
    case AlreadyCheckedIn => Some(Response(409, MemberCheckIn.DuplicateMessage, None))
    case ServerError => Some(Response(500, InternalErrorMessage, None))
  }

  /** What the panel shows for each failure of the search route: the
      route's own not-found message for a 404, its validation messages joined
      by spaces for a 400, and the generic message for a 500 or no response. */
  lemma SearchFailuresShown(r: MemberSearch.SearchResponse)
    ensures r.NotFound? ==> SearchErrorMessage(SearchReply(r).err) == MemberSearch.NotFoundMessage
    ensures r.BadRequest? ==> SearchErrorMessage(SearchReply(r).err) == Join(r.errors, " ")
    ensures r.ServerError? ==> SearchErrorMessage(SearchReply(r).err) == SearchFailedMessage
    ensures r.Found? <==> SearchReply(r).Matched?
    ensures SearchErrorMessage(NoResponse) == SearchFailedMessage
    ensures forall errors :: SearchErrorMessage(Response(404, "", errors)) == NotFoundFallback
  {
  }

  /** What the panel shows for each failure of the check-in route: the
      route's duplicate message for a 409, the generic message for anything
      else, including a 400 whose messages the panel does not show. */
  lemma RegisterFailuresShown(r: MemberCheckIn.RegisterResponse)
    ensures r.Created? <==> RegisterReply(r).None?
    ensures r.AlreadyCheckedIn? ==> RegisterErrorMessage(RegisterReply(r).value) == MemberCheckIn.DuplicateMessage
    ensures r.Invalid? || r.ServerError? ==> RegisterErrorMessage(RegisterReply(r).value) == RegisterFailedMessage
    ensures forall errors :: RegisterErrorMessage(Response(409, "", errors)) == DuplicateFallback
  {
  }

  // ------------------------------------------------------------ the panel's state

  /** Everything the handlers change. `pending` is the debounce timer: the
      input whose search is scheduled, if any. */
  datatype Panel = Panel(
    query: string,
    member: Option<Member>,
    error: string,
    loading: bool,
    regLoading: bool,
    showSuccess: bool,
    dupError: string,
    pending: Option<string>)

  const Initial := Panel("", None, "", false, false, false, "", None)

  /** `reset`: an empty box, no member, no messages, no scheduled search. */
  function AfterReset(p: Panel): Panel
  {
    p.(query := "", member := None, error := "", dupError := "", pending := None)
  }

  /** `handleChange`: the new input replaces the member and messages, the
      scheduled search is cancelled, and a new one is scheduled unless the
      input is blank. */
  function AfterChange(p: Panel, value: string): Panel
  {
    var q := p.(query := value, member := None, error := "", dupError := "", pending := None);
    if Trim(value) == "" then q.(loading := false) else q.(pending := Some(value))
  }

  /** The first half of `doSearch`, up to the request: a blank term clears
      the member and the message and sends nothing; any other term clears
      them, marks the panel busy and sends the trimmed term. */
  function SearchStart(p: Panel, term: string): (Panel, Option<string>)
  {
    if Trim(term) == "" then (p.(member := None, error := "", loading := false), None)
    else (p.(loading := true, error := "", member := None, dupError := ""), Some(Trim(term)))
  }

  /** The debounce timer firing: the scheduled search runs. */
  function AfterPause(p: Panel): (Panel, Option<string>)
  {
    match p.pending
    case None => (p, None)
    case Some(value) => SearchStart(p.(pending := None), value)
  }

  /** `handleKeyDown`: Enter cancels the scheduled search and searches the
      box's current text at once. */
  function AfterKey(p: Panel, key: string): (Panel, Option<string>)
  {
    if key == "Enter" then SearchStart(p.(pending := None), p.query) else (p, None)
  }

  /** The second half of `doSearch`. */
  function SearchEnd(p: Panel, outcome: SearchOutcome): Panel
  {
    match outcome
    case Matched(m) => p.(member := Some(m), loading := false)
    case SearchFailed(e) => p.(error := SearchErrorMessage(e), loading := false)
  }

  /** The first half of `handleRegister`: nothing without a member;
      otherwise the button goes busy and the member's id is sent with the
      panel's service. */
  function RegisterStart(p: Panel, service: string): (Panel, Option<(int, string)>)
  {
    match p.member
    case None => (p, None)
    case Some(m) => (p.(regLoading := true, dupError := ""), Some((m.id, service)))
  }

  /** The second half of `handleRegister`: the popup on success, the
      mapped message otherwise; the button is released either way. */
  function RegisterEnd(p: Panel, failure: Option<HttpError>): Panel
  {
    match failure
    case None => p.(showSuccess := true, regLoading := false)
    case Some(e) => p.(dupError := RegisterErrorMessage(e), regLoading := false)
  }

  class MemberFlow {
    const service: string
    var query: string
    var member: Option<Member>
    var error: string
    var loading: bool
    var regLoading: bool
    var showSuccess: bool
    var dupError: string
    var pending: Option<string>

    function State(): Panel
      reads this
    {
      Panel(query, member, error, loading, regLoading, showSuccess, dupError, pending)
    }

    constructor (service: string)
      ensures this.service == service && State() == Initial
    {
      this.service := service;
      query, member, error, loading := "", None, "", false;
      regLoading, showSuccess, dupError, pending := false, false, "", None;
    }

    /** The clear button, and the timer set after a successful check-in. */
    method Reset()
      modifies this
      ensures State() == AfterReset(old(State()))
    {
      query := "";
      member := None;
      error := "";
      dupError := "";
      pending := None;
    }

    method HandleChange(value: string)
      modifies this
      ensures State() == AfterChange(old(State()), value)
    {
      query := value;
      member := None;
      error := "";
      dupError := "";
      pending := None;
      if Trim(value) == "" {
        loading := false;
        return;
      }
      pending := Some(value);
    }

    /** `doSearch(term)` up to the request; returns the `q` it sends. */
    method DoSearch(term: string) returns (sent: Option<string>)
      modifies this
      ensures (State(), sent) == SearchStart(old(State()), term)
    {
      if Trim(term) == "" {
        member := None;
        error := "";
        loading := false;
        return None;
      }
      loading := true;
      error := "";
      member := None;
      dupError := "";
      sent := Some(Trim(term));
    }

    /** The debounce timer firing. */
    method PauseElapsed() returns (sent: Option<string>)
      modifies this
      ensures (State(), sent) == AfterPause(old(State()))
    {
      if pending.None? {
        return None;
      }
      var value := pending.value;
      pending := None;
      sent := DoSearch(value);
    }

    method HandleKeyDown(key: string) returns (sent: Option<string>)
      modifies this
      ensures (State(), sent) == AfterKey(old(State()), key)
    {
      if key != "Enter" {
        return None;
      }
      pending := None;
      sent := DoSearch(query);
    }

    /** The rest of `doSearch` once the search has returned. */
    method SearchReturned(outcome: SearchOutcome)
      modifies this
      ensures State() == SearchEnd(old(State()), outcome)
    {
      match outcome {
        case Matched(m) => member := Some(m);
        case SearchFailed(e) => error := SearchErrorMessage(e);
      }
      loading := false;
    }

    /** `handleRegister` up to the request; returns the member id and
      service it sends. */
    method HandleRegister() returns (sent: Option<(int, string)>)
      modifies this
      ensures (State(), sent) == RegisterStart(old(State()), service)
    {
      if member.None? {
        return None;
      }
      regLoading := true;
      dupError := "";
      sent := Some((member.value.id, service));
    }

    /** The rest of `handleRegister` once the check-in has returned. */
    method RegisterReturned(failure: Option<HttpError>)
      modifies this
      ensures State() == RegisterEnd(old(State()), failure)
    {
      if failure.None? {
        showSuccess := true;
      } else {
        dupError := RegisterErrorMessage(failure.value);
      }
      regLoading := false;
    }
  }

  // ------------------------------------------------------------ properties

  /** A blank term sends nothing and clears the member and the message; any
      other term sends its trimmed form and clears them too. */
  lemma BlankTermSendsNothing(p: Panel, term: string)
    ensures var (p', sent) := SearchStart(p, term);
      && (sent.None? <==> Trim(term) == "")
      && (sent.Some? ==> sent.value == Trim(term) && p'.loading)
      && p'.member.None? && p'.error == ""
      && (sent.None? ==> !p'.loading && p'.dupError == p.dupError)
      && p'.query == p.query && p'.pending == p.pending
  {
  }

  /** The panel's blank guard and the server's agree: a term the panel
      sends is never blank to the server after sanitising, and the server
      accepts it exactly when it is at most 200 UTF-16 code units long. */
  lemma SentTermPassesServerBlankGuard(term: string)
    requires Trim(term) != ""
    ensures Sanitise(Str(Trim(term))) != ""
    ensures ValidateSmartSearch(Str(Trim(term))) == [] <==> JsLength(Trim(term)) <= 200
  {
    TrimIdempotent(term);
    TrimShape(term);
    SanitiseShape(Str(Trim(term)));
    TrimShape(Trim(term));
  }

  /** Typing schedules exactly one search, of the latest input, and only
      when that input is not blank; the member and messages shown for the
      previous input are cleared at once. */
  lemma ChangeSchedulesLatest(p: Panel, value: string)
    ensures var p' := AfterChange(p, value);
      && (p'.pending.Some? <==> Trim(value) != "")
      && (p'.pending.Some? ==> p'.pending.value == value)
      && p'.query == value && p'.member.None? && p'.error == "" && p'.dupError == ""
      && (Trim(value) == "" ==> !p'.loading)
  {
  }

  /** Typing and then pausing searches the trimmed input; Enter searches the
      box's text at once and leaves nothing scheduled, so the pause that
      follows sends nothing more. */
  lemma PauseOrEnterSearchesOnce(p: Panel, value: string)
    requires Trim(value) != ""
    ensures AfterPause(AfterChange(p, value)).1 == Some(Trim(value))
    ensures AfterPause(AfterChange(p, value)).0.pending.None?
    ensures var (p', sent) := AfterKey(AfterChange(p, value), "Enter");
      sent == Some(Trim(value)) && p'.pending.None? && AfterPause(p').1.None?
  {
  }

  /** A search that finds a member shows it; one that fails shows the
      mapped message; the panel is no longer busy either way. */
  lemma SearchEndShows(p: Panel, r: MemberSearch.SearchResponse)
    ensures var p' := SearchEnd(p, SearchReply(r));
      && !p'.loading
      && (r.Found? ==> p'.member == Some(r.member) && p'.error == p.error)
      && (r.NotFound? ==> p'.member == p.member && p'.error == MemberSearch.NotFoundMessage)
      && (r.BadRequest? ==> p'.error == Join(r.errors, " "))
      && (r.ServerError? ==> p'.error == SearchFailedMessage)
  {
    SearchFailuresShown(r);
  }

  /** The check-in button does nothing while no member is shown; with a
      member it sends that member's id and the panel's service. */
  lemma RegisterNeedsMember(p: Panel, service: string)
    ensures p.member.None? ==> RegisterStart(p, service) == (p, None)
    ensures p.member.Some? ==>
      RegisterStart(p, service).1 == Some((p.member.value.id, service))
      && RegisterStart(p, service).0.regLoading && RegisterStart(p, service).0.dupError == ""
  {
  }

  /** A second check-in of the same member for the same service on the same
      day shows the route's duplicate message. */
  lemma SecondCheckInShowsDuplicate(p: Panel, t: MemberCheckIn.Table, m: Member, service: string,
                                    today: Date, now1: Timestamp, now2: Timestamp)
    requires MemberCheckIn.IdsBelow(t.rows, t.nextId)
    requires MemberCheckIn.Step(t, Num(m.id), Str(service), today, now1, MemberCheckIn.NoFault).0.Created?
    ensures var t1 := MemberCheckIn.Step(t, Num(m.id), Str(service), today, now1, MemberCheckIn.NoFault).1;
      var r := MemberCheckIn.Step(t1, Num(m.id), Str(service), today, now2, MemberCheckIn.NoFault).0;
      RegisterEnd(p, RegisterReply(r)).dupError == MemberCheckIn.DuplicateMessage
  {
    MemberCheckIn.SecondCheckInRefused(t, Num(m.id), Str(service), today, now1, now2, MemberCheckIn.NoFault);
  }

  /** The service the kiosk offers but the server does not list can never
      be checked into: whatever the table, the panel shows the generic
      failure message. */
  lemma KioskOnlyServiceFails(p: Panel, t: MemberCheckIn.Table, m: Member, today: Date,
                              now: Timestamp, fault: MemberCheckIn.StoreFault)
    ensures var r := MemberCheckIn.Step(t, Num(m.id), Str(KioskOnlyService), today, now, fault).0;
      RegisterEnd(p, RegisterReply(r)).dupError == RegisterFailedMessage
  {
    KioskOnlyServiceRejected(Num(m.id), VisitorBody(Undefined, Undefined, Undefined, Undefined, Str(KioskOnlyService)));
  }
}
