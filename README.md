# Church attendance system — a verified model

This project models the rules of a church check-in kiosk and its backend in
Dafny, and proves properties about them. The system has two parts: an
Express/MySQL backend and a React kiosk.

The backend model covers:
- the request validators and `sanitise`;
- the member search (`GET /members/search`);
- member check-in (`POST /attendance/register`);
- visitor registration (`POST /visitors/register`), a two-insert transaction;
- the PIN-protected history routes: the merged ledger, the purge, and the PDF paginator.

The kiosk model covers:
- the four-slot PIN pad;
- the visitor form: its client-side check, the payload it sends, and the screen state its handlers leave;
- the member panel: the search-hint classifier, the debounced search, and the error-message mapping.

Tables are sequences of rows. Auto-increment counters are explicit fields. Today's date and `NOW()` are parameters. So is every way a store call can fail. Each route or kiosk handler that changes state is a method, proved against a pure function of the state before the call. The properties are then proved as lemmas about that function.

Modules, one per source file plus shared helpers:

| file | module | models |
|---|---|---|
| `text.dfy` | `Text` | JavaScript's whitespace class, `trim`, `replace(/\s+/g, ' ')`, ASCII `toUpperCase`, `join` |
| `js.dfy` | `Js` | JSON/JS values, truthiness, `String()` |
| `schema.dfy` | `Schema` | the rows of `members`, `attendance`, `visitors`, `visitor_attendance` |
| `validation.dfy` | `Validation` | `backend/src/middleware/validation.js` |
| `members.dfy` | `MemberSearch` | `backend/src/routes/members.js` |
| `attendance.dfy` | `MemberCheckIn` | `backend/src/routes/attendance.js` (class `AttendanceStore`) |
| `visitors.dfy` | `VisitorRegistration` | `backend/src/routes/visitors.js` (class `VisitorStore`) |
| `ledger.dfy` | `Ledger` | `backend/src/routes/history.js`: PIN gate, ledger query, purge (class `Store`) |
| `report.dfy` | `Report` | `backend/src/routes/history.js`: the `/pdf` layout loop |
| `pin_modal.dfy` | `PinEntry` | `frontend/src/components/PinModal.js` (class `PinModal`, array of four slots) |
| `visitor_flow.dfy` | `VisitorForm` | `frontend/src/components/VisitorFlow.js` (class `VisitorFlow`) |
| `member_flow.dfy` | `MemberPanel` | `frontend/src/components/MemberFlow.js` (class `MemberFlow`) |

## Model

| member | source | states |
|---|---|---|
| Text.TrimShape | backend/src/middleware/validation.js:18 | trim yields the empty string exactly for all-whitespace input; otherwise it starts and ends with a non-whitespace character |
| Text.TrimIdempotent | backend/src/middleware/validation.js:18 | trimming an already trimmed string changes nothing |
| Text.CollapseFixed | backend/src/middleware/validation.js:18 | collapsing whitespace runs leaves a string with only single spaces unchanged |
| Text.CollapseKeepsLeadingWord | backend/src/middleware/validation.js:18 | collapsing does not move a leading run of non-whitespace characters |
| Text.LeadingWordWasThere | backend/src/middleware/validation.js:18 | a leading non-whitespace run of the collapsed string was already the input's leading run |
| Text.JsLength | backend/src/middleware/validation.js:29-32 | `.length` counts UTF-16 code units: one per character of the Basic Multilingual Plane and two per character outside it, so it lies between the number of characters and twice that |
| Text.JsLengthAppend | backend/src/middleware/validation.js:29-32 | the UTF-16 length of two joined strings is the sum of their lengths |
| Text.WordListShape | backend/src/middleware/validation.js:18 | every element of a string's word list is a non-empty run of non-whitespace characters |
| Text.CollapseTrimJoinsWords | backend/src/middleware/validation.js:18 | `s.trim().replace(/\s+/g, ' ')` is the words of `s`, unchanged and in order, with exactly one space between neighbours |
| Validation.Sanitise | backend/src/middleware/validation.js:16-19 | a non-string sanitises to '' |
| Validation.SanitiseShape | backend/src/middleware/validation.js:16-19 | a string sanitises to '' iff it is all whitespace; otherwise to its words joined by single spaces, so the result has no whitespace at either end and every inner whitespace run became one space |
| Validation.SanitiseJoinsWords | backend/src/middleware/validation.js:16-19 | a string sanitises to its maximal non-whitespace runs, kept as they are and in order, joined by exactly one space |
| Validation.SanitiseFixesNormalised | backend/src/middleware/validation.js:16-19 | a string already in sanitised shape is its own sanitised form |
| Validation.SanitiseIdempotent | backend/src/middleware/validation.js:16-19 | sanitise(sanitise(v)) == sanitise(v) |
| Validation.SanitiseKeepsNonSpace | backend/src/middleware/validation.js:16-19 | sanitising keeps every non-whitespace character, in order |
| Validation.Push | backend/src/middleware/validation.js:27 | a guarded `errors.push` adds its one message exactly when the check fails |
| Validation.MemberSearchChecks | backend/src/middleware/validation.js:26-34 | each of the three messages is present iff its own check fails; no message iff searchBy is one of phone/member_id/name and the term is non-empty and at most 200 UTF-16 code units long |
| Validation.ValidateMemberSearch | backend/src/middleware/validation.js:22-37 | a searchBy outside {phone, member_id, name} is always reported; the empty-query message appears iff the sanitised query is ''; no error iff searchBy is listed and the sanitised query is 1..200 UTF-16 code units long |
| Validation.ValidateAttendance | backend/src/middleware/validation.js:40-52 | no error iff member_id is an integer ≥ 1 and service is listed; at most two errors, the member_id error first |
| Validation.VisitorPushesInOrder | backend/src/middleware/validation.js:62-79 | the visitor messages appear in the order their checks run: name required, name too long, phone, gender, first_time, service |
| Validation.VisitorPushReported | backend/src/middleware/validation.js:62-79 | the message of each visitor check is present iff that check failed |
| Validation.VisitorPushesEmpty | backend/src/middleware/validation.js:62-79 | the visitor message list is empty iff no check failed |
| Validation.SixPushes | backend/src/middleware/validation.js:62-79 | for the six visitor checks: each message present iff its check failed, none iff all passed, in push order |
| Validation.VisitorOutcome | backend/src/middleware/validation.js:62-79 | the six visitor checks' messages: each present iff its check failed, none iff all passed, listed in push order |
| Validation.VisitorChecks | backend/src/middleware/validation.js:62-79 | each of the six messages is present iff its own check fails on the sanitised name, phone and gender (name 2..200 UTF-16 code units, phone '' or 6–20 phone characters, gender listed, first_time a boolean, service listed); the messages come in the order the checks push them |
| Validation.ValidateVisitor | backend/src/middleware/validation.js:55-82 | no error iff the sanitised body is acceptable; the service error is present iff the service is not listed |
| Validation.ValidateSmartSearch | backend/src/middleware/validation.js:85-97 | no error iff q is present and String(q).trim() is 1..200 UTF-16 code units long; the required message iff q is missing or blank |
| Validation.KioskOnlyServiceRejected | frontend/src/pages/EntrancePage.js:11 | the kiosk's 'Sunday Mid-Morning Service' is refused by both the check-in and the visitor validators |
| Schema.RowWithId | backend/src/routes/attendance.js:37-41 | re-reading by id returns a row with that id, or nothing when no row has it |
| MemberSearch.FirstWhere | backend/src/routes/members.js:25 | `LIMIT 1`: the returned position satisfies the condition and every earlier row does not; none iff no row does |
| MemberSearch.Lookup | backend/src/routes/members.js:42-51 | the lookup answers found or not found, and a found member is a row of the table |
| MemberSearch.Search | backend/src/routes/members.js:6-57 | a search reaches the table iff the query validates and sanitises to a non-empty term; 500 iff it reaches a failing store; a found member is a row of the table |
| MemberSearch.BlankTermNoLookup | backend/src/routes/members.js:13-16 | a term that sanitises to '' is answered 400 whatever the table holds |
| MemberSearch.ArrayQueryReachesTermGuard | backend/src/routes/members.js:8-16 | an array-valued q passes the validator but is stopped by the sanitised-term guard with 'q is required' |
| MemberSearch.SearchLooksUpTerm | backend/src/routes/members.js:13-42 | a valid, non-blank query is answered by the lookup of its sanitised term |
| MemberSearch.IdTermIsExactLookup | backend/src/routes/members.js:20-27 | a term starting with MBR- (any case) finds the first member whose upper-cased code equals the upper-cased term, and is 404 when none does, whatever names contain |
| MemberSearch.OtherTermIsFuzzyLookup | backend/src/routes/members.js:28-49 | any other term finds the first member whose phone, first name, last name or full name contains it; 404 when none does |
| MemberCheckIn.AttendanceStore.constructor | backend/src/routes/attendance.js:6 | an empty attendance table satisfies the invariant |
| MemberCheckIn.AttendanceStore.Register | backend/src/routes/attendance.js:6-55 | the response and the new table are those of the route's step function, and the one-row-per-member-service-day invariant is kept |
| MemberCheckIn.StepPreservesInvariant | backend/src/routes/attendance.js:17-35 | every request keeps at most one row per (member, service, day) and every id below the next id |
| MemberCheckIn.StepEffect | backend/src/routes/attendance.js:8-43 | 400 and 409 leave the table unchanged; 400 iff the body is invalid; a 201 appends exactly (next id, member, service, today, now) and returns that row |
| MemberCheckIn.StepDecides | backend/src/routes/attendance.js:17-29 | with no store fault a valid request is 201 iff no row records the same member, service and day, and 409 iff one does |
| MemberCheckIn.DuplicateKeyLikePreCheck | backend/src/routes/attendance.js:45-51 | a duplicate-key error from the insert yields the same 409 as the pre-check, with the table unchanged |
| MemberCheckIn.SecondCheckInRefused | backend/src/routes/attendance.js:17-35 | after a 201, the same request the same day is a 409 and the table grew by one row |
| MemberCheckIn.CheckInTwice | backend/src/routes/attendance.js:17-43 | two same-day check-ins through the store: 201 then 409, one row added |
| VisitorRegistration.StoredPhone | backend/src/routes/visitors.js:14 | the stored phone is null iff the sanitised phone is '', and the sanitised phone otherwise |
| VisitorRegistration.Clean | backend/src/routes/visitors.js:13-17 | a validated body yields a name of 2..200 characters, a listed gender and service, and a null phone exactly when the sanitised phone is '' |
| VisitorRegistration.VisitorStore.constructor | backend/src/routes/visitors.js:6 | empty visitor tables are consistent |
| VisitorRegistration.VisitorStore.Register | backend/src/routes/visitors.js:6-69 | the response and the new tables are those of the route's step function, and every attendance row keeps pointing at an existing visitor |
| VisitorRegistration.VisitorStore.Transact | backend/src/routes/visitors.js:20-63 | the two inserts, re-reads, commit and rollback leave the response and tables the transaction function gives |
| VisitorRegistration.InsertPreservesConsistent | backend/src/routes/visitors.js:24-50 | the transaction keeps ids increasing and every attendance row's visitor present |
| VisitorRegistration.InsertEffect | backend/src/routes/visitors.js:20-63 | 201 iff no store call fails; any failure rolls both tables back; a 201 appends exactly one visitor and one attendance row pointing at it; ids are never reused |
| VisitorRegistration.StepEffect | backend/src/routes/visitors.js:8-68 | 400 iff invalid and then nothing changes; 201 iff valid and no fault; stored name and gender are sanitised, the phone null iff blank, the visitor stamped by the first `NOW()`; the attendance row carries the new visitor's id, the service, today and the second `NOW()`, and both rows are returned |
| VisitorRegistration.RegisterTwice | backend/src/routes/visitors.js:24-27 | registering the same body twice adds two distinct visitor/attendance pairs (no deduplication) |
| Ledger.RequestPin | backend/src/routes/history.js:9 | the query pin is used when truthy, the body pin otherwise |
| Ledger.QueryPinTakesPrecedence | backend/src/routes/history.js:8-17 | with a truthy query pin, access depends only on String(query pin) == '1234' and the body pin is ignored |
| Ledger.BodyPinWhenNoQueryPin | backend/src/routes/history.js:8-17 | without a query pin, access iff the body pin is truthy with String form '1234'; the number 1234 is accepted, missing or empty pins are refused |
| Ledger.KindLabel | backend/src/routes/history.js:24-37 | the type column reads 'Member' exactly for member rows and 'Visitor' exactly for visitor rows |
| Ledger.MemberEntry | backend/src/routes/history.js:22-31 | a member row is named first_name + ' ' + last_name and carries the member's phone and gender and the check-in's service, date and time |
| Ledger.PhoneOrDash | backend/src/routes/history.js:38 | a null visitor phone reads '-' |
| Ledger.VisitorEntry | backend/src/routes/history.js:35-44 | a visitor row carries the visitor's name, phone or '-', gender and the check-in's service, date and time |
| Ledger.JoinMember | backend/src/routes/history.js:31 | the inner join yields only projections of members whose id is the check-in's member_id, at most one per member |
| Ledger.JoinMemberFindsEvery | backend/src/routes/history.js:31 | the inner join yields the projection of every member whose id is the check-in's member_id |
| Ledger.JoinVisitor | backend/src/routes/history.js:44 | the inner join yields only projections of visitors whose id is the check-in's visitor_id, at most one per visitor |
| Ledger.JoinVisitorFindsEvery | backend/src/routes/history.js:44 | the inner join yields the projection of every visitor whose id is the check-in's visitor_id |
| Ledger.InsertNewest | backend/src/routes/history.js:46 | inserting a row adds exactly that row |
| Ledger.SortNewest | backend/src/routes/history.js:46 | sorting is a permutation of its input |
| Ledger.InsertKeepsNewestFirst | backend/src/routes/history.js:46 | inserting into a newest-first list keeps it newest-first |
| Ledger.SortIsNewestFirst | backend/src/routes/history.js:46 | the sorted ledger is ordered by service_date, then check_in_time, both descending |
| Ledger.RowsAreProjections | backend/src/routes/history.js:21-47 | the ledger is newest-first and each of its rows is the projection of a joined member check-in or visitor check-in |
| Ledger.MemberPartProjects | backend/src/routes/history.js:22-31 | every member row comes from a check-in joined with its member |
| Ledger.VisitorPartProjects | backend/src/routes/history.js:35-44 | every visitor row comes from a check-in joined with its visitor |
| Ledger.JoinOneMember | backend/src/routes/history.js:31 | a check-in whose member id is held by exactly one member yields exactly that member's row |
| Ledger.JoinNoMember | backend/src/routes/history.js:31 | a check-in whose member is missing yields no row |
| Ledger.MemberPartOnePerCheckIn | backend/src/routes/history.js:22-31 | when each check-in's member id belongs to exactly one member, the member half has one row per check-in, and row k is check-in k projected with its member |
| Ledger.JoinOneVisitor | backend/src/routes/history.js:44 | a check-in whose visitor id is held by exactly one visitor yields exactly that visitor's row |
| Ledger.JoinNoVisitor | backend/src/routes/history.js:44 | a check-in whose visitor is missing yields no row |
| Ledger.VisitorPartOnePerCheckIn | backend/src/routes/history.js:35-44 | when each visitor check-in's visitor id belongs to exactly one visitor, the visitor half has one row per check-in, and row k is check-in k projected with its visitor |
| Ledger.MemberPartHoldsEveryCheckIn | backend/src/routes/history.js:22-31 | every check-in joined with a member carrying its member_id appears in the member half |
| Ledger.VisitorPartHoldsEveryCheckIn | backend/src/routes/history.js:35-44 | every visitor check-in joined with a visitor carrying its visitor_id appears in the visitor half |
| Ledger.LedgerHoldsEveryCheckIn | backend/src/routes/history.js:21-47 | the union loses nothing: every member check-in and every visitor check-in, joined with its member or visitor, is a row of the ledger |
| Ledger.Store.constructor | backend/src/routes/history.js:19 | the store holds the four given tables |
| Ledger.Store.History | backend/src/routes/history.js:49-61 | 401 iff the pin gate refuses; 500 iff granted and the query fails; otherwise the merged ledger, newest first |
| Ledger.Store.Purge | backend/src/routes/history.js:64-83 | 401 iff refused; 200 iff granted and both truncates succeed, leaving both attendance tables empty; members and visitors never change; a failing second truncate leaves attendance already emptied |
| Ledger.PurgedLedgerIsEmpty | backend/src/routes/history.js:64-68 | after a purge the ledger is empty whatever members and visitors remain |
| Report.Weights | backend/src/routes/history.js:133-141 | the weights are those of the seven columns, in order |
| Report.ColumnWidths | backend/src/routes/history.js:143-144 | each column gets (w / Σw) × colW and the widths sum to colW |
| Report.ScaledSum | backend/src/routes/history.js:143-144 | scaling every weight by width/total scales their sum the same way |
| Report.ReportColumnsWeighOne | backend/src/routes/history.js:133-141 | the seven column weights sum to 1, so each width is its weight times the content width |
| Report.ReportColumnWidths | backend/src/routes/history.js:133-144 | the report's widths are weight × 516: 113.52, 51.6, 82.56, 51.6, 113.52, 51.6, 51.6 points |
| Report.Cell | backend/src/routes/history.js:182 | a cell is never blank, and a non-empty value prints itself |
| Report.Cells | backend/src/routes/history.js:167-184 | a row has one non-blank cell per column, the type column reading 'Member' or 'Visitor' |
| Report.CellsOf | backend/src/routes/history.js:195-211 | the cells of each input row, in order |
| Report.ChainAppend | backend/src/routes/history.js:192-211 | one more correctly placed draw keeps the page chained and adds its cells, if a row, to the rows drawn |
| Report.StartPage | backend/src/routes/history.js:196-207 | when the next row does not fit, a page break moves the pen to a new page below the continuation caption and the header, resets the row index to 0, and draws no row |
| Report.DrawNext | backend/src/routes/history.js:195-210 | drawing the next row (after a break if it does not fit) adds exactly that row's cells |
| Report.Render | backend/src/routes/history.js:192-217 | every input row is drawn exactly once and in order; the layout is chained; with no rows only the first header and the no-records message appear, and the message appears only then |
| Report.EveryDrawPlaced | backend/src/routes/history.js:150-210 | every draw is at a legal place: the first header at the start y, later headers under the caption, rows below a header or row |
| Report.RowsStayAboveBottom | backend/src/routes/history.js:188-196 | every row ends at or above pageH − margin − 10 |
| Report.ShadingRestartsEachPage | backend/src/routes/history.js:206-210 | the first row under a header has index 0 and is even-shaded; shading alternates row by row |
| Report.BreakExactlyWhenFull | backend/src/routes/history.js:196 | a new page starts exactly when the remaining space is less than rowH + 10 |
| Report.ContinuedPageHolds28 | backend/src/routes/history.js:196-210 | a continued page holds at most 28 rows, and one that breaks after a row held exactly 28 |
| Report.Export | backend/src/routes/history.js:85-233 | 401 iff the pin gate refuses; 500 iff granted and the query fails; otherwise a chained layout whose drawn rows are exactly the cells of the store's ledger, in ledger order |
| PinEntry.DigitsOf | frontend/src/components/PinModal.js:53 | `replace(/\D/g, '')` yields only digits and never lengthens |
| PinEntry.DigitsOfAppend | frontend/src/components/PinModal.js:53 | removing the non-digits distributes over concatenation |
| PinEntry.DigitsOfSnoc | frontend/src/components/PinModal.js:53 | one more character adds itself exactly when it is a digit, so the digits are kept in order |
| PinEntry.DigitsOfMembers | frontend/src/components/PinModal.js:53 | a character survives iff it is a digit occurring in the text |
| PinEntry.DigitsOfDigits | frontend/src/components/PinModal.js:53 | text that is all digits is kept whole |
| PinEntry.PastedDigits | frontend/src/components/PinModal.js:53 | the pasted code is the prefix of the text's digits of length min(4, number of digits) |
| PinEntry.Spread | frontend/src/components/PinModal.js:55-56 | pasted digits fill the slots from the first, the rest are '' |
| PinEntry.PinModal.constructor | frontend/src/components/PinModal.js:4-6 | four empty slots, no error, no shake |
| PinEntry.PinModal.TriggerError | frontend/src/components/PinModal.js:72-80 | clears all four slots, sets the error message and shakes |
| PinEntry.PinModal.Validate | frontend/src/components/PinModal.js:26-33 | unlocks on '1234', triggers the error otherwise |
| PinEntry.PinModal.HandleChange | frontend/src/components/PinModal.js:13-35 | the pad after typing into slot i is the change transition of the pad before |
| PinEntry.PinModal.HandleKeyDown | frontend/src/components/PinModal.js:37-48 | the pad after a key in slot i is the key-down transition of the pad before |
| PinEntry.PinModal.HandlePaste | frontend/src/components/PinModal.js:51-70 | the pad after a paste is the paste transition of the pad before |
| PinEntry.PinModal.ShakeTimeout | frontend/src/components/PinModal.js:76-79 | the shake ends and nothing else changes |
| PinEntry.EventsKeepWellFormed | frontend/src/components/PinModal.js:13-70 | every event keeps four slots, each '' or one digit |
| PinEntry.ChangeWritesOneSlot | frontend/src/components/PinModal.js:15-20 | a non-empty value that is not one digit changes nothing; an accepted value (other than a digit in slot 3) writes slot i only, clears the error and does not unlock |
| PinEntry.EnteredOfFour | frontend/src/components/PinModal.js:27 | joining four slots concatenates them |
| PinEntry.LastSlotChecks | frontend/src/components/PinModal.js:26-33 | filling slot 3 unlocks iff the four slots spell '1234'; otherwise all slots clear, the error shows and the pad shakes |
| PinEntry.TypingThePinUnlocks | frontend/src/components/PinModal.js:13-35 | typing 1, 2, 3, 4 into the four slots unlocks |
| PinEntry.BackspaceEmptiesOneSlot | frontend/src/components/PinModal.js:37-48 | Backspace empties slot i only; any other key changes nothing |
| PinEntry.SpreadReadsBack | frontend/src/components/PinModal.js:55-64 | four pasted digits read back as the code that was pasted |
| PinEntry.PasteFillsFromFirstSlot | frontend/src/components/PinModal.js:53-69 | a paste with no digits changes nothing; fewer than four fill from slot 0, clear the error and are not checked; exactly four unlock iff they are '1234' (or the pad was already unlocked) |
| PinEntry.PastingThePinUnlocks | frontend/src/components/PinModal.js:51-70 | pasting '12-34' or '123456' unlocks |
| VisitorForm.Get | frontend/src/components/VisitorFlow.js:101 | a field read back has the kind of value that field holds |
| VisitorForm.Put | frontend/src/components/VisitorFlow.js:112 | the edited field reads back the new value and every other field keeps its own |
| VisitorForm.ValidateReports | frontend/src/components/VisitorFlow.js:117-128 | a name error iff the trimmed name is under 2 UTF-16 code units; a phone error iff the phone is non-empty and its trimmed form fails the pattern; a gender error iff none is chosen; a first-visit error iff unanswered; each with its message; no error iff all pass |
| VisitorForm.IsValidIgnoresOnlyPhone | frontend/src/components/VisitorFlow.js:161 | the submit button is enabled iff validate would report nothing but a phone error |
| VisitorForm.ClearError | frontend/src/components/VisitorFlow.js:113 | editing blanks the field's showing message and keeps every key and every other message |
| VisitorForm.VisitorFlow.constructor | frontend/src/components/VisitorFlow.js:104-108 | an empty form with no messages |
| VisitorForm.VisitorFlow.Change | frontend/src/components/VisitorFlow.js:110-114 | the screen after an edit is the edit transition of the screen before |
| VisitorForm.VisitorFlow.SubmitStart | frontend/src/components/VisitorFlow.js:130-143 | the screen and the request sent are those of the submit transition |
| VisitorForm.VisitorFlow.SubmitEnd | frontend/src/components/VisitorFlow.js:144-158 | the screen after the reply is that of the reply transition |
| VisitorForm.VisitorFlow.SuccessTimeout | frontend/src/components/VisitorFlow.js:145-149 | the form, messages and popup are reset |
| VisitorForm.EditClearsOnlyThatError | frontend/src/components/VisitorFlow.js:110-114 | an edit changes only that field and only that field's message, to ''; the rest of the screen is untouched |
| VisitorForm.SendsOnlyValidForms | frontend/src/components/VisitorFlow.js:130-143 | a request goes out iff validate reports nothing; a blocked submit shows exactly validate's messages and changes nothing else; a sent submit is busy with no server message |
| VisitorForm.FinishSettles | frontend/src/components/VisitorFlow.js:144-158 | after any reply the screen is not busy; the popup shows iff the reply is a 201; a 400 shows its errors joined by spaces; a 500 or no reply shows the fixed message |
| VisitorForm.SuccessReturnsToStart | frontend/src/components/VisitorFlow.js:130-159 | a valid submit answered 201 ends, after the timer, on the starting screen |
| VisitorForm.CollapseKeepsPhoneChars | backend/src/middleware/validation.js:18 | a string of phone characters is still one after whitespace runs are collapsed |
| VisitorForm.TrimKeepsPhoneChars | backend/src/middleware/validation.js:18 | a string of phone characters is still one after trimming |
| VisitorForm.ServerPhoneVerdict | frontend/src/components/VisitorFlow.js:121-122 | for a phone the form accepts, the server refuses it iff sanitising leaves 1..5 characters |
| VisitorForm.SpacedPhone | frontend/src/components/VisitorFlow.js:121 | '1    2' passes the form's check and sanitises to '1 2' |
| VisitorForm.ClientAndServerDisagreeOnPhone | frontend/src/components/VisitorFlow.js:121-122 | the form accepts the phone '1    2' and the server refuses it |
| VisitorForm.TwoEndsTwoNonSpace | frontend/src/components/VisitorFlow.js:119 | a trimmed string of length ≥ 2 keeps at least two non-whitespace characters |
| VisitorForm.NameSurvivesSanitise | frontend/src/components/VisitorFlow.js:117-138 | a name the form finds long enough is still at least 2 long after the server sanitises the trimmed name |
| VisitorForm.GenderSurvivesSanitise | frontend/src/components/VisitorFlow.js:205-206 | the select's genders sanitise to themselves |
| VisitorForm.ServerAgreesOnNameGenderFirstTime | frontend/src/components/VisitorFlow.js:117-143 | for a form the client accepts, the server never reports the name too short, the gender or the first-visit answer; it reports the name too long iff it sanitises to over 200, and the service iff unlisted |
| VisitorForm.AcceptedFormIsRegistered | frontend/src/components/VisitorFlow.js:130-143 | a client-accepted form with a blank phone, a name of at most 200 sanitised characters and a listed service is registered by the server when no store call fails |
| MemberPanel.DetectType | frontend/src/components/MemberFlow.js:254-260 | the hint is 'phone, name, or ID' iff the trimmed query is blank, 'Member ID' iff it starts with MBR- in any case, 'Phone Number' iff it is all digits and not a code, 'Name' otherwise |
| MemberPanel.IdPrefixHasNoSpace | frontend/src/components/MemberFlow.js:257 | the first four characters of a member code are not whitespace |
| MemberPanel.IdHintIsServerIdBranch | frontend/src/components/MemberFlow.js:254-260 | the hint says 'Member ID' iff the server's sanitised form of the sent term takes the exact member-code branch |
| MemberPanel.SearchFailuresShown | frontend/src/components/MemberFlow.js:186-193 | a 404 shows the server's message ('Member not found.' when it has none); a 400 shows its errors joined by spaces; a 500 or no response shows the generic message |
| MemberPanel.RegisterFailuresShown | frontend/src/components/MemberFlow.js:242-247 | a 409 shows the server's duplicate message ('Already checked in.' when it has none); every other failure, a 400 included, shows the generic message |
| MemberPanel.MemberFlow.constructor | frontend/src/components/MemberFlow.js:151-157 | an empty panel |
| MemberPanel.MemberFlow.Reset | frontend/src/components/MemberFlow.js:162-169 | the panel after reset is the reset transition of the panel before |
| MemberPanel.MemberFlow.HandleChange | frontend/src/components/MemberFlow.js:200-218 | the panel after typing is the change transition of the panel before |
| MemberPanel.MemberFlow.DoSearch | frontend/src/components/MemberFlow.js:172-184 | the panel and the term sent are those of the search-start transition |
| MemberPanel.MemberFlow.PauseElapsed | frontend/src/components/MemberFlow.js:215-217 | the panel and the term sent when the debounce timer fires are those of the pause transition |
| MemberPanel.MemberFlow.HandleKeyDown | frontend/src/components/MemberFlow.js:221-226 | the panel and the term sent on a key press are those of the key transition |
| MemberPanel.MemberFlow.SearchReturned | frontend/src/components/MemberFlow.js:185-196 | the panel after the search returns is the search-end transition |
| MemberPanel.MemberFlow.HandleRegister | frontend/src/components/MemberFlow.js:234-239 | the panel and the check-in sent are those of the register-start transition |
| MemberPanel.MemberFlow.RegisterReturned | frontend/src/components/MemberFlow.js:240-250 | the panel after the check-in returns is the register-end transition |
| MemberPanel.BlankTermSendsNothing | frontend/src/components/MemberFlow.js:173-184 | a blank term sends nothing, clears the member and the error, and stops the spinner; any other term sends its trimmed form |
| MemberPanel.SentTermPassesServerBlankGuard | frontend/src/components/MemberFlow.js:173-184 | a term the panel sends is never blank to the server, which accepts it iff it is at most 200 long |
| MemberPanel.ChangeSchedulesLatest | frontend/src/components/MemberFlow.js:200-218 | typing clears the member and messages and schedules exactly one search, of the latest input, iff it is not blank |
| MemberPanel.PauseOrEnterSearchesOnce | frontend/src/components/MemberFlow.js:208-226 | the pause searches the trimmed input; Enter searches at once and leaves nothing for the pause to send |
| MemberPanel.SearchEndShows | frontend/src/components/MemberFlow.js:185-196 | a found member is shown; a 404 shows the server's not-found message; a 400 its errors; a 500 the generic message; the spinner stops |
| MemberPanel.RegisterNeedsMember | frontend/src/components/MemberFlow.js:234-239 | with no member the button does nothing; with one it sends that member's id and the service |
| MemberPanel.SecondCheckInShowsDuplicate | frontend/src/components/MemberFlow.js:243-244 | a second same-day check-in of the same member shows the server's duplicate message |
| MemberPanel.KioskOnlyServiceFails | frontend/src/pages/EntrancePage.js:11 | a check-in for the kiosk-only service always shows the generic failure message |

## Left out

- I/O and plumbing are not modelled: the HTTP framework, the connection pool, logging, the PDF byte stream and the database engine. The store is an in-memory table. Each way a store call can fail is a parameter.
- Today's date and `NOW()` are parameters (`today`, `now`; a visitor registration takes one timestamp per `NOW()` call). Dates are day numbers and timestamps are integer seconds.
- `LIKE` case folding depends on the table's collation, so it is a parameter (`fold`). Terms are assumed to contain no `%` or `_` wildcards.
- Concurrency is not modelled: the race between the duplicate check and the insert, React's asynchronous state updates, replies arriving out of order, and focus handling. Each asynchronous handler is split into a method up to its request and a method for its reply. The duplicate-key error is a store outcome.
- Floating-point page geometry is not modelled. Positions are integers on a 612 × 792 page and column widths are `real`. The title block's height is the start-y parameter.
- pdfkit drawing is not modelled: colours, fonts, ellipsis truncation and the closing rule. Date and time cells are formatted by `toLocale*`, so they are opaque strings from `date`/`time` parameters.
- `Ledger.SortNewest`: the store leaves the order of rows with equal date and time unspecified. The model picks one stable order, members before visitors.
- `Ledger.Store.Purge`: `TRUNCATE` also resets the auto-increment counters, and the response reports affected-row counts. Neither is modelled, because no route reads them.
- Strings are sequences of Unicode scalar values. JavaScript's `.length` is modelled as their UTF-16 code-unit count (`Text.JsLength`). A JavaScript string holding a lone surrogate has no counterpart in the model.
- `Js.ToStr`: a non-integral number is rendered as an opaque string, since no route compares one.
- `Text.Upper` is ASCII-only. That matches `/i` matching of `MBR-`, but `UPPER()` under a collation that folds non-ASCII letters is not modelled.
- The PDF route's `headersSent` branch, which ends a half-written response, is not modelled. It depends on streaming.
- The kiosk's rendering, CSS, the success popup's own close timer, and focus movement between PIN slots are not modelled.
- `frontend/src/api/api.js` is not part of this model beyond the payloads it builds. `registerVisitor`'s `phone || ''` changes nothing for a trimmed string.
- The visitor form's gender select offers only Male and Female. The lemmas that relate the form to the server assume one of those.
