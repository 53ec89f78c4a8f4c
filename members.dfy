/** The member search resolver behind `GET /members/search?q=`: the
    sanitised term is either an exact, case-insensitive member code (it
    starts with "MBR-") or a fuzzy substring of a phone number or name, and
    at most one member, the first matching one in table order, comes back. */
module MemberSearch {
  import opened Text
  import opened Js
  import opened Schema
  import opened Validation

  /** The responses of the search handler, with their HTTP statuses. */
  datatype SearchResponse =
    | BadRequest(errors: seq<string>)   // 400
    | Found(member: Member)             // 200
    | NotFound                          // 404
    | ServerError                       // 500: the store query failed

  const NotFoundMessage := "No member found matching your search. Please check the details and try again."

  /** `/^MBR-/i`: the term starts with "MBR-" in any letter case. */
  predicate IsIdTerm(term: string)
  {
    |term| >= 4 && Upper(term[..4]) == "MBR-"
  }

  /** `UPPER(member_id) = UPPER(?)`. */
  predicate IdMatches(m: Member, term: string)
  {
    Upper(m.memberId) == Upper(term)
  }

  /** `x LIKE '%term%'` under a collation whose case folding is `fold`. */
  predicate Like(x: string, term: string, fold: char -> char)
  {
    Contains(MapChars(fold, x), MapChars(fold, term))
  }

  /** The fuzzy branch's WHERE clause. */
  predicate FuzzyMatches(m: Member, term: string, fold: char -> char)
  {
    || Like(m.phone, term, fold)
    || Like(m.firstName, term, fold)
    || Like(m.lastName, term, fold)
    || Like(m.firstName + " " + m.lastName, term, fold)
  }

  /** `... LIMIT 1`: the position of the first row satisfying `p`. */
  function FirstWhere(rows: seq<Member>, p: Member -> bool): (r: Option<nat>)
    ensures r.Some? ==> r.value < |rows| && p(rows[r.value])
    ensures r.Some? ==> forall j :: 0 <= j < r.value ==> !p(rows[j])
    ensures r.None? ==> forall j :: 0 <= j < |rows| ==> !p(rows[j])
  {
    if rows == [] then None
    else if p(rows[0]) then Some(0)
    else match FirstWhere(rows[1..], p)
      case None => None
      case Some(i) => Some(i + 1)
  }

  /** The row predicate the handler's query selects with. */
  function Criterion(term: string, fold: char -> char): Member -> bool
  {
    if IsIdTerm(term) then m => IdMatches(m, term) else m => FuzzyMatches(m, term, fold)
  }

  /** The store query: the first member satisfying the criterion, if any. */
  function Lookup(term: string, rows: seq<Member>, fold: char -> char): (r: SearchResponse)
    ensures r.Found? || r.NotFound?
    ensures r.Found? ==> r.member in rows
  {
    match FirstWhere(rows, Criterion(term, fold))
    case None => NotFound
    case Some(i) => Found(rows[i])
  }

  /** The handler. `members` is the table as the query sees it, or None when
      the store fails; `fold` is the case folding of the table's collation. */
  function Search(q: JsValue, members: Option<seq<Member>>, fold: char -> char): (r: SearchResponse)
    ensures r.Found? || r.NotFound? || r.ServerError? <==> ValidateSmartSearch(q) == [] && Sanitise(q) != ""
    ensures r.ServerError? <==> ValidateSmartSearch(q) == [] && Sanitise(q) != "" && members.None?
    ensures r.Found? ==> members.Some? && r.member in members.value
  {
    var errors := ValidateSmartSearch(q);
    if errors != [] then BadRequest(Messages(errors))
    else
      var term := Sanitise(q);
      if term == "" then BadRequest(["q is required"])
      else match members
        case None => ServerError
        case Some(rows) => Lookup(term, rows, fold)
  }

  // ------------------------------------------------------------ properties

  /** A term that sanitises to nothing is refused before the table is
      consulted: the answer is a 400 whatever the table holds. */
  lemma BlankTermNoLookup(q: JsValue, a: Option<seq<Member>>, b: Option<seq<Member>>, fold: char -> char)
    requires Sanitise(q) == ""
    ensures Search(q, a, fold).BadRequest?
    ensures Search(q, a, fold) == Search(q, b, fold)
  {
  }

  /** The guard on the sanitised term is not redundant: an array-valued `q`
      passes `validateSmartSearch` (its String() form is not blank) but
      sanitises to '' and is answered with 400 "q is required". */
  lemma ArrayQueryReachesTermGuard(members: Option<seq<Member>>, fold: char -> char)
    ensures ValidateSmartSearch(Arr([Str("x")])) == []
    ensures Search(Arr([Str("x")]), members, fold) == BadRequest(["q is required"])
  {
    assert ToStr(Arr([Str("x")])) == "x";
    assert Trim("x") == "x";
  }

  /** A valid query whose sanitised term is non-empty is answered by the
      table lookup on that term. */
  lemma SearchLooksUpTerm(q: JsValue, rows: seq<Member>, fold: char -> char)
    requires ValidateSmartSearch(q) == [] && Sanitise(q) != ""
    ensures Search(q, Some(rows), fold) == Lookup(Sanitise(q), rows, fold)
  {
  }

  /** A member-code term finds the first member whose code equals it,
      ignoring case, and nothing else: with no such member the answer is
      404 even when some member's name or phone contains the term. */
  lemma IdTermIsExactLookup(term: string, rows: seq<Member>, fold: char -> char)
    requires IsIdTerm(term)
    ensures Lookup(term, rows, fold).NotFound? <==> forall m :: m in rows ==> !IdMatches(m, term)
    ensures Lookup(term, rows, fold).Found? ==>
      exists i :: 0 <= i < |rows| && Lookup(term, rows, fold).member == rows[i]
        && IdMatches(rows[i], term)
        && forall j :: 0 <= j < i ==> !IdMatches(rows[j], term)
  {
    var p := Criterion(term, fold);
    assert forall m :: p(m) == IdMatches(m, term);
  }

  /** Any other term finds the first member, in table order, whose phone,
      first name, last name or full name contains it; 404 when none does. */
  lemma OtherTermIsFuzzyLookup(term: string, rows: seq<Member>, fold: char -> char)
    requires !IsIdTerm(term)
    ensures Lookup(term, rows, fold).NotFound? <==> forall m :: m in rows ==> !FuzzyMatches(m, term, fold)
    ensures Lookup(term, rows, fold).Found? ==>
      exists i :: 0 <= i < |rows| && Lookup(term, rows, fold).member == rows[i]
        && FuzzyMatches(rows[i], term, fold)
        && forall j :: 0 <= j < i ==> !FuzzyMatches(rows[j], term, fold)
  {
    var p := Criterion(term, fold);
    assert forall m :: p(m) == FuzzyMatches(m, term, fold);
  }
}
