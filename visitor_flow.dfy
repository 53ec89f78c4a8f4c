/** The kiosk's visitor form: four fields, a client-side check that runs
    before anything is sent, the payload handed to `registerVisitor`, and
    the screen state the submit handler leaves behind for each reply. */
module VisitorForm {
  import opened Text
  import opened Js
  import opened Schema
  import opened Validation
  import VisitorRegistration

  datatype Field = FullName | Phone | Gender | FirstTime

  /** The form; `firstTime` is `null` until one of the two buttons is pressed. */
  datatype Form = Form(fullName: string, phone: string, gender: string, firstTime: Option<bool>)

  const Empty := Form("", "", "", None)

  const NameMessage := "Full name is required (min 2 characters)"
  const PhoneMessage := "Enter a valid phone number"
  const GenderMessage := "Please select a gender"
  const FirstTimeMessage := "Please indicate if this is your first visit"
  const FailedMessage := "Registration failed. Please try again."

  /** The genders the form's select offers. */
  const GenderOptions: seq<string> := ["Male", "Female"]

  /** What an input hands to `change`: the text of an input or select, or
      the boolean of the first-visit buttons. */
  datatype Value = Text(text: string) | Answer(yes: bool)

  predicate Fits(key: Field, v: Value)
  {
    (key == FirstTime) == v.Answer?
  }

  function Get(f: Form, key: Field): (v: Value)
    ensures f.firstTime.Some? || key != FirstTime ==> Fits(key, v)
  {
    match key
    case FullName => Text(f.fullName)
    case Phone => Text(f.phone)
    case Gender => Text(f.gender)
    case FirstTime => if f.firstTime.Some? then Answer(f.firstTime.value) else Text("")
  }

  /** `{ ...prev, [key]: val }`: the field named by `key` reads back the new
      value and every other field keeps its value. */
  function Put(f: Form, key: Field, v: Value): (r: Form)
    requires Fits(key, v)
    ensures Get(r, key) == v
    ensures forall k :: k != key ==> Get(r, k) == Get(f, k)
  {
    match key
    case FullName => f.(fullName := v.text)
    case Phone => f.(phone := v.text)
    case Gender => f.(gender := v.text)
    case FirstTime => f.(firstTime := Some(v.yes))
  }

  // ------------------------------------------------------------- validate

  /** The client-side check of the phone: empty is fine, anything else must
      match `/^[\d\s\-+()]{6,20}$/` once trimmed. */
  predicate PhoneOk(phone: string)
  {
    phone == "" || PhonePattern(Trim(phone))
  }

  /** `validate`: one message per field that fails its check. */
  function Validate(f: Form): map<Field, string>
  {
    var name := Trim(f.fullName);
    var e0: map<Field, string> := map[];
    var e1 := if name == "" || JsLength(name) < 2 then e0[FullName := NameMessage] else e0;
    var e2 := if f.phone != "" && !PhonePattern(Trim(f.phone)) then e1[Phone := PhoneMessage] else e1;
    var e3 := if f.gender == "" then e2[Gender := GenderMessage] else e2;
    if f.firstTime.None? then e3[FirstTime := FirstTimeMessage] else e3
  }

  /** `validate` reports a field exactly when that field fails its check,
      with that field's message, and a field that passes has no key at all;
      so it reports nothing exactly when every check passes. */
  lemma ValidateReports(f: Form)
    ensures var errs := Validate(f);
      && (FullName in errs <==> JsLength(Trim(f.fullName)) < 2)
      && (Phone in errs <==> !PhoneOk(f.phone))
      && (Gender in errs <==> f.gender == "")
      && (FirstTime in errs <==> f.firstTime.None?)
      && (FullName in errs ==> errs[FullName] == NameMessage)
      && (Phone in errs ==> errs[Phone] == PhoneMessage)
      && (Gender in errs ==> errs[Gender] == GenderMessage)
      && (FirstTime in errs ==> errs[FirstTime] == FirstTimeMessage)
      && (errs == map[] <==>
            2 <= JsLength(Trim(f.fullName)) && PhoneOk(f.phone) && f.gender != "" && f.firstTime.Some?)
  {
    var errs := Validate(f);
    if FullName !in errs && Phone !in errs && Gender !in errs && FirstTime !in errs {
      assert errs.Keys == {};
    }
  }

  /** `isValid`, which enables the submit button. It does not look at the
      phone. */
  function IsValid(f: Form): bool
  {
    JsLength(Trim(f.fullName)) >= 2 && f.gender != "" && f.firstTime.Some?
  }

  /** The submit button is enabled exactly when `validate` would complain
      about nothing but the phone. */
  lemma IsValidIgnoresOnlyPhone(f: Form)
    ensures IsValid(f) <==> Validate(f).Keys <= {Phone}
  {
    ValidateReports(f);
    var errs := Validate(f);
    if !IsValid(f) {
      assert FullName in errs || Gender in errs || FirstTime in errs;
    }
  }

  /** The body handed to `registerVisitor`: the trimmed name and phone, the
      gender and first-visit answer as chosen (an unanswered one goes as
      `null`), and the service prop. */
  function Payload(f: Form, service: string): VisitorBody
  {
    var firstTime := if f.firstTime.Some? then Bool(f.firstTime.value) else Null;
    VisitorBody(Str(Trim(f.fullName)), Str(Trim(f.phone)), Str(f.gender), firstTime, Str(service))
  }

  // ------------------------------------------------- the screen's state

  /** Everything the handlers change: the form, the per-field messages, the
      message under the form, the in-flight flag and the success popup. */
  datatype Screen = Screen(form: Form, fieldErrors: map<Field, string>, serverError: string,
                           loading: bool, showSuccess: bool)

  const Initial := Screen(Empty, map[], "", false, false)

  /** `if (fieldErrors[key]) setFieldErrors({ ...prev, [key]: '' })`: a
      showing message is blanked, the key is kept. */
  function ClearError(errs: map<Field, string>, key: Field): (r: map<Field, string>)
    ensures r.Keys == errs.Keys
    ensures key in r ==> r[key] == ""
    ensures forall k :: k in errs && k != key ==> r[k] == errs[k]
  {
    if key in errs && errs[key] != "" then errs[key := ""] else errs
  }

  /** `change(key)(value)`. */
  function Edit(s: Screen, key: Field, v: Value): Screen
    requires Fits(key, v)
  {
    s.(form := Put(s.form, key, v), fieldErrors := ClearError(s.fieldErrors, key))
  }

  /** The first half of `handleSubmit`, up to the request: a form that fails
      `validate` shows its messages and sends nothing; otherwise the screen
      goes busy, the old server message is cleared and the payload is sent. */
  function Begin(s: Screen, service: string): (Screen, Option<VisitorBody>)
  {
    var errs := Validate(s.form);
    if errs != map[] then (s.(fieldErrors := errs), None)
    else (s.(loading := true, serverError := ""), Some(Payload(s.form, service)))
  }

  /** What came back from `registerVisitor`: a response of the register
      route, or no response at all. */
  datatype Reply = Answered(resp: VisitorRegistration.RegisterResponse) | Unreachable

  /** The second half of `handleSubmit`: a 201 shows the success popup; a
      reply carrying `errors` shows them joined by spaces; anything else shows
      the fixed failure message; `loading` ends false in every case. */
  function Finish(s: Screen, reply: Reply): Screen
  {
    match reply
    case Answered(Created(_, _)) => s.(showSuccess := true, loading := false)
    case Answered(Invalid(errors)) => s.(serverError := Join(errors, " "), loading := false)
    case _ => s.(serverError := FailedMessage, loading := false)
  }

  /** The 2200 ms timer set after a success: an empty form, no messages, no
      popup. */
  function AfterSuccess(s: Screen): Screen
  {
    s.(form := Empty, fieldErrors := map[], showSuccess := false)
  }

  class VisitorFlow {
    const service: string
    var form: Form
    var fieldErrors: map<Field, string>
    var serverError: string
    var loading: bool
    var showSuccess: bool

    function State(): Screen
      reads this
    {
      Screen(form, fieldErrors, serverError, loading, showSuccess)
    }

    constructor (service: string)
      ensures this.service == service && State() == Initial
    {
      this.service := service;
      form := Empty;
      fieldErrors := map[];
      serverError := "";
      loading := false;
      showSuccess := false;
    }

    method Change(key: Field, v: Value)
      requires Fits(key, v)
      modifies this
      ensures State() == Edit(old(State()), key, v)
    {
      form := Put(form, key, v);
      if key in fieldErrors && fieldErrors[key] != "" {
        fieldErrors := fieldErrors[key := ""];
      }
    }

    /** Runs `handleSubmit` up to the request and returns what it sends. */
    method SubmitStart() returns (sent: Option<VisitorBody>)
      modifies this
      ensures (State(), sent) == Begin(old(State()), service)
    {
      var errs := Validate(form);
      if errs != map[] {
        fieldErrors := errs;
        return None;
      }
      loading := true;
      serverError := "";
      sent := Some(Payload(form, service));
    }

    /** Runs the rest of `handleSubmit` once `reply` has arrived. */
    method SubmitEnd(reply: Reply)
      modifies this
      ensures State() == Finish(old(State()), reply)
    {
      if reply.Answered? && reply.resp.Created? {
        showSuccess := true;
      } else if reply.Answered? && reply.resp.Invalid? {
        serverError := Join(reply.resp.errors, " ");
      } else {
        serverError := FailedMessage;
      }
      loading := false;
    }

    method SuccessTimeout()
      modifies this
      ensures State() == AfterSuccess(old(State()))
    {
      form := Empty;
      fieldErrors := map[];
      showSuccess := false;
    }
  }

  // ------------------------------------------------------------- properties

  /** Editing a field changes that field alone, blanks its message if one
      was showing, and leaves every other message and the rest of the screen
      as they were. */
  lemma EditClearsOnlyThatError(s: Screen, key: Field, v: Value)
    requires Fits(key, v)
    ensures var s' := Edit(s, key, v);
      && Get(s'.form, key) == v
      && (forall k :: k != key ==> Get(s'.form, k) == Get(s.form, k))
      && s'.fieldErrors.Keys == s.fieldErrors.Keys
      && (key in s'.fieldErrors ==> s'.fieldErrors[key] == "")
      && (forall k :: k in s.fieldErrors && k != key ==> s'.fieldErrors[k] == s.fieldErrors[k])
      && s'.serverError == s.serverError && s'.loading == s.loading && s'.showSuccess == s.showSuccess
  {
  }

  /** A request goes out exactly when `validate` finds nothing, and it
      carries the trimmed form; a blocked submit shows exactly `validate`'s
      messages and changes nothing else. */
  lemma SendsOnlyValidForms(s: Screen, service: string)
    ensures var (s', sent) := Begin(s, service);
      && (sent.Some? <==> Validate(s.form) == map[])
      && (sent.None? ==> s' == s.(fieldErrors := Validate(s.form)))
      && (sent.Some? ==> s'.loading && s'.serverError == "" && s'.form == s.form
                         && sent.value == Payload(s.form, service) && sent.value.firstTime.Bool?)
  {
    ValidateReports(s.form);
  }

  /** Whatever the reply, the screen is no longer busy; the popup shows
      exactly for a 201, and the server message is set exactly for a reply
      that is not a 201. */
  lemma FinishSettles(s: Screen, reply: Reply)
    requires !s.showSuccess
    ensures var s' := Finish(s, reply);
      && !s'.loading
      && (s'.showSuccess <==> reply.Answered? && reply.resp.Created?)
      && (s'.showSuccess ==> s'.serverError == s.serverError)
      && (reply.Answered? && reply.resp.Invalid? ==> s'.serverError == Join(reply.resp.errors, " "))
      && (reply.Unreachable? || reply.resp.ServerError? ==> s'.serverError == FailedMessage)
      && s'.form == s.form && s'.fieldErrors == s.fieldErrors
  {
  }

  /** A submission that the server accepts ends, once the timer fires, on
      the screen the page started with. */
  lemma SuccessReturnsToStart(s: Screen, service: string, v: VisitorRegistration.RegisterResponse)
    requires v.Created?
    requires Validate(s.form) == map[]
    requires s.serverError == "" && !s.loading
    ensures AfterSuccess(Finish(Begin(s, service).0, Answered(v))) == Initial
  {
  }

  // ------------------------------------- the client's check against the server's

  /** Collapsing whitespace runs keeps a string made of phone characters
      made of phone characters. */
  lemma {:induction false} CollapseKeepsPhoneChars(s: string)
    requires forall i :: 0 <= i < |s| ==> PhoneChar(s[i])
    ensures forall i :: 0 <= i < |Collapse(s)| ==> PhoneChar(Collapse(s)[i])
    decreases |s|
  {
    if s != [] {
      if IsSpace(s[0]) {
        var rest := TrimStart(s);
        TrimStartSuffix(s);
        assert forall i :: 0 <= i < |rest| ==> rest[i] == s[|s| - |rest| + i];
        CollapseKeepsPhoneChars(rest);
        assert Collapse(s) == [' '] + Collapse(rest);
      } else {
        CollapseKeepsPhoneChars(s[1..]);
        assert Collapse(s) == [s[0]] + Collapse(s[1..]);
      }
    }
  }

  /** Trimming keeps only characters of the original string. */
  lemma TrimKeepsPhoneChars(s: string)
    requires forall i :: 0 <= i < |s| ==> PhoneChar(s[i])
    ensures forall i :: 0 <= i < |Trim(s)| ==> PhoneChar(Trim(s)[i])
  {
    var a := TrimStart(s);
    TrimStartSuffix(s);
    assert forall i :: 0 <= i < |a| ==> a[i] == s[|s| - |a| + i];
    var b := TrimEnd(a);
    TrimEndPrefix(a);
    assert forall i :: 0 <= i < |b| ==> b[i] == a[i];
  }

  /** The sanitised form of a phone the client accepted is blank or made of
      phone characters and at most 20 long, so the server refuses it only
      when sanitising leaves fewer than six characters. */
  lemma ServerPhoneVerdict(f: Form, service: string)
    requires f.firstTime.Some? && PhoneOk(f.phone)
    ensures var p := Sanitise(Str(Trim(f.phone)));
      (PhoneInvalid in ValidateVisitor(Payload(f, service))) <==> 0 < |p| < 6
  {
    var t := Trim(f.phone);
    var p := Sanitise(Str(t));
    if f.phone != "" {
      TrimKeepsPhoneChars(t);
      TrimShape(t);
      CollapseKeepsPhoneChars(Trim(t));
      assert |p| <= 20;
    } else {
      assert p == "";
    }
  }

  /** Four spaces and a digit lose their spaces to `TrimStart`. */
  lemma LeadingSpacesDropped()
    ensures TrimStart("    2") == "2"
  {
    assert TrimStart(" 2") == "2" by { assert " 2"[1..] == "2"; }
    assert TrimStart("  2") == "2" by { assert "  2"[1..] == " 2"; }
    assert TrimStart("   2") == "2" by { assert "   2"[1..] == "  2"; }
    assert "    2"[1..] == "   2";
  }

  /** "1    2" is its own trimmed form and matches the client's pattern. */
  lemma SpacedPhoneTrimmed()
    ensures Trim("1    2") == "1    2" && PhonePattern("1    2")
  {
    var phone := "1    2";
    assert TrimStart(phone) == phone;
    assert TrimEnd(phone) == phone;
  }

  /** "1    2" collapses to "1 2". */
  lemma SpacedPhoneCollapses()
    ensures Collapse("1    2") == "1 2"
  {
    var phone := "1    2";
    assert phone[1..] == "    2";
    LeadingSpacesDropped();
    assert Collapse(phone[1..]) == [' '] + Collapse("2");
  }

  /** "1    2" passes the client's check and sanitises to "1 2". */
  lemma SpacedPhone()
    ensures Trim("1    2") == "1    2" && PhonePattern("1    2")
    ensures Sanitise(Str(Trim("1    2"))) == "1 2"
  {
    SpacedPhoneTrimmed();
    SpacedPhoneCollapses();
  }

  /** The client checks the phone before whitespace runs are collapsed and
      the server after: "1    2" passes the client's check and the server
      refuses it as "1 2". */
  lemma ClientAndServerDisagreeOnPhone(name: string, gender: string, firstTime: bool, service: string)
    ensures var f := Form(name, "1    2", gender, Some(firstTime));
      && Phone !in Validate(f)
      && PhoneInvalid in ValidateVisitor(Payload(f, service))
  {
    var f := Form(name, "1    2", gender, Some(firstTime));
    SpacedPhone();
    ValidateReports(f);
    ServerPhoneVerdict(f, service);
  }

  /** A string whose first and last characters are not whitespace keeps
      at least those two characters among its non-whitespace ones. */
  lemma TwoEndsTwoNonSpace(t: string)
    requires |t| >= 2 && !IsSpace(t[0]) && !IsSpace(t[|t| - 1])
    ensures |NonSpaceChars(t)| >= 2
  {
    var mid := t[1..|t| - 1];
    assert t == [t[0]] + (mid + [t[|t| - 1]]);
    NonSpaceAppend([t[0]], mid + [t[|t| - 1]]);
    NonSpaceAppend(mid, [t[|t| - 1]]);
  }

  /** A name the client finds long enough is still at least two UTF-16
      code units long once the server has sanitised it, and sanitising the
      trimmed name gives what sanitising the name gives. */
  lemma NameSurvivesSanitise(name: string)
    requires JsLength(Trim(name)) >= 2
    ensures JsLength(Sanitise(Str(Trim(name)))) >= 2
    ensures Sanitise(Str(Trim(name))) == Sanitise(Str(name))
  {
    var t := Trim(name);
    TrimShape(name);
    TrimIdempotent(name);
    if |t| >= 2 {
      TwoEndsTwoNonSpace(t);
      SanitiseKeepsNonSpace(t);
    } else {
      // a single character outside the Basic Multilingual Plane
      assert Normalised(t);
      SanitiseFixesNormalised(t);
    }
  }

  /** The select's genders are left alone by sanitising. */
  lemma GenderSurvivesSanitise(g: string)
    requires g in GenderOptions
    ensures Sanitise(Str(g)) == g
  {
    assert forall i :: 0 <= i < |g| ==> !IsSpace(g[i]);
    SanitiseFixesNormalised(g);
  }

  /** For a form the client accepts, with one of the select's genders, the
      server finds the name long enough, the gender listed and the
      first-visit answer a boolean; what remains for it to refuse is a name
      over 200 UTF-16 code units, a phone that collapses below six characters, or
      the service. */
  lemma ServerAgreesOnNameGenderFirstTime(f: Form, service: string)
    requires Validate(f) == map[] && f.gender in GenderOptions
    ensures var errors := ValidateVisitor(Payload(f, service));
      && FullNameRequired !in errors && GenderInvalid !in errors && FirstTimeInvalid !in errors
      && (FullNameTooLong in errors <==> JsLength(Sanitise(Str(f.fullName))) > 200)
      && (ServiceInvalid in errors <==> service !in Services)
  {
    ValidateReports(f);
    NameSurvivesSanitise(f.fullName);
    GenderSurvivesSanitise(f.gender);
  }

  /** A form the client accepts, with a blank phone, one of the select's
      genders, a name of at most 200 UTF-16 code units once sanitised and a
      service the server lists, is registered when the store raises
      nothing. */
  lemma AcceptedFormIsRegistered(f: Form, service: string, t: VisitorRegistration.Tables, today: Date,
                                  createdAt: Timestamp, checkedIn: Timestamp)
    requires Validate(f) == map[] && f.gender in GenderOptions && f.phone == ""
    requires JsLength(Sanitise(Str(f.fullName))) <= 200 && service in Services
    ensures VisitorRegistration.Step(t, Payload(f, service), today, createdAt, checkedIn, VisitorRegistration.NoFault).0.Created?
  {
    ServerAgreesOnNameGenderFirstTime(f, service);
    ServerPhoneVerdict(f, service);
    VisitorRegistration.StepEffect(t, Payload(f, service), today, createdAt, checkedIn, VisitorRegistration.NoFault);
  }
}
