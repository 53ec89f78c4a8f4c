/** The PIN dialog in front of the history page: four one-character boxes
    that accept a digit each, Backspace to empty a box, paste to fill them
    from the clipboard, and a check of the four digits against "1234" once
    the last box is filled. A wrong PIN empties the boxes, shows an error and
    shakes the dialog until a timer stops it. */
module PinEntry {
  import opened Text

  const Pin := "1234"
  const IncorrectMessage := "Incorrect PIN. Please try again."
  const Blank: seq<string> := ["", "", "", ""]

  /** The dialog's state: the four boxes, the error line, whether it is
      shaking, and whether the success callback has fired. */
  datatype Pad = Pad(slots: seq<string>, error: string, shake: bool, unlocked: bool)

  /** `/^\d$/`. */
  predicate OneDigit(s: string)
  {
    |s| == 1 && IsDigit(s[0])
  }

  /** Four boxes, each empty or holding one digit. */
  predicate WellFormed(p: Pad)
  {
    |p.slots| == 4 && forall k :: 0 <= k < 4 ==> p.slots[k] == "" || OneDigit(p.slots[k])
  }

  /** `[...digits].join('')`. */
  function Entered(slots: seq<string>): string
  {
    Join(slots, "")
  }

  /** `triggerError`: the error line, the shake, and empty boxes. */
  function Failed(p: Pad): Pad
  {
    p.(slots := Blank, error := IncorrectMessage, shake := true)
  }

  /** The check of a complete entry. */
  function Check(p: Pad, pin: string): Pad
  {
    if pin == Pin then p.(unlocked := true) else Failed(p)
  }

  /** `handleChange(i, val)`. */
  function AfterChange(p: Pad, i: nat, val: string): Pad
    requires i < |p.slots|
  {
    if val != "" && !OneDigit(val) then p
    else
      var next := p.(slots := p.slots[i := val], error := "");
      if val != "" && i == 3 then Check(next, Entered(next.slots)) else next
  }

  /** `handleKeyDown(i, e)`: only Backspace does anything. */
  function AfterKeyDown(p: Pad, i: nat, key: string): Pad
    requires i < |p.slots|
  {
    if key == "Backspace" then p.(slots := p.slots[i := ""], error := "") else p
  }

  /** `text.replace(/\D/g, '')`. */
  function DigitsOf(text: string): (r: string)
    ensures |r| <= |text|
    ensures forall k :: 0 <= k < |r| ==> IsDigit(r[k])
  {
    if text == [] then []
    else (if IsDigit(text[0]) then [text[0]] else []) + DigitsOf(text[1..])
  }

  /** Removing the non-digits of two pieces and joining them is removing
      the non-digits of the joined text. */
  lemma {:induction false} DigitsOfAppend(a: string, b: string)
    ensures DigitsOf(a + b) == DigitsOf(a) + DigitsOf(b)
  {
    if a == [] {
      assert a + b == b;
    } else {
      assert (a + b)[0] == a[0];
      assert (a + b)[1..] == a[1..] + b;
      DigitsOfAppend(a[1..], b);
    }
  }

  /** The text grown by one character loses that character exactly when it
      is not a digit, so `DigitsOf` keeps the digits in their order. */
  lemma DigitsOfSnoc(text: string, c: char)
    ensures DigitsOf(text + [c]) == DigitsOf(text) + (if IsDigit(c) then [c] else [])
  {
    DigitsOfAppend(text, [c]);
    assert [c][1..] == [];
  }

  /** A character survives exactly when it is a digit of the text. */
  lemma {:induction false} DigitsOfMembers(text: string, c: char)
    ensures c in DigitsOf(text) <==> c in text && IsDigit(c)
  {
    if text != [] {
      DigitsOfMembers(text[1..], c);
      assert text == [text[0]] + text[1..];
    }
  }

  /** Text that is all digits is kept whole. */
  lemma {:induction false} DigitsOfDigits(text: string)
    requires AllDigits(text)
    ensures DigitsOf(text) == text
  {
    if text != [] {
      DigitsOfDigits(text[1..]);
      assert text == [text[0]] + text[1..];
    }
  }

  /** `.slice(0, 4)` of the pasted digits: the first four digits of the
      text, or all of them when there are fewer. */
  function PastedDigits(text: string): (raw: string)
    ensures |raw| <= 4 && AllDigits(raw)
    ensures raw <= DigitsOf(text)
    ensures |raw| == if |DigitsOf(text)| < 4 then |DigitsOf(text)| else 4
  {
    var all := DigitsOf(text);
    if |all| <= 4 then all else all[..4]
  }

  /** The boxes filled from `raw`, from the first, the rest empty. */
  function Spread(raw: string): (slots: seq<string>)
    requires |raw| <= 4
    ensures |slots| == 4
    ensures forall k :: 0 <= k < |raw| ==> slots[k] == [raw[k]]
    ensures forall k :: |raw| <= k < 4 ==> slots[k] == ""
  {
    seq(4, k requires 0 <= k < 4 => if k < |raw| then [raw[k]] else "")
  }

  /** `handlePaste`: a paste without digits changes nothing; otherwise the
      boxes are refilled, and four digits are checked. */
  function AfterPaste(p: Pad, text: string): Pad
  {
    var raw := PastedDigits(text);
    if raw == "" then p
    else
      var next := p.(slots := Spread(raw), error := "");
      if |raw| < 4 then next else Check(next, raw)
  }

  /** The shake timer running out. */
  function AfterShake(p: Pad): Pad
  {
    p.(shake := false)
  }

  // ------------------------------------------------------------ the component

  class PinModal {
    var digits: array<string>
    var error: string
    var shake: bool
    var unlocked: bool

    function State(): Pad
      reads this, digits
    {
      Pad(digits[..], error, shake, unlocked)
    }

    ghost predicate Valid()
      reads this, digits
    {
      digits.Length == 4 && WellFormed(State())
    }

    constructor ()
      ensures Valid() && State() == Pad(Blank, "", false, false)
    {
      digits := new string[4](_ => "");
      error, shake, unlocked := "", false, false;
    }

    /** `triggerError`. */
    method TriggerError()
      requires Valid()
      modifies this, digits
      ensures Valid() && digits == old(digits)
      ensures State() == Failed(old(State()))
    {
      var boxes := digits;
      for k := 0 to 4
        invariant digits == boxes && error == old(error) && shake == old(shake) && unlocked == old(unlocked)
        invariant forall j :: 0 <= j < k ==> boxes[j] == ""
      {
        boxes[k] := "";
      }
      assert boxes[..] == Blank;
      error := IncorrectMessage;
      shake := true;
    }

    /** Checks a complete entry. */
    method Validate(pin: string)
      requires Valid()
      modifies this, digits
      ensures Valid() && digits == old(digits)
      ensures State() == Check(old(State()), pin)
    {
      if pin == Pin {
        unlocked := true;
      } else {
        TriggerError();
      }
    }

    method HandleChange(i: nat, val: string)
      requires Valid() && i < 4
      modifies this, digits
      ensures Valid() && digits == old(digits)
      ensures State() == AfterChange(old(State()), i, val)
    {
      if val != "" && !OneDigit(val) {
        return;
      }
      digits[i] := val;
      error := "";
      if val != "" && i == 3 {
        Validate(Entered(digits[..]));
      }
    }

    method HandleKeyDown(i: nat, key: string)
      requires Valid() && i < 4
      modifies this, digits
      ensures Valid() && digits == old(digits)
      ensures State() == AfterKeyDown(old(State()), i, key)
    {
      if key == "Backspace" {
        digits[i] := "";
        error := "";
      }
    }

    method HandlePaste(text: string)
      requires Valid()
      modifies this, digits
      ensures Valid() && digits == old(digits)
      ensures State() == AfterPaste(old(State()), text)
    {
      var raw := PastedDigits(text);
      if raw == "" {
        return;
      }
      var boxes := digits;
      for k := 0 to 4
        invariant digits == boxes && error == old(error) && shake == old(shake) && unlocked == old(unlocked)
        invariant forall j :: 0 <= j < k ==> boxes[j] == ""
      {
        boxes[k] := "";
      }
      for k := 0 to |raw|
        invariant digits == boxes && error == old(error) && shake == old(shake) && unlocked == old(unlocked)
        invariant forall j :: 0 <= j < k ==> boxes[j] == [raw[j]]
        invariant forall j :: k <= j < 4 ==> boxes[j] == ""
      {
        boxes[k] := [raw[k]];
      }
      assert boxes[..] == Spread(raw);
      error := "";
      if |raw| == 4 {
        Validate(raw);
      }
    }

    method ShakeTimeout()
      modifies this
      ensures State() == AfterShake(old(State()))
    {
      shake := false;
    }
  }

  // ------------------------------------------------------------ properties

  /** Every event keeps four boxes, each empty or a single digit. */
  lemma EventsKeepWellFormed(p: Pad, i: nat, val: string, key: string, text: string)
    requires WellFormed(p) && i < 4
    ensures WellFormed(AfterChange(p, i, val))
    ensures WellFormed(AfterKeyDown(p, i, key))
    ensures WellFormed(AfterPaste(p, text))
    ensures WellFormed(AfterShake(p))
  {
    var raw := PastedDigits(text);
    if |raw| > 0 {
      forall k | 0 <= k < 4
        ensures Spread(raw)[k] == "" || OneDigit(Spread(raw)[k])
      {
        if k < |raw| {
          assert IsDigit(raw[k]);
        }
      }
    }
  }

  /** A typed value that is not empty and not one digit is ignored; an
      accepted one that does not fill the last box writes box `i` only and
      clears the error. */
  lemma ChangeWritesOneSlot(p: Pad, i: nat, val: string)
    requires WellFormed(p) && i < 4
    ensures val != "" && !OneDigit(val) ==> AfterChange(p, i, val) == p
    ensures (val == "" || OneDigit(val)) && !(val != "" && i == 3) ==>
      && AfterChange(p, i, val).slots[i] == val
      && (forall j :: 0 <= j < 4 && j != i ==> AfterChange(p, i, val).slots[j] == p.slots[j])
      && AfterChange(p, i, val).error == ""
      && AfterChange(p, i, val).unlocked == p.unlocked
  {
  }

  lemma {:induction false} EnteredOfFour(a: string, b: string, c: string, d: string)
    ensures Entered([a, b, c, d]) == a + b + c + d
  {
    assert [a, b, c, d][1..] == [b, c, d];
    assert [b, c, d][1..] == [c, d];
    assert [c, d][1..] == [d];
    assert Join([c, d], "") == c + d by { assert c + "" == c; }
    assert Join([b, c, d], "") == b + c + d by { assert b + "" == b; }
    assert Join([a, b, c, d], "") == a + b + c + d by { assert a + "" == a; }
  }

  /** Filling the last box checks the four boxes: the dialog unlocks
      exactly when they spell "1234"; otherwise every box is emptied and the
      error shown. */
  lemma {:induction false} LastSlotChecks(p: Pad, val: string)
    requires WellFormed(p) && OneDigit(val)
    ensures var q := AfterChange(p, 3, val);
      var pin := p.slots[0] + p.slots[1] + p.slots[2] + val;
      && (pin == Pin ==> q.unlocked && q.slots == p.slots[3 := val] && q.error == "")
      && (pin != Pin ==> q.unlocked == p.unlocked && q.slots == Blank && q.error == IncorrectMessage && q.shake)
  {
    var slots := p.slots[3 := val];
    assert slots == [p.slots[0], p.slots[1], p.slots[2], val];
    EnteredOfFour(p.slots[0], p.slots[1], p.slots[2], val);
  }

  /** Typing 1, 2, 3, 4 into the boxes in order unlocks the dialog, from any
      state. */
  lemma {:induction false} TypingThePinUnlocks(p: Pad)
    requires WellFormed(p)
    ensures AfterChange(AfterChange(AfterChange(AfterChange(p, 0, "1"), 1, "2"), 2, "3"), 3, "4").unlocked
  {
    var p3 := AfterChange(AfterChange(AfterChange(p, 0, "1"), 1, "2"), 2, "3");
    assert p3.slots[..3] == ["1", "2", "3"];
    assert OneDigit("4");
    LastSlotChecks(p3, "4");
  }

  /** Backspace empties box `i` and no other; other keys do nothing. */
  lemma BackspaceEmptiesOneSlot(p: Pad, i: nat, key: string)
    requires WellFormed(p) && i < 4
    ensures key == "Backspace" ==>
      && AfterKeyDown(p, i, key).slots[i] == ""
      && forall j :: 0 <= j < 4 && j != i ==> AfterKeyDown(p, i, key).slots[j] == p.slots[j]
    ensures key != "Backspace" ==> AfterKeyDown(p, i, key) == p
  {
  }

  /** The four pasted digits, read back from the boxes, are the digits
      that were checked: a paste is checked like typing them would be. */
  lemma {:induction false} SpreadReadsBack(raw: string)
    requires |raw| == 4
    ensures Entered(Spread(raw)) == raw
  {
    var s := Spread(raw);
    assert s == [[raw[0]], [raw[1]], [raw[2]], [raw[3]]];
    EnteredOfFour([raw[0]], [raw[1]], [raw[2]], [raw[3]]);
    assert raw == [raw[0]] + [raw[1]] + [raw[2]] + [raw[3]];
  }

  /** A paste keeps only the digits of the text and at most the first four:
      without digits nothing changes; fewer than four fill the first boxes
      and are not checked; four are checked. */
  lemma PasteFillsFromFirstSlot(p: Pad, text: string)
    ensures PastedDigits(text) == "" ==> AfterPaste(p, text) == p
    ensures 0 < |PastedDigits(text)| < 4 ==>
      AfterPaste(p, text) == p.(slots := Spread(PastedDigits(text)), error := "")
    ensures |PastedDigits(text)| == 4 ==>
      (AfterPaste(p, text).unlocked <==> p.unlocked || PastedDigits(text) == Pin)
  {
  }

  /** Separators in the pasted text do not matter: "12-34" unlocks, and so
      does a longer run of digits that starts with the PIN. */
  lemma {:induction false} PastingThePinUnlocks(p: Pad)
    ensures AfterPaste(p, "12-34").unlocked
    ensures AfterPaste(p, "123456").unlocked
  {
    assert DigitsOf("4") == "4" by { assert "4"[1..] == ""; }
    assert DigitsOf("34") == "34" by { assert "34"[1..] == "4"; }
    assert DigitsOf("-34") == "34" by { assert "-34"[1..] == "34"; }
    assert DigitsOf("2-34") == "234" by { assert "2-34"[1..] == "-34"; }
    assert DigitsOf("12-34") == "1234" by { assert "12-34"[1..] == "2-34"; }
    assert DigitsOf("6") == "6" by { assert "6"[1..] == ""; }
    assert DigitsOf("56") == "56" by { assert "56"[1..] == "6"; }
    assert DigitsOf("456") == "456" by { assert "456"[1..] == "56"; }
    assert DigitsOf("3456") == "3456" by { assert "3456"[1..] == "456"; }
    assert DigitsOf("23456") == "23456" by { assert "23456"[1..] == "3456"; }
    assert DigitsOf("123456") == "123456" by { assert "123456"[1..] == "23456"; }
    assert "123456"[..4] == "1234";
  }
}
