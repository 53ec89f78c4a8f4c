/** String primitives of the JavaScript runtime that the attendance system
    relies on: the `\s` whitespace class (shared by String.prototype.trim and
    regular expressions), trimming, collapsing whitespace runs, ASCII digits
    and upper-casing, prefix and substring tests, and Array.prototype.join. */
module Text {

  /** A character of the `\s` class: the ECMAScript WhiteSpace and
      LineTerminator code points. */
  predicate IsSpace(c: char)
  {
    var k := c as int;
    k == 0x09 || k == 0x0A || k == 0x0B || k == 0x0C || k == 0x0D || k == 0x20 ||
    k == 0xA0 || k == 0x1680 || (0x2000 <= k <= 0x200A) || k == 0x2028 || k == 0x2029 ||
    k == 0x202F || k == 0x205F || k == 0x3000 || k == 0xFEFF
  }

  /** A character of the `\d` class (ASCII digits only, no `u` flag). */
  predicate IsDigit(c: char)
  {
    '0' <= c <= '9'
  }

  predicate AllDigits(s: string)
  {
    forall i :: 0 <= i < |s| ==> IsDigit(s[i])
  }

  predicate AllSpace(s: string)
  {
    forall i :: 0 <= i < |s| ==> IsSpace(s[i])
  }

  /** Upper-casing of ASCII letters; every other character is kept. */
  function UpperChar(c: char): (u: char)
    ensures 'a' <= c <= 'z' ==> u as int == c as int - 32
    ensures !('a' <= c <= 'z') ==> u == c
  {
    if 'a' <= c <= 'z' then (c as int - 32) as char else c
  }

  function Upper(s: string): (u: string)
    ensures |u| == |s|
    ensures forall i :: 0 <= i < |s| ==> u[i] == UpperChar(s[i])
  {
    if s == [] then [] else [UpperChar(s[0])] + Upper(s[1..])
  }

  /** Applies a per-character mapping (a collation's case folding). */
  function MapChars(f: char -> char, s: string): (r: string)
    ensures |r| == |s|
    ensures forall i :: 0 <= i < |s| ==> r[i] == f(s[i])
  {
    if s == [] then [] else [f(s[0])] + MapChars(f, s[1..])
  }

  predicate IsPrefix(p: string, s: string)
  {
    |p| <= |s| && s[..|p|] == p
  }

  /** `needle` occurs somewhere in `hay` (SQL `LIKE '%needle%'` without wildcards). */
  predicate Contains(hay: string, needle: string)
  {
    exists i | 0 <= i <= |hay| - |needle| :: OccursAt(hay, needle, i)
  }

  predicate OccursAt(hay: string, needle: string, i: int)
    requires 0 <= i <= |hay| - |needle|
  {
    hay[i..i + |needle|] == needle
  }

  /** Drops the leading whitespace of `s`. */
  function TrimStart(s: string): (r: string)
    ensures |r| <= |s|
    ensures r == [] || !IsSpace(r[0])
    ensures forall i :: 0 <= i < |s| - |r| ==> IsSpace(s[i])
    ensures s != [] && IsSpace(s[0]) ==> |r| < |s|
  {
    if s == [] || !IsSpace(s[0]) then s else TrimStart(s[1..])
  }

  /** Drops the trailing whitespace of `s`. */
  function TrimEnd(s: string): (r: string)
    ensures |r| <= |s|
    ensures r == [] || !IsSpace(r[|r| - 1])
    ensures forall i :: |r| <= i < |s| ==> IsSpace(s[i])
  {
    if s == [] || !IsSpace(s[|s| - 1]) then s else TrimEnd(s[..|s| - 1])
  }

  /** What `TrimStart` leaves is a suffix of its argument. */
  lemma {:induction false} TrimStartSuffix(s: string)
    ensures TrimStart(s) == s[|s| - |TrimStart(s)|..]
    decreases |s|
  {
    if s != [] && IsSpace(s[0]) {
      TrimStartSuffix(s[1..]);
      assert s[1..][|s| - 1 - |TrimStart(s)|..] == s[|s| - |TrimStart(s)|..];
    }
  }

  /** What `TrimEnd` leaves is a prefix of its argument. */
  lemma {:induction false} TrimEndPrefix(s: string)
    ensures TrimEnd(s) == s[..|TrimEnd(s)|]
    decreases |s|
  {
    if s != [] && IsSpace(s[|s| - 1]) {
      TrimEndPrefix(s[..|s| - 1]);
      assert s[..|s| - 1][..|TrimEnd(s)|] == s[..|TrimEnd(s)|];
    }
  }

  /** String.prototype.trim. */
  function Trim(s: string): (r: string)
  {
    TrimEnd(TrimStart(s))
  }

  /** The result of trim is empty exactly when the string is all whitespace,
      and otherwise starts and ends with a non-whitespace character. */
  lemma TrimShape(s: string)
    ensures |Trim(s)| <= |s|
    ensures Trim(s) == [] <==> AllSpace(s)
    ensures Trim(s) != [] ==> !IsSpace(Trim(s)[0]) && !IsSpace(Trim(s)[|Trim(s)| - 1])
  {
    var a := TrimStart(s);
    var b := TrimEnd(a);
    TrimStartSuffix(s);
    TrimEndPrefix(a);
    if b == [] {
      assert a == [];
    } else {
      assert b[0] == a[0];
    }
  }

  /** Trimming twice trims once. */
  lemma TrimIdempotent(s: string)
    ensures Trim(Trim(s)) == Trim(s)
  {
    var t := Trim(s);
    TrimShape(s);
    if t != [] {
      assert TrimStart(t) == t;
      assert TrimEnd(t) == t;
    }
  }

  /** No two adjacent characters of `s` are both whitespace. */
  ghost predicate NoDoubleSpace(s: string)
  {
    forall i, j :: 0 <= i < j < |s| && j == i + 1 ==> !(IsSpace(s[i]) && IsSpace(s[j]))
  }

  /** `s.replace(/\s+/g, ' ')`: every maximal whitespace run becomes one space. */
  function Collapse(s: string): (r: string)
    ensures |r| <= |s|
    ensures s == [] <==> r == []
    ensures forall i :: 0 <= i < |r| && IsSpace(r[i]) ==> r[i] == ' '
    ensures NoDoubleSpace(r)
    ensures s != [] ==> (IsSpace(r[0]) <==> IsSpace(s[0]))
    ensures s != [] ==> (IsSpace(r[|r| - 1]) <==> IsSpace(s[|s| - 1]))
    decreases |s|
  {
    if s == [] then []
    else if IsSpace(s[0]) then
      var rest := TrimStart(s);
      TrimStartSuffix(s);
      [' '] + Collapse(rest)
    else [s[0]] + Collapse(s[1..])
  }

  /** A string as `sanitise` leaves it: no whitespace at either end, no
      whitespace other than single spaces between words. */
  ghost predicate Normalised(s: string)
  {
    && (s != [] ==> !IsSpace(s[0]) && !IsSpace(s[|s| - 1]))
    && (forall i :: 0 <= i < |s| && IsSpace(s[i]) ==> s[i] == ' ')
    && NoDoubleSpace(s)
  }

  /** Collapsing a string with no whitespace run of two or more characters
      and no whitespace other than ' ' changes nothing. */
  lemma {:induction false} CollapseFixed(s: string)
    requires forall i :: 0 <= i < |s| && IsSpace(s[i]) ==> s[i] == ' '
    requires NoDoubleSpace(s)
    ensures Collapse(s) == s
    decreases |s|
  {
    if s == [] {
    } else if IsSpace(s[0]) {
      var rest := TrimStart(s);
      TrimStartSuffix(s);
      assert |s| == 1 || !IsSpace(s[1]);
      assert rest == s[1..];
      CollapseFixed(s[1..]);
    } else {
      CollapseFixed(s[1..]);
    }
  }

  /** Collapsing leaves a leading run of non-whitespace characters alone. */
  lemma {:induction false} CollapseKeepsLeadingWord(s: string, k: nat)
    requires k <= |s|
    requires forall i :: 0 <= i < k ==> !IsSpace(s[i])
    ensures k <= |Collapse(s)| && Collapse(s)[..k] == s[..k]
    decreases k
  {
    if k > 0 {
      CollapseKeepsLeadingWord(s[1..], k - 1);
      assert Collapse(s) == [s[0]] + Collapse(s[1..]);
    }
  }

  /** A leading run of non-whitespace characters in the collapsed string
      was already there before collapsing. */
  lemma {:induction false} LeadingWordWasThere(s: string, k: nat)
    requires k <= |Collapse(s)|
    requires forall i :: 0 <= i < k ==> !IsSpace(Collapse(s)[i])
    ensures k <= |s| && s[..k] == Collapse(s)[..k]
    decreases k
  {
    if k > 0 {
      assert !IsSpace(s[0]);
      var c := Collapse(s[1..]);
      assert Collapse(s) == [s[0]] + c;
      assert forall i :: 0 <= i < k - 1 ==> c[i] == Collapse(s)[i + 1];
      LeadingWordWasThere(s[1..], k - 1);
    }
  }

  function Join(items: seq<string>, sep: string): string
  {
    if items == [] then []
    else if |items| == 1 then items[0]
    else items[0] + sep + Join(items[1..], sep)
  }

  lemma JoinCons(w: string, items: seq<string>, sep: string)
    requires items != []
    ensures Join([w] + items, sep) == w + sep + Join(items, sep)
  {
    assert ([w] + items)[1..] == items;
  }

  // ------------------------------------------------------------ length

  /** The UTF-16 code units a character takes: two outside the Basic
      Multilingual Plane, one inside it. */
  function CodeUnits(c: char): nat
  {
    if c as int >= 0x10000 then 2 else 1
  }

  /** `String.prototype.length`, which counts UTF-16 code units. */
  function JsLength(s: string): (n: nat)
    ensures |s| <= n <= 2 * |s|
  {
    if s == [] then 0 else CodeUnits(s[0]) + JsLength(s[1..])
  }

  lemma {:induction false} JsLengthAppend(a: string, b: string)
    ensures JsLength(a + b) == JsLength(a) + JsLength(b)
    decreases |a|
  {
    if a == [] {
      assert a + b == b;
    } else {
      assert (a + b)[1..] == a[1..] + b;
      JsLengthAppend(a[1..], b);
    }
  }

  // ------------------------------------------------------------ words

  /** A word: a non-empty run of non-whitespace characters. */
  predicate IsWord(w: string)
  {
    w != [] && forall i :: 0 <= i < |w| ==> !IsSpace(w[i])
  }

  /** The length of the run of non-whitespace characters `s` starts with. */
  function WordLength(s: string): (n: nat)
    ensures n <= |s|
    ensures forall i :: 0 <= i < n ==> !IsSpace(s[i])
    ensures n == |s| || IsSpace(s[n])
  {
    if s == [] || IsSpace(s[0]) then 0 else 1 + WordLength(s[1..])
  }

  /** The words of `s`: its maximal runs of non-whitespace characters, in
      order. */
  function WordList(s: string): seq<string>
    decreases |s|
  {
    var t := TrimStart(s);
    if t == [] then []
    else
      var n := WordLength(t);
      [t[..n]] + WordList(t[n..])
  }

  lemma {:induction false} WordListShape(s: string)
    ensures forall k :: 0 <= k < |WordList(s)| ==> IsWord(WordList(s)[k])
    decreases |s|
  {
    var t := TrimStart(s);
    if t != [] {
      var n := WordLength(t);
      assert IsWord(t[..n]);
      WordListShape(t[n..]);
      assert WordList(s) == [t[..n]] + WordList(t[n..]);
    }
  }

  lemma {:induction false} TrimStartSpaces(p: string, x: string)
    requires AllSpace(p)
    ensures TrimStart(p + x) == TrimStart(x)
    decreases |p|
  {
    if p == [] {
      assert p + x == x;
    } else {
      assert (p + x)[1..] == p[1..] + x;
      TrimStartSpaces(p[1..], x);
    }
  }

  lemma {:induction false} TrimEndSpaces(w: string, sp: string)
    requires AllSpace(sp)
    requires w == [] || !IsSpace(w[|w| - 1])
    ensures TrimEnd(w + sp) == w
    decreases |sp|
  {
    if sp == [] {
      assert w + sp == w;
    } else {
      var init := sp[..|sp| - 1];
      assert (w + sp)[..|w + sp| - 1] == w + init;
      TrimEndSpaces(w, init);
    }
  }

  /** Trailing whitespace is trimmed from the end part alone when that part
      starts with a non-whitespace character. */
  lemma {:induction false} TrimEndAppend(a: string, b: string)
    requires b != [] && !IsSpace(b[0])
    ensures TrimEnd(a + b) == a + TrimEnd(b)
    decreases |b|
  {
    if IsSpace(b[|b| - 1]) {
      var init := b[..|b| - 1];
      assert (a + b)[..|a + b| - 1] == a + init;
      TrimEndAppend(a, init);
    }
  }

  /** Collapsing passes over a leading word untouched. */
  lemma {:induction false} CollapseWordPrefix(w: string, x: string)
    requires forall i :: 0 <= i < |w| ==> !IsSpace(w[i])
    ensures Collapse(w + x) == w + Collapse(x)
    decreases |w|
  {
    if w == [] {
      assert w + x == x;
    } else {
      calc {
        Collapse(w + x);
        { assert (w + x)[0] == w[0] && (w + x)[1..] == w[1..] + x; }
        [w[0]] + Collapse(w[1..] + x);
        { CollapseWordPrefix(w[1..], x); }
        [w[0]] + (w[1..] + Collapse(x));
        { assert w == [w[0]] + w[1..]; }
        w + Collapse(x);
      }
    }
  }

  /** The last word, followed only by whitespace, trims and collapses to
      itself. */
  lemma LastWordCollapse(w: string, rest: string)
    requires forall i :: 0 <= i < |w| ==> !IsSpace(w[i])
    requires AllSpace(rest)
    ensures Collapse(TrimEnd(w + rest)) == w
  {
    TrimEndSpaces(w, rest);
    CollapseWordPrefix(w, []);
    assert w + [] == w;
  }

  /** `s` is its leading whitespace followed by what `TrimStart` leaves. */
  lemma LeadingSpaces(s: string) returns (p: string)
    ensures s == p + TrimStart(s) && AllSpace(p)
  {
    TrimStartSuffix(s);
    p := s[..|s| - |TrimStart(s)|];
  }

  lemma NonBlankTrimEnd(q: string)
    requires q != [] && !IsSpace(q[0])
    ensures TrimEnd(q) != [] && TrimEnd(q)[0] == q[0]
  {
    TrimEndPrefix(q);
  }

  /** A whitespace run in front of a word collapses to one space. */
  lemma CollapseSpacesThenWord(p: string, x: string)
    requires p != [] && AllSpace(p)
    requires x != [] && !IsSpace(x[0])
    ensures Collapse(p + x) == [' '] + Collapse(x)
  {
    TrimStartSpaces(p, x);
    assert TrimStart(x) == x;
    assert (p + x)[0] == p[0];
  }

  /** Trimming the end of a word followed by whitespace and more words
      keeps the word and the whitespace after it. */
  lemma InnerWordTrimEnd(w: string, rest: string) returns (p: string)
    requires rest != [] && IsSpace(rest[0]) && TrimStart(rest) != []
    ensures p != [] && AllSpace(p)
    ensures Trim(rest) != [] && !IsSpace(Trim(rest)[0])
    ensures TrimEnd(w + rest) == w + (p + Trim(rest))
  {
    var q := TrimStart(rest);
    p := LeadingSpaces(rest);
    assert |p| > 0 by {
      assert |rest| > |q|;
    }
    NonBlankTrimEnd(q);
    calc {
      TrimEnd(w + rest);
      { assert w + rest == (w + p) + q; }
      TrimEnd((w + p) + q);
      { TrimEndAppend(w + p, q); }
      (w + p) + TrimEnd(q);
      w + (p + Trim(rest));
    }
  }

  /** A word followed by whitespace and more words trims and collapses to
      the word, one space, and the rest trimmed and collapsed. */
  lemma InnerWordCollapse(w: string, rest: string)
    requires forall i :: 0 <= i < |w| ==> !IsSpace(w[i])
    requires rest != [] && IsSpace(rest[0]) && TrimStart(rest) != []
    ensures Collapse(TrimEnd(w + rest)) == w + " " + Collapse(Trim(rest))
  {
    var p := InnerWordTrimEnd(w, rest);
    var x := Trim(rest);
    CollapseSpacesThenWord(p, x);
    CollapseWordPrefix(w, p + x);
  }

  /** `s.trim().replace(/\s+/g, ' ')` is the words of `s`, each kept as it
      is, with exactly one space between neighbours. */
  lemma {:induction false} CollapseTrimJoinsWords(s: string)
    ensures Collapse(Trim(s)) == Join(WordList(s), " ")
    decreases |s|
  {
    var t := TrimStart(s);
    if t != [] {
      var n := WordLength(t);
      var w, rest := t[..n], t[n..];
      assert t == w + rest;
      assert WordList(s) == [w] + WordList(rest);
      if TrimStart(rest) == [] {
        TrimStartSuffix(rest);
        LastWordCollapse(w, rest);
      } else {
        InnerWordCollapse(w, rest);
        CollapseTrimJoinsWords(rest);
        JoinCons(w, WordList(rest), " ");
      }
    }
  }
}
