// A reference parser for JSON texts, following the grammar of RFC 8259, sections 2 to 7. Each function takes
// the rest of the text and returns what it read together with what is left, or None. A number is kept as its
// text; a \u escape of an unpaired surrogate is rejected.
module JsonParser {
  import opened Wrappers
  import opened JsonValues

  const BACKSPACE := '\U{08}'
  const FORM_FEED := '\U{0C}'

  // Section 2: insignificant whitespace.
  predicate IsSpace(c: char) {
    c == ' ' || c == '\t' || c == '\n' || c == '\r'
  }

  function SkipSpace(t: string): (r: string)
    ensures |r| <= |t|
  {
    if t != [] && IsSpace(t[0]) then SkipSpace(t[1..]) else t
  }

  /******* Strings, section 7 *******/

  function HexValue(c: char): Option<nat> {
    if '0' <= c <= '9' then Some(c as int - '0' as int)
    else if 'a' <= c <= 'f' then Some(c as int - 'a' as int + 10)
    else if 'A' <= c <= 'F' then Some(c as int - 'A' as int + 10)
    else None
  }

  function Hex4(t: string): (r: Option<nat>)
    ensures r.Some? ==> |t| >= 4 && r.value < 0x10000
    ensures r.Some? ==> forall i :: 0 <= i < 4 ==> HexValue(t[i]).Some?
  {
    if |t| < 4 then None
    else
      var a, b, c, d := HexValue(t[0]), HexValue(t[1]), HexValue(t[2]), HexValue(t[3]);
      if a.None? || b.None? || c.None? || d.None? then None
      else Some(a.value * 0x1000 + b.value * 0x100 + c.value * 0x10 + d.value)
  }

  // The text after \u: one code unit, or a surrogate pair written as two escapes.
  function UnicodeEscape(t: string): (r: Option<(char, string)>)
    ensures r.Some? ==> |r.value.1| < |t|
  {
    var unit := Hex4(t);
    if unit.None? then None
    else if !(0xD800 <= unit.value < 0xE000) then Some((unit.value as char, t[4..]))
    else if unit.value < 0xDC00 && "\\u" <= t[4..] then
      var low := Hex4(t[6..]);
      if low.Some? && 0xDC00 <= low.value < 0xE000
      then Some(((0x10000 + (unit.value - 0xD800) * 0x400 + (low.value - 0xDC00)) as char, t[10..]))
      else None
    else None
  }

  // The text after a backslash.
  function Escape(t: string): (r: Option<(char, string)>)
    ensures r.Some? ==> |r.value.1| < |t|
  {
    if t == [] then None
    else if t[0] == 'u' then UnicodeEscape(t[1..])
    else if t[0] == '"' || t[0] == '\\' || t[0] == '/' then Some((t[0], t[1..]))
    else if t[0] == 'b' then Some((BACKSPACE, t[1..]))
    else if t[0] == 'f' then Some((FORM_FEED, t[1..]))
    else if t[0] == 'n' then Some(('\n', t[1..]))
    else if t[0] == 'r' then Some(('\r', t[1..]))
    else if t[0] == 't' then Some(('\t', t[1..]))
    else None
  }

  // The text after the opening quotation mark.
  function ParseChars(t: string): (r: Option<(string, string)>)
    ensures r.Some? ==> |r.value.1| < |t|
    decreases |t|
  {
    if t == [] || t[0] < ' ' then None
    else if t[0] == '"' then Some(("", t[1..]))
    else
      var first := if t[0] == '\\' then Escape(t[1..]) else Some((t[0], t[1..]));
      if first.None? then None
      else
        var more := ParseChars(first.value.1);
        if more.None? then None else Some(([first.value.0] + more.value.0, more.value.1))
  }

  /******* Numbers, section 6 *******/

  function SkipDigits(t: string): (r: string)
    ensures |r| <= |t|
  {
    if t != [] && IsDigit(t[0]) then SkipDigits(t[1..]) else t
  }

  // What is left after one or more digits.
  function AfterDigits(t: string): (r: Option<string>)
    ensures r.Some? ==> |r.value| < |t|
  {
    if t != [] && IsDigit(t[0]) then Some(SkipDigits(t[1..])) else None
  }

  function AfterInt(t: string): (r: Option<string>)
    ensures r.Some? ==> |r.value| < |t|
  {
    if "0" <= t then Some(t[1..]) else AfterDigits(t)
  }

  function AfterFrac(t: string): (r: Option<string>)
    ensures r.Some? ==> |r.value| <= |t|
  {
    if "." <= t then AfterDigits(t[1..]) else Some(t)
  }

  function SkipSign(t: string): (r: string)
    ensures |r| <= |t|
  {
    if "+" <= t || "-" <= t then t[1..] else t
  }

  function AfterExp(t: string): (r: Option<string>)
    ensures r.Some? ==> |r.value| <= |t|
  {
    if "e" <= t || "E" <= t then AfterDigits(SkipSign(t[1..])) else Some(t)
  }

  function AfterNumber(t: string): (r: Option<string>)
    ensures r.Some? ==> |r.value| < |t|
  {
    var whole := AfterInt(if "-" <= t then t[1..] else t);
    if whole.None? then None
    else
      var frac := AfterFrac(whole.value);
      if frac.None? then None else AfterExp(frac.value)
  }

  // A text that is a number and nothing else.
  predicate IsNumber(text: string) {
    AfterNumber(text) == Some("")
  }

  /******* Values, arrays and objects, sections 3 to 5 *******/

  function ParseValue(t: string): (r: Option<(Json, string)>)
    ensures r.Some? ==> |r.value.1| < |t|
    decreases |t|, 0
  {
    if "null" <= t then Some((Null, t[4..]))
    else if "true" <= t then Some((Bool(true), t[4..]))
    else if "false" <= t then Some((Bool(false), t[5..]))
    else if "\"" <= t then
      var chars := ParseChars(t[1..]);
      if chars.None? then None else Some((Str(chars.value.0), chars.value.1))
    else if "[" <= t then
      var u := SkipSpace(t[1..]);
      if "]" <= u then Some((Arr([]), u[1..]))
      else
        var items := ParseItems(u);
        if items.None? then None else Some((Arr(items.value.0), items.value.1))
    else if "{" <= t then
      var u := SkipSpace(t[1..]);
      if "}" <= u then Some((Obj([]), u[1..]))
      else
        var members := ParseMembers(u);
        if members.None? then None else Some((Obj(members.value.0), members.value.1))
    else
      var u := AfterNumber(t);
      if u.None? then None else Some((Num(t[..|t| - |u.value|]), u.value))
  }

  // One or more values separated by commas, up to the closing bracket.
  function ParseItems(t: string): (r: Option<(seq<Json>, string)>)
    ensures r.Some? ==> |r.value.1| < |t|
    decreases |t|, 1
  {
    var first := ParseValue(t);
    if first.None? then None
    else
      var u := SkipSpace(first.value.1);
      if "]" <= u then Some(([first.value.0], u[1..]))
      else if "," <= u then
        var more := ParseItems(SkipSpace(u[1..]));
        if more.None? then None else Some(([first.value.0] + more.value.0, more.value.1))
      else None
  }

  // One name and its value.
  function ParseMember(t: string): (r: Option<(Field, string)>)
    ensures r.Some? ==> |r.value.1| < |t|
    decreases |t|, 1
  {
    if !("\"" <= t) then None
    else
      var key := ParseChars(t[1..]);
      if key.None? then None
      else
        var u := SkipSpace(key.value.1);
        if !(":" <= u) then None
        else
          var val := ParseValue(SkipSpace(u[1..]));
          if val.None? then None else Some((Field(key.value.0, val.value.0), val.value.1))
  }

  // One or more members separated by commas, up to the closing brace.
  function ParseMembers(t: string): (r: Option<(seq<Field>, string)>)
    ensures r.Some? ==> |r.value.1| < |t|
    decreases |t|, 2
  {
    var first := ParseMember(t);
    if first.None? then None
    else
      var u := SkipSpace(first.value.1);
      if "}" <= u then Some(([first.value.0], u[1..]))
      else if "," <= u then
        var more := ParseMembers(SkipSpace(u[1..]));
        if more.None? then None else Some(([first.value.0] + more.value.0, more.value.1))
      else None
  }

  // A whole JSON text.
  function Parse(t: string): Option<Json> {
    var v := ParseValue(SkipSpace(t));
    if v.Some? && SkipSpace(v.value.1) == [] then Some(v.value.0) else None
  }

  /******* How the parser reads on *******/

  predicate Blank(t: string) {
    forall c :: c in t ==> IsSpace(c)
  }

  lemma {:induction false} SkipsBlank(gap: string, t: string)
    requires Blank(gap) && (t == [] || !IsSpace(t[0]))
    ensures SkipSpace(gap + t) == t
  {
    if gap == [] {
      assert gap + t == t;
    } else {
      assert (gap + t)[1..] == gap[1..] + t;
      SkipsBlank(gap[1..], t);
    }
  }

  // A text on which no number can continue.
  predicate Stops(t: string) {
    t == [] || IsSpace(t[0]) || t[0] == ',' || t[0] == ']' || t[0] == '}'
  }

  lemma {:induction false} DigitsStop(t: string, rest: string)
    requires Stops(rest)
    ensures SkipDigits(t + rest) == SkipDigits(t) + rest
    ensures AfterDigits(t).Some? ==> AfterDigits(t + rest) == Some(AfterDigits(t).value + rest)
    decreases |t|
  {
    if t == [] {
      assert t + rest == rest;
    } else {
      assert (t + rest)[1..] == t[1..] + rest;
      DigitsStop(t[1..], rest);
    }
  }

  lemma FracStops(t: string, rest: string)
    requires Stops(rest) && AfterFrac(t).Some?
    ensures AfterFrac(t + rest) == Some(AfterFrac(t).value + rest)
  {
    if t == [] {
      assert t + rest == rest;
    } else {
      assert (t + rest)[1..] == t[1..] + rest;
      DigitsStop(t[1..], rest);
    }
  }

  lemma SignStops(t: string, rest: string)
    requires t != []
    ensures SkipSign(t + rest) == SkipSign(t) + rest
  {
    assert (t + rest)[0] == t[0] && (t + rest)[1..] == t[1..] + rest;
  }

  lemma ExpStops(t: string, rest: string)
    requires Stops(rest) && AfterExp(t).Some?
    ensures AfterExp(t + rest) == Some(AfterExp(t).value + rest)
  {
    if t == [] {
      assert t + rest == rest;
    } else {
      assert (t + rest)[0] == t[0] && (t + rest)[1..] == t[1..] + rest;
      if t[0] == 'e' || t[0] == 'E' {
        assert t[1..] != [];
        SignStops(t[1..], rest);
        DigitsStop(SkipSign(t[1..]), rest);
      }
    }
  }

  // Where a number ends does not depend on what follows it.
  lemma NumberStops(text: string, rest: string)
    requires IsNumber(text) && Stops(rest)
    ensures AfterNumber(text + rest) == Some(rest)
  {
    var t := if "-" <= text then text[1..] else text;
    if "-" <= text {
      assert (text + rest)[1..] == t + rest;
    }
    DigitsStop(t, rest);
    if "0" <= t {
      assert (t + rest)[1..] == t[1..] + rest;
    }
    assert t != [] && (t + rest)[0] == t[0];
    assert AfterInt(t + rest) == Some(AfterInt(t).value + rest);
    assert text != [] && (text + rest)[0] == text[0];
    FracStops(AfterInt(t).value, rest);
    ExpStops(AfterFrac(AfterInt(t).value).value, rest);
    assert [] + rest == rest;
  }

  /******* What a string literal can denote *******/

  // An escape takes printable characters only, and a quotation mark only to stand for itself.
  lemma EscapeShape(t: string)
    requires Escape(t).Some?
    ensures var taken := |t| - |Escape(t).value.1|;
      && taken >= 1 && Escape(t).value.1 == t[taken..]
      && (forall i :: 0 <= i < taken ==> t[i] >= ' ')
      && (if t[0] == '"' then Escape(t).value.0 == '"' else forall i :: 0 <= i < taken ==> t[i] != '"')
  {
    if t[0] == 'u' {
      var u := t[1..];
      var taken := |t| - |Escape(t).value.1|;
      assert taken == 5 || (taken == 11 && "\\u" <= u[4..] && Hex4(u[6..]).Some?);
      forall i | 0 <= i < taken ensures t[i] >= ' ' && t[i] != '"' {
        if 1 <= i < 5 {
          assert HexValue(u[i - 1]).Some?;
        } else if 7 <= i {
          assert HexValue(u[6..][i - 7]).Some?;
        } else if i >= 5 {
          assert u[4..][i - 5] == t[i];
        }
      }
    }
  }

  // A control character cannot be read past.
  lemma {:induction false} ControlStops(t: string, n: nat)
    requires n < |t| && t[n] < ' '
    requires ParseChars(t).Some?
    ensures |ParseChars(t).value.0| < n
    decreases |t|
  {
    if t[0] == '\\' {
      EscapeShape(t[1..]);
      var rest := Escape(t[1..]).value.1;
      var taken := |t| - |rest|;
      assert forall i :: 1 <= i < taken ==> t[i] == t[1..][i - 1];
      ControlStops(rest, n - taken);
    } else if t[0] != '"' {
      ControlStops(t[1..], n - 1);
    }
  }

  // A character does not occur in the first n characters.
  predicate Free(t: string, n: nat, c: char)
    requires n <= |t|
  {
    forall i :: 0 <= i < n ==> t[i] != c
  }

  ghost predicate QuoteWithin(s: string, n: nat) {
    exists j :: 0 <= j < n && j < |s| && s[j] == '"'
  }

  lemma QuoteMoves(c: char, s: string, m: nat, n: nat)
    requires m < n && QuoteWithin(s, m)
    ensures QuoteWithin([c] + s, n)
  {
    var j :| 0 <= j < m && j < |s| && s[j] == '"';
    assert ([c] + s)[j + 1] == '"';
  }

  // Up to the first quotation mark a literal denotes itself, or less than itself, or a quotation mark.
  ghost predicate Shrinks(t: string, n: nat)
    requires n <= |t| && ParseChars(t).Some?
  {
    var s := ParseChars(t).value.0;
    QuoteWithin(s, n) || |s| < n || (|s| == n && Free(t, n, '\\'))
  }

  lemma {:induction false} FirstQuote(t: string, n: nat)
    requires n < |t| && t[n] == '"' && Free(t, n, '"')
    requires ParseChars(t).Some?
    ensures Shrinks(t, n)
    decreases |t|, 1
  {
    if n > 0 {
      if t[0] == '\\' {
        FirstQuoteEscaped(t, n);
      } else {
        FirstQuote(t[1..], n - 1);
        var s := ParseChars(t[1..]).value.0;
        if QuoteWithin(s, n - 1) {
          QuoteMoves(t[0], s, n - 1, n);
        }
      }
    }
  }

  lemma {:induction false} FirstQuoteEscaped(t: string, n: nat)
    requires 0 < n < |t| && t[0] == '\\' && t[n] == '"' && Free(t, n, '"')
    requires ParseChars(t).Some?
    ensures Shrinks(t, n)
    decreases |t|, 0
  {
    EscapeShape(t[1..]);
    var (c, rest) := Escape(t[1..]).value;
    var taken := |t| - |rest|;
    var s := ParseChars(rest).value.0;
    assert ParseChars(t).value.0 == [c] + s;
    if n == 1 {
      assert ([c] + s)[0] == '"';
    } else {
      EscapeBefore(t, n, rest);
      FirstQuote(rest, n - taken);
      if QuoteWithin(s, n - taken) {
        QuoteMoves(c, s, n - taken, n);
      }
    }
  }

  lemma EscapeBefore(t: string, n: nat, rest: string)
    requires 1 < n < |t| && t[n] == '"' && Free(t, n, '"')
    requires Escape(t[1..]).Some? && rest == Escape(t[1..]).value.1
    ensures var taken := |t| - |rest|;
      2 <= taken <= n && rest == t[taken..] && rest[n - taken] == '"' && Free(rest, n - taken, '"')
  {
    EscapeShape(t[1..]);
    var taken := |t| - |rest|;
    assert t[1] != '"';
    assert t[1..][n - 1] == t[n];
  }
}
