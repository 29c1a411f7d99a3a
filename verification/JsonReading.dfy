/** The literals of `JSON.stringify`, and what a parser reads from a text that is put together from values. */
module JsonReading {
  import opened Wrappers
  import opened JsonValues
  import opened JsonParser

  function HexDigit(d: nat): (c: char)
    requires d < 16
    ensures HexValue(c) == Some(d)
  {
    if d < 10 then Digit(d) else ('a' as int + d - 10) as char
  }

  // One character inside the literal that `JSON.stringify` prints for a string.
  function EscapedChar(c: char): string {
    if c == '"' then "\\\""
    else if c == '\\' then "\\\\"
    else if c == BACKSPACE then "\\b"
    else if c == FORM_FEED then "\\f"
    else if c == '\n' then "\\n"
    else if c == '\r' then "\\r"
    else if c == '\t' then "\\t"
    else if c < ' ' then "\\u00" + [HexDigit(c as int / 16), HexDigit(c as int % 16)]
    else [c]
  }

  function Escaped(s: string): string {
    if s == [] then [] else EscapedChar(s[0]) + Escaped(s[1..])
  }

  // What JavaScript prints for a number: a JSON number, unless the number is not finite.
  predicate NumberText(text: string) {
    IsNumber(text) || text in {"NaN", "Infinity", "-Infinity"}
  }

  /******* What the parser makes of the text of a value *******/

  lemma CharReads(c: char, u: string)
    requires ParseChars(u).Some?
    ensures ParseChars(EscapedChar(c) + u) == Some(([c] + ParseChars(u).value.0, ParseChars(u).value.1))
  {
    var e := EscapedChar(c);
    var t := e + u;
    if |e| == 1 {
      assert t[1..] == u;
    } else {
      assert Escape(t[1..]) == Some((c, u)) by {
        if |e| == 2 {
          SimpleEscapeReads(c, t, u);
        } else {
          ControlReads(c, t, u);
        }
      }
    }
  }

  lemma SimpleEscapeReads(c: char, t: string, u: string)
    requires |EscapedChar(c)| == 2 && t == EscapedChar(c) + u
    ensures Escape(t[1..]) == Some((c, u))
  {
    assert t[1..][1..] == u;
  }

  lemma ControlReads(c: char, t: string, u: string)
    requires |EscapedChar(c)| == 6 && t == EscapedChar(c) + u
    ensures Escape(t[1..]) == Some((c, u))
  {
    var w := t[2..];
    assert t[1..][1..] == w && w[4..] == u;
    assert w[0] == '0' && w[1] == '0' && HexValue('0') == Some(0);
    assert w[2] == HexDigit(c as int / 16) && w[3] == HexDigit(c as int % 16);
    assert Hex4(w) == Some(c as int);
  }

  lemma {:induction false} StringReads(s: string, rest: string)
    ensures ParseChars((Escaped(s) + "\"") + rest) == Some((s, rest))
  {
    if s == [] {
      assert (Escaped(s) + "\"") + rest == ['"'] + rest;
    } else {
      var u := (Escaped(s[1..]) + "\"") + rest;
      StringReads(s[1..], rest);
      CharReads(s[0], u);
      Group4(EscapedChar(s[0]), Escaped(s[1..]), "\"", rest);
      assert [s[0]] + s[1..] == s;
    }
  }

  lemma Group4(a: string, b: string, c: string, d: string)
    ensures ((a + b) + c) + d == a + ((b + c) + d)
  {
  }

  // The parser reads a value from a text, up to the rest, or else it does not read that value.
  ghost predicate Reads(ok: bool, v: Json, text: string, rest: string) {
    var p := ParseValue(text);
    if ok then p == Some((v, rest)) else p.None? || p.value.0 != v
  }

  lemma NumberReads(text: string, rest: string)
    requires NumberText(text) && Stops(rest)
    ensures Reads(IsNumber(text), Num(text), text + rest, rest)
  {
    if IsNumber(text) {
      FiniteReads(text, rest);
    } else {
      NotFinite(text, text + rest, rest);
    }
  }

  lemma FiniteReads(text: string, rest: string)
    requires IsNumber(text) && Stops(rest)
    ensures ParseValue(text + rest) == Some((Num(text), rest))
  {
    var t := text + rest;
    NumberStops(text, rest);
    assert t[..|t| - |rest|] == text;
    assert t[0] == text[0];
    assert IsDigit(t[0]) || t[0] == '-';
  }

  lemma NotFinite(text: string, t: string, rest: string)
    requires text in {"NaN", "Infinity", "-Infinity"} && t == text + rest
    ensures !IsNumber(text) && ParseValue(t).None?
  {
    assert t[0] == text[0] && t[1] == text[1];
    assert AfterNumber(t).None? && AfterNumber(text).None?;
  }

  // What follows an item or a member: the closing delimiter, or a comma and more.
  lemma TailStops(end: string, close: char, rest: string)
    requires Blank(end) && (close == ']' || close == '}')
    ensures Stops((end + [close]) + rest)
    ensures SkipSpace((end + [close]) + rest) == [close] + rest
  {
    SkipsBlank(end, [close] + rest);
    assert (end + [close]) + rest == end + ([close] + rest);
  }

  lemma NullReads(rest: string)
    ensures Reads(true, Null, "null" + rest, rest)
  {
    assert ("null" + rest)[4..] == rest;
  }

  lemma BoolReads(b: bool, rest: string)
    ensures Reads(true, Bool(b), (if b then "true" else "false") + rest, rest)
  {
    var t := (if b then "true" else "false") + rest;
    assert t[0] == if b then 't' else 'f';
    assert t[if b then 4 else 5..] == rest;
  }

  lemma QuotedReads(s: string, rest: string)
    ensures Reads(true, Str(s), "\"" + (Escaped(s) + "\"") + rest, rest)
  {
    var body := Escaped(s) + "\"";
    var t := "\"" + body + rest;
    StringReads(s, rest);
    assert t[0] == '"';
    assert t[1..] == body + rest;
  }

  lemma EmptyReads(rest: string)
    ensures Reads(true, Arr([]), "[]" + rest, rest)
    ensures Reads(true, Obj([]), "{}" + rest, rest)
  {
    assert ("[]" + rest)[0] == '[' && ("{}" + rest)[0] == '{';
    assert ("[]" + rest)[1..] == "]" + rest && ("{}" + rest)[1..] == "}" + rest;
    assert ("]" + rest)[1..] == rest && ("}" + rest)[1..] == rest;
    SkipsBlank("", "]" + rest);
    SkipsBlank("", "}" + rest);
  }

  ghost predicate ItemsRead(ok: bool, items: seq<Json>, text: string, rest: string) {
    var p := ParseItems(text);
    if ok then p == Some((items, rest)) else p.None? || p.value.0 != items
  }

  ghost predicate FieldsRead(ok: bool, fields: seq<Field>, text: string, rest: string) {
    var p := ParseMembers(text);
    if ok then p == Some((fields, rest)) else p.None? || p.value.0 != fields
  }

  lemma ArrayReads(ok: bool, items: seq<Json>, lead: string, body: string, rest: string)
    requires Blank(lead) && body != [] && !IsSpace(body[0]) && body[0] != ']'
    requires ItemsRead(ok, items, body + rest, rest)
    ensures Reads(ok, Arr(items), "[" + (lead + body) + rest, rest)
  {
    var t := "[" + (lead + body) + rest;
    assert t[0] == '[';
    assert t[1..] == lead + (body + rest);
    SkipsBlank(lead, body + rest);
    assert (body + rest)[0] != ']';
  }

  lemma ObjectReads(ok: bool, fields: seq<Field>, lead: string, body: string, rest: string)
    requires Blank(lead) && body != [] && body[0] == '"'
    requires FieldsRead(ok, fields, body + rest, rest)
    ensures Reads(ok, Obj(fields), "{" + (lead + body) + rest, rest)
  {
    var t := "{" + (lead + body) + rest;
    assert t[0] == '{';
    assert t[1..] == lead + (body + rest);
    SkipsBlank(lead, body + rest);
    assert (body + rest)[0] != '}';
  }

  lemma GapSkipped(gap: string, body: string, rest: string)
    requires Blank(gap) && body != [] && !IsSpace(body[0])
    ensures SkipSpace((("," + (gap + body)) + rest)[1..]) == body + rest
  {
    assert (("," + (gap + body)) + rest)[1..] == gap + (body + rest);
    SkipsBlank(gap, body + rest);
  }

  lemma LastItemReads(ok: bool, items: seq<Json>, first: string, tail: string, rest: string)
    requires |items| == 1 && Reads(ok, items[0], first + (tail + rest), tail + rest)
    requires SkipSpace(tail + rest) == "]" + rest
    ensures ItemsRead(ok, items, (first + tail) + rest, rest)
  {
    assert (first + tail) + rest == first + (tail + rest);
    assert ("]" + rest)[1..] == rest;
    assert items == [items[0]];
  }

  lemma MoreItemsRead(ok: bool, okMore: bool, items: seq<Json>, first: string, tail: string, body: string, rest: string)
    requires |items| > 1 && Reads(ok, items[0], first + (tail + rest), tail + rest)
    requires tail != [] && tail[0] == ',' && SkipSpace((tail + rest)[1..]) == body + rest
    requires ItemsRead(okMore, items[1..], body + rest, rest)
    ensures ItemsRead(ok && okMore, items, (first + tail) + rest, rest)
  {
    assert (first + tail) + rest == first + (tail + rest);
    assert items == [items[0]] + items[1..];
  }

  ghost predicate FieldReads(ok: bool, f: Field, text: string, rest: string) {
    var p := ParseMember(text);
    if ok then p == Some((f, rest)) else p.None? || p.value.0 != f
  }

  // A name, a colon and a value.
  lemma MemberReads(okKey: bool, ok: bool, f: Field, key: string, colon: string, val: string, rest: string)
    requires var p := ParseChars(key + ((colon + val) + rest));
      if okKey then p == Some((f.key, (colon + val) + rest)) else p.None? || p.value.0 != f.key
    requires colon != [] && colon[0] == ':' && Blank(colon[1..])
    requires val != [] && !IsSpace(val[0]) && Reads(ok, f.val, val + rest, rest)
    ensures FieldReads(okKey && ok, f, ("\"" + (key + (colon + val))) + rest, rest)
  {
    var t := ("\"" + (key + (colon + val))) + rest;
    var u := (colon + val) + rest;
    assert t[1..] == key + u;
    assert u[1..] == colon[1..] + (val + rest);
    SkipsBlank(colon[1..], val + rest);
  }

  lemma LastFieldReads(ok: bool, fields: seq<Field>, first: string, tail: string, rest: string)
    requires |fields| == 1 && FieldReads(ok, fields[0], first + (tail + rest), tail + rest)
    requires SkipSpace(tail + rest) == "}" + rest
    ensures FieldsRead(ok, fields, (first + tail) + rest, rest)
  {
    assert (first + tail) + rest == first + (tail + rest);
    assert ("}" + rest)[1..] == rest;
    assert fields == [fields[0]];
  }

  lemma MoreFieldsRead(ok: bool, okMore: bool, fields: seq<Field>, first: string, tail: string,
      body: string, rest: string)
    requires |fields| > 1 && FieldReads(ok, fields[0], first + (tail + rest), tail + rest)
    requires tail != [] && tail[0] == ',' && SkipSpace((tail + rest)[1..]) == body + rest
    requires FieldsRead(okMore, fields[1..], body + rest, rest)
    ensures FieldsRead(ok && okMore, fields, (first + tail) + rest, rest)
  {
    assert (first + tail) + rest == first + (tail + rest);
    assert fields == [fields[0]] + fields[1..];
  }
}
