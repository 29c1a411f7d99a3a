/** The printer of OpenRPC documents, and what a JSON parser reads back from its output. */
module JsonFormatter {
  import opened Wrappers
  import opened JsonValues
  import opened JsonParser
  import opened JsonReading

  const MAX_COMPACT_LENGTH := 8
  const MAX_STRING_LENGTH := 40

  const CRLF := "\r\n"

  /******* The printer *******/

  // The length JavaScript gives a string: in UTF-16 code units.
  function Utf16Length(s: string): nat {
    if s == [] then 0 else (if s[0] as int >= 0x10000 then 2 else 1) + Utf16Length(s[1..])
  }

  predicate IsCompactableItem(item: Json) {
    (item.Str? && Utf16Length(item.s) < MAX_STRING_LENGTH) || item.Num? || item.Bool?
  }

  predicate ShouldUseCompactArrayFormat(items: seq<Json>) {
    |items| <= MAX_COMPACT_LENGTH && forall item :: item in items ==> IsCompactableItem(item)
  }

  function Indent(level: nat): string {
    if level == 0 then "" else "  " + Indent(level - 1)
  }

  function Join(texts: seq<string>, separator: string): string {
    if texts == [] then ""
    else if |texts| == 1 then texts[0]
    else texts[0] + separator + Join(texts[1..], separator)
  }

  function Format(v: Json, level: nat): string
    decreases v, 1
  {
    match v
    case Null => "null"
    case Bool(b) => if b then "true" else "false"
    case Num(text) => text
    case Str(s) => "\"" + Escaped(s) + "\""
    case Arr(items) =>
      if items == [] then "[]"
      else if ShouldUseCompactArrayFormat(items) then "[" + Join(FormatItems(items, level + 1, ""), ", ") + "]"
      else "[\n" + Join(FormatItems(items, level + 1, Indent(level + 1)), ",\n") + "\n" + Indent(level) + "]"
    case Obj(fields) =>
      if fields == [] then "{}"
      else "{\n" + Join(FormatFields(fields, level + 1), ",\n") + "\n" + Indent(level) + "}"
  }

  // Each item formatted on its own, after a prefix.
  function FormatItems(items: seq<Json>, level: nat, prefix: string): seq<string>
    decreases items, 0
  {
    if items == [] then [] else [prefix + Format(items[0], level)] + FormatItems(items[1..], level, prefix)
  }

  function FormatFields(fields: seq<Field>, level: nat): seq<string>
    decreases fields, 0
  {
    if fields == [] then []
    else
      var f := fields[0];
      [Indent(level) + "\"" + f.key + "\": " + Format(f.val, level)] + FormatFields(fields[1..], level)
  }

  // `formatted.replace(/\n/g, eol)`
  function ReplaceNewlines(s: string, eol: string): string {
    if s == [] then [] else (if s[0] == '\n' then eol else [s[0]]) + ReplaceNewlines(s[1..], eol)
  }

  // What `writeJson` writes for a document read from a file, at any nesting level.
  function Written(v: Json, level: nat, eol: string): string {
    ReplaceNewlines(Format(v, level), eol)
  }

  /******* When the output can be read back *******/

  // A key that needs no escaping inside a literal.
  predicate PlainKey(key: string) {
    forall i :: 0 <= i < |key| ==> key[i] >= ' ' && key[i] != '"' && key[i] != '\\'
  }

  predicate NumberTexts(v: Json)
    decreases v, 1
  {
    match v
    case Num(text) => NumberText(text)
    case Arr(items) => forall i :: 0 <= i < |items| ==> NumberTexts(items[i])
    case Obj(fields) => forall i :: 0 <= i < |fields| ==> NumberTexts(fields[i].val)
    case _ => true
  }

  // Keys need no escaping and numbers are finite, throughout.
  predicate Printable(v: Json)
    decreases v, 1
  {
    match v
    case Num(text) => IsNumber(text)
    case Arr(items) => forall i :: 0 <= i < |items| ==> Printable(items[i])
    case Obj(fields) => forall i :: 0 <= i < |fields| ==> PlainKey(fields[i].key) && Printable(fields[i].val)
    case _ => true
  }

  /******* The output after the line ends are rewritten, read from left to right *******/

  function NewLine(eol: string, level: nat): string {
    eol + Indent(level)
  }

  function Render(v: Json, level: nat, eol: string): string
    decreases v, 1
  {
    match v
    case Null => "null"
    case Bool(b) => if b then "true" else "false"
    case Num(text) => text
    case Str(s) => "\"" + (Escaped(s) + "\"")
    case Arr(items) =>
      if items == [] then "[]"
      else if ShouldUseCompactArrayFormat(items) then "[" + RenderItems(items, level + 1, eol, " ", "")
      else
        var gap := NewLine(eol, level + 1);
        "[" + (gap + RenderItems(items, level + 1, eol, gap, NewLine(eol, level)))
    case Obj(fields) =>
      if fields == [] then "{}"
      else
        var gap := NewLine(eol, level + 1);
        "{" + (gap + RenderFields(fields, level + 1, eol, gap, NewLine(eol, level)))
  }

  function RenderItems(items: seq<Json>, level: nat, eol: string, gap: string, end: string): string
    requires items != []
    decreases items, 0
  {
    Render(items[0], level, eol) +
    if |items| == 1 then end + "]" else "," + (gap + RenderItems(items[1..], level, eol, gap, end))
  }

  function RenderField(f: Field, level: nat, eol: string): string
    decreases f, 2
  {
    "\"" + ((ReplaceNewlines(f.key, eol) + "\"") + (": " + Render(f.val, level, eol)))
  }

  function RenderFields(fields: seq<Field>, level: nat, eol: string, gap: string, end: string): string
    requires fields != []
    decreases fields, 0
  {
    RenderField(fields[0], level, eol) +
    if |fields| == 1 then end + "}" else "," + (gap + RenderFields(fields[1..], level, eol, gap, end))
  }

  lemma {:induction false} ReplaceSplits(a: string, b: string, eol: string)
    ensures ReplaceNewlines(a + b, eol) == ReplaceNewlines(a, eol) + ReplaceNewlines(b, eol)
  {
    if a == [] {
      assert a + b == b;
    } else {
      assert (a + b)[1..] == a[1..] + b;
      ReplaceSplits(a[1..], b, eol);
    }
  }

  lemma {:induction false} ReplaceNothing(s: string, eol: string)
    requires '\n' !in s
    ensures ReplaceNewlines(s, eol) == s
  {
    if s != [] {
      ReplaceNothing(s[1..], eol);
    }
  }

  lemma {:induction false} EscapedOneLine(s: string)
    ensures '\n' !in Escaped(s)
  {
    if s != [] {
      EscapedOneLine(s[1..]);
    }
  }

  lemma {:induction false} IndentBlank(level: nat)
    ensures Blank(Indent(level)) && '\n' !in Indent(level)
  {
    if level > 0 {
      IndentBlank(level - 1);
    }
  }

  lemma {:induction false} DigitsOneLine(t: string)
    requires '\n' !in SkipDigits(t)
    ensures '\n' !in t
  {
    if t != [] && IsDigit(t[0]) {
      DigitsOneLine(t[1..]);
    }
  }

  lemma NumberOneLine(text: string)
    requires NumberText(text)
    ensures '\n' !in text
  {
    if IsNumber(text) {
      var t := if "-" <= text then text[1..] else text;
      var u := AfterInt(t).value;
      var w := AfterFrac(u).value;
      if w != "" {
        DigitsOneLine(SkipSign(w[1..])[1..]);
        assert '\n' !in w;
      }
      if "." <= u {
        DigitsOneLine(u[2..]);
        assert '\n' !in u;
      }
      if !("0" <= t) {
        DigitsOneLine(t[1..]);
      }
    }
  }

  lemma Replace5(a: string, b: string, c: string, d: string, e: string, eol: string)
    ensures ReplaceNewlines(a + b + c + d + e, eol)
         == ReplaceNewlines(a, eol) + (ReplaceNewlines(b, eol) + (ReplaceNewlines(c, eol)
            + (ReplaceNewlines(d, eol) + ReplaceNewlines(e, eol))))
  {
    ReplaceSplits(a + b + c + d, e, eol);
    ReplaceSplits(a + b + c, d, eol);
    ReplaceSplits(a + b, c, eol);
    ReplaceSplits(a, b, eol);
    Regroup(ReplaceNewlines(a, eol), ReplaceNewlines(b, eol), ReplaceNewlines(c, eol),
            ReplaceNewlines(d, eol), ReplaceNewlines(e, eol));
  }

  lemma Replace3(a: string, b: string, c: string, eol: string)
    ensures ReplaceNewlines(a + b + c, eol)
         == ReplaceNewlines(a, eol) + (ReplaceNewlines(b, eol) + ReplaceNewlines(c, eol))
  {
    ReplaceSplits(a + b, c, eol);
    ReplaceSplits(a, b, eol);
  }

  lemma Regroup(a: string, b: string, c: string, d: string, e: string)
    ensures a + b + c + d + e == a + (b + (c + (d + e)))
  {
  }

  // The text between two delimiters on lines of their own.
  lemma ReplaceWrapped(open: string, body: string, level: nat, close: string, eol: string)
    requires '\n' !in open && '\n' !in close
    ensures ReplaceNewlines(open + "\n" + body + ("\n" + Indent(level)) + close, eol)
         == open + (eol + (ReplaceNewlines(body, eol) + (NewLine(eol, level) + close)))
  {
    Replace5(open, "\n", body, "\n" + Indent(level), close, eol);
    ReplaceSplits("\n", Indent(level), eol);
    IndentBlank(level);
    ReplaceNothing(Indent(level), eol);
    ReplaceNothing(open, eol);
    ReplaceNothing(close, eol);
    OneNewline(eol);
  }

  lemma OneNewline(eol: string)
    ensures ReplaceNewlines("\n", eol) == eol
  {
    assert "\n"[1..] == [];
  }

  // What is between two items, with the rewritten separator and the prefix of the second.
  ghost predicate Between(separator: string, prefix: string, gap: string, eol: string) {
    '\n' !in prefix && ReplaceNewlines(separator, eol) + prefix == "," + gap
  }

  lemma Separators(level: nat, eol: string)
    ensures Between(", ", "", " ", eol)
    ensures Between(",\n", Indent(level), NewLine(eol, level), eol)
  {
    ReplaceNothing(", ", eol);
    IndentBlank(level);
    assert ",\n"[1..] == "\n";
    OneNewline(eol);
  }

  lemma {:induction false} WrittenIsRender(v: Json, level: nat, eol: string)
    requires NumberTexts(v)
    ensures Written(v, level, eol) == Render(v, level, eol)
    decreases v, 1
  {
    match v
    case Num(text) =>
      NumberOneLine(text);
      ReplaceNothing(text, eol);
    case Str(s) =>
      EscapedOneLine(s);
      ReplaceNothing("\"" + Escaped(s) + "\"", eol);
    case Arr(items) =>
      if items == [] {
        ReplaceNothing("[]", eol);
      } else if ShouldUseCompactArrayFormat(items) {
        CompactRender(items, level, eol);
      } else {
        ExpandedRender(items, level, eol);
      }
    case Obj(fields) =>
      if fields == [] {
        ReplaceNothing("{}", eol);
      } else {
        ObjectRender(fields, level, eol);
      }
    case Null => ReplaceNothing("null", eol);
    case Bool(b) => ReplaceNothing(Format(v, level), eol);
  }

  lemma CompactRender(items: seq<Json>, level: nat, eol: string)
    requires items != [] && forall i :: 0 <= i < |items| ==> NumberTexts(items[i])
    ensures ReplaceNewlines("[" + Join(FormatItems(items, level + 1, ""), ", ") + "]", eol)
         == "[" + RenderItems(items, level + 1, eol, " ", "")
    decreases items, 2
  {
    Separators(level + 1, eol);
    ItemsRender(items, level + 1, eol, "", ", ", " ", "");
    Replace3("[", Join(FormatItems(items, level + 1, ""), ", "), "]", eol);
    ReplaceNothing("[", eol);
    ReplaceNothing("]", eol);
    assert "" + "]" == "]";
    assert "" + RenderItems(items, level + 1, eol, " ", "") == RenderItems(items, level + 1, eol, " ", "");
  }

  lemma WrappedRender(start: string, open: string, body: string, level: nat, close: string, text: string, eol: string)
    requires start == open + "\n" && '\n' !in open && '\n' !in close
    requires ReplaceNewlines(body, eol) + (NewLine(eol, level) + close) == Indent(level + 1) + text
    ensures ReplaceNewlines(start + body + "\n" + Indent(level) + close, eol) == open + (NewLine(eol, level + 1) + text)
  {
    ReplaceWrapped(open, body, level, close, eol);
    Rewrapped(start, open, "\n", body, Indent(level), close);
    assert eol + (Indent(level + 1) + text) == NewLine(eol, level + 1) + text;
  }

  lemma Rewrapped(start: string, open: string, newline: string, body: string, indent: string, close: string)
    requires start == open + newline
    ensures start + body + newline + indent + close == open + newline + body + (newline + indent) + close
  {
  }

  lemma ExpandedRender(items: seq<Json>, level: nat, eol: string)
    requires items != [] && forall i :: 0 <= i < |items| ==> NumberTexts(items[i])
    ensures var gap := NewLine(eol, level + 1);
      ReplaceNewlines(
        "[\n" + Join(FormatItems(items, level + 1, Indent(level + 1)), ",\n") + "\n" + Indent(level) + "]", eol)
         == "[" + (gap + RenderItems(items, level + 1, eol, gap, NewLine(eol, level)))
    decreases items, 2
  {
    var prefix, gap, end := Indent(level + 1), NewLine(eol, level + 1), NewLine(eol, level);
    Separators(level + 1, eol);
    ItemsRender(items, level + 1, eol, prefix, ",\n", gap, end);
    WrappedRender("[\n", "[", Join(FormatItems(items, level + 1, prefix), ",\n"), level, "]",
                  RenderItems(items, level + 1, eol, gap, end), eol);
  }

  lemma ObjectRender(fields: seq<Field>, level: nat, eol: string)
    requires fields != [] && forall i :: 0 <= i < |fields| ==> NumberTexts(fields[i].val)
    ensures var gap := NewLine(eol, level + 1);
      ReplaceNewlines("{\n" + Join(FormatFields(fields, level + 1), ",\n") + "\n" + Indent(level) + "}", eol)
         == "{" + (gap + RenderFields(fields, level + 1, eol, gap, NewLine(eol, level)))
    decreases fields, 3
  {
    var gap, end := NewLine(eol, level + 1), NewLine(eol, level);
    Separators(level + 1, eol);
    FieldsRender(fields, level + 1, eol, gap, end);
    WrappedRender("{\n", "{", Join(FormatFields(fields, level + 1), ",\n"), level, "}",
                  RenderFields(fields, level + 1, eol, gap, end), eol);
  }

  // One text, a separator and the texts after it, against the same read from left to right.
  lemma OneMore(first: string, separator: string, more: string, end: string,
                prefix: string, r: string, gap: string, w: string, eol: string)
    requires ReplaceNewlines(first, eol) == prefix + r
    requires Between(separator, prefix, gap, eol)
    requires ReplaceNewlines(more, eol) + end == prefix + w
    ensures ReplaceNewlines(first + separator + more, eol) + end == prefix + (r + ("," + (gap + w)))
  {
    Replace3(first, separator, more, eol);
    var s, q := ReplaceNewlines(separator, eol), ReplaceNewlines(more, eol);
    Regroup(prefix, r, s, q, end);
    assert ((prefix + r) + (s + q)) + end == prefix + r + s + q + end;
    assert s + (prefix + w) == (s + prefix) + w;
    assert ("," + gap) + w == "," + (gap + w);
  }

  lemma {:induction false} ItemsRender(items: seq<Json>, level: nat, eol: string, prefix: string,
                                       separator: string, gap: string, end: string)
    requires items != [] && forall i :: 0 <= i < |items| ==> NumberTexts(items[i])
    requires Between(separator, prefix, gap, eol)
    ensures ReplaceNewlines(Join(FormatItems(items, level, prefix), separator), eol) + (end + "]")
         == prefix + RenderItems(items, level, eol, gap, end)
    decreases items, 0
  {
    var texts := FormatItems(items, level, prefix);
    var first := prefix + Format(items[0], level);
    WrittenIsRender(items[0], level, eol);
    ReplaceSplits(prefix, Format(items[0], level), eol);
    ReplaceNothing(prefix, eol);
    var more := FormatItems(items[1..], level, prefix);
    assert texts == [first] + more;
    if |items| > 1 {
      assert Join(texts, separator) == first + separator + Join(more, separator);
      ItemsRender(items[1..], level, eol, prefix, separator, gap, end);
      OneMore(first, separator, Join(more, separator), end + "]", prefix, Render(items[0], level, eol), gap,
              RenderItems(items[1..], level, eol, gap, end), eol);
    } else {
      assert more == [];
    }
  }

  lemma FieldRender(f: Field, level: nat, eol: string)
    requires NumberTexts(f.val)
    ensures ReplaceNewlines(Indent(level) + "\"" + f.key + "\": " + Format(f.val, level), eol)
         == Indent(level) + RenderField(f, level, eol)
    decreases f, 2
  {
    WrittenIsRender(f.val, level, eol);
    Replace5(Indent(level), "\"", f.key, "\": ", Format(f.val, level), eol);
    IndentBlank(level);
    ReplaceNothing(Indent(level), eol);
    ReplaceNothing("\"", eol);
    ReplaceNothing("\": ", eol);
    var key, val := ReplaceNewlines(f.key, eol), Render(f.val, level, eol);
    assert key + ("\": " + val) == (key + "\"") + (": " + val);
  }

  lemma {:induction false} FieldsRender(fields: seq<Field>, level: nat, eol: string, gap: string, end: string)
    requires fields != [] && forall i :: 0 <= i < |fields| ==> NumberTexts(fields[i].val)
    requires Between(",\n", Indent(level), gap, eol)
    ensures ReplaceNewlines(Join(FormatFields(fields, level), ",\n"), eol) + (end + "}")
         == Indent(level) + RenderFields(fields, level, eol, gap, end)
    decreases fields, 2
  {
    var texts := FormatFields(fields, level);
    var first := texts[0];
    var more := FormatFields(fields[1..], level);
    assert texts == [first] + more;
    FieldRender(fields[0], level, eol);
    if |fields| > 1 {
      assert Join(texts, ",\n") == first + ",\n" + Join(more, ",\n");
      FieldsRender(fields[1..], level, eol, gap, end);
      OneMore(first, ",\n", Join(more, ",\n"), end + "}", Indent(level), RenderField(fields[0], level, eol), gap,
              RenderFields(fields[1..], level, eol, gap, end), eol);
    } else {
      assert more == [];
    }
  }

  /******* Reading the output back *******/

  lemma {:induction false} PlainKeyEscaped(key: string)
    requires PlainKey(key)
    ensures Escaped(key) == key
  {
    if key != [] {
      assert EscapedChar(key[0]) == [key[0]];
      PlainKeyEscaped(key[1..]);
      assert [key[0]] + key[1..] == key;
    }
  }

  lemma {:induction false} ReplaceReaches(s: string, n: nat, eol: string)
    requires n < |s| && s[n] == '\n' && '\n' !in s[..n]
    requires eol != []
    ensures |ReplaceNewlines(s, eol)| > n && ReplaceNewlines(s, eol)[n] == eol[0]
  {
    if n > 0 {
      assert s[..n][0] != '\n';
      assert forall c :: c in s[1..][..n - 1] ==> c in s[..n] by { assert s[1..][..n - 1] == s[..n][1..]; }
      ReplaceReaches(s[1..], n - 1, eol);
    }
  }

  // A key is read back exactly when it needs no escaping.
  lemma KeyOutcome(key: string, eol: string, rest: string)
    requires eol == "\n" || eol == CRLF
    ensures var p := ParseChars((ReplaceNewlines(key, eol) + "\"") + rest);
      if PlainKey(key) then p == Some((key, rest)) else p.None? || p.value.0 != key
  {
    var t := (ReplaceNewlines(key, eol) + "\"") + rest;
    if '\n' in key {
      var n := FirstIndex(key, '\n');
      ReplaceReaches(key, n, eol);
      assert t[n] == eol[0];
      if ParseChars(t).Some? {
        ControlStops(t, n);
      }
    } else {
      ReplaceNothing(key, eol);
      if PlainKey(key) {
        PlainKeyEscaped(key);
        StringReads(key, rest);
      } else if ParseChars(t).Some? && ParseChars(t).value.0 == key {
        RawKeyDiffers(key, rest);
      }
    }
  }

  lemma RawKeyDiffers(key: string, rest: string)
    requires !PlainKey(key)
    requires ParseChars((key + "\"") + rest).Some?
    ensures ParseChars((key + "\"") + rest).value.0 != key
  {
    var t := (key + "\"") + rest;
    var i :| 0 <= i < |key| && !(key[i] >= ' ' && key[i] != '"' && key[i] != '\\');
    assert t[i] == key[i];
    if key[i] < ' ' {
      ControlStops(t, i);
    } else {
      var n := if '"' in key then FirstIndex(key, '"') else |key|;
      assert forall k :: 0 <= k < n ==> t[k] == key[k] && key[k] != '"' by {
        if '"' in key {
          assert forall k :: 0 <= k < n ==> key[k] == key[..n][k];
        }
      }
      assert t[n] == '"';
      assert !QuoteWithin(key, n);
      FirstQuote(t, n);
    }
  }

  // No output begins with whitespace or a closing delimiter.
  lemma FirstChar(v: Json, level: nat, eol: string)
    requires NumberTexts(v)
    ensures var t := Render(v, level, eol); t != [] && !IsSpace(t[0]) && t[0] != ']'
  {
    if v.Num? && !IsNumber(v.text) {
      assert v.text == "NaN" || v.text == "Infinity" || v.text == "-Infinity";
    }
  }

  /******* Outcomes *******/

  lemma NewLineBlank(eol: string, level: nat)
    requires eol == "\n" || eol == CRLF
    ensures Blank(NewLine(eol, level))
  {
    IndentBlank(level);
  }

  ghost predicate AllNumberTexts(items: seq<Json>) {
    forall i :: 0 <= i < |items| ==> NumberTexts(items[i])
  }

  ghost predicate AllPrintable(items: seq<Json>) {
    forall i :: 0 <= i < |items| ==> Printable(items[i])
  }

  ghost predicate PrintableField(f: Field) {
    PlainKey(f.key) && Printable(f.val)
  }

  ghost predicate AllPrintableFields(fields: seq<Field>) {
    forall i :: 0 <= i < |fields| ==> PrintableField(fields[i])
  }

  lemma {:induction false} ValueOutcome(v: Json, level: nat, eol: string, rest: string)
    requires NumberTexts(v) && Stops(rest) && (eol == "\n" || eol == CRLF)
    ensures Reads(Printable(v), v, Render(v, level, eol) + rest, rest)
    decreases v, 1
  {
    match v
    case Null => NullReads(rest);
    case Bool(b) => BoolReads(b, rest);
    case Num(text) => NumberReads(text, rest);
    case Str(s) => QuotedReads(s, rest);
    case Arr(items) => ArrOutcome(items, level, eol, rest);
    case Obj(fields) => ObjOutcome(fields, level, eol, rest);
  }

  lemma ArrOutcome(items: seq<Json>, level: nat, eol: string, rest: string)
    requires AllNumberTexts(items) && Stops(rest) && (eol == "\n" || eol == CRLF)
    ensures Reads(AllPrintable(items), Arr(items), Render(Arr(items), level, eol) + rest, rest)
    decreases items, 2
  {
    if items == [] {
      EmptyReads(rest);
    } else if ShouldUseCompactArrayFormat(items) {
      ArrayOutcome(items, level + 1, eol, "", " ", "", rest);
      assert "" + RenderItems(items, level + 1, eol, " ", "") == RenderItems(items, level + 1, eol, " ", "");
    } else {
      NewLineBlank(eol, level + 1);
      NewLineBlank(eol, level);
      ArrayOutcome(items, level + 1, eol, NewLine(eol, level + 1), NewLine(eol, level + 1), NewLine(eol, level), rest);
    }
  }

  lemma ObjOutcome(fields: seq<Field>, level: nat, eol: string, rest: string)
    requires (forall i :: 0 <= i < |fields| ==> NumberTexts(fields[i].val))
    requires Stops(rest) && (eol == "\n" || eol == CRLF)
    ensures Reads(AllPrintableFields(fields), Obj(fields), Render(Obj(fields), level, eol) + rest, rest)
    decreases fields, 2
  {
    if fields == [] {
      EmptyReads(rest);
    } else {
      NewLineBlank(eol, level + 1);
      NewLineBlank(eol, level);
      ObjectOutcome(fields, level + 1, eol, NewLine(eol, level + 1), NewLine(eol, level), rest);
    }
  }

  lemma ArrayOutcome(items: seq<Json>, level: nat, eol: string, lead: string, gap: string, end: string, rest: string)
    requires items != [] && AllNumberTexts(items) && (eol == "\n" || eol == CRLF)
    requires Blank(lead) && Blank(gap) && Blank(end) && Stops(rest)
    ensures Reads(AllPrintable(items), Arr(items), "[" + (lead + RenderItems(items, level, eol, gap, end)) + rest, rest)
    decreases items, 1
  {
    ItemsOutcome(items, level, eol, gap, end, rest);
    ItemsFirstChar(items, level, eol, gap, end);
    ArrayReads(AllPrintable(items), items, lead, RenderItems(items, level, eol, gap, end), rest);
  }

  lemma ObjectOutcome(fields: seq<Field>, level: nat, eol: string, gap: string, end: string, rest: string)
    requires fields != [] && (forall i :: 0 <= i < |fields| ==> NumberTexts(fields[i].val))
    requires (eol == "\n" || eol == CRLF) && Blank(gap) && Blank(end) && Stops(rest)
    ensures Reads(AllPrintableFields(fields), Obj(fields),
      "{" + (gap + RenderFields(fields, level, eol, gap, end)) + rest, rest)
    decreases fields, 1
  {
    FieldsOutcome(fields, level, eol, gap, end, rest);
    FieldsFirstChar(fields, level, eol, gap, end);
    ObjectReads(AllPrintableFields(fields), fields, gap, RenderFields(fields, level, eol, gap, end), rest);
  }

  lemma ItemsFirstChar(items: seq<Json>, level: nat, eol: string, gap: string, end: string)
    requires items != [] && AllNumberTexts(items)
    ensures var t := RenderItems(items, level, eol, gap, end); t != [] && !IsSpace(t[0]) && t[0] != ']'
  {
    FirstChar(items[0], level, eol);
  }

  lemma {:induction false} ItemsOutcome(items: seq<Json>, level: nat, eol: string, gap: string,
      end: string, rest: string)
    requires items != [] && AllNumberTexts(items) && (eol == "\n" || eol == CRLF)
    requires Blank(gap) && Blank(end) && Stops(rest)
    ensures ItemsRead(AllPrintable(items), items, RenderItems(items, level, eol, gap, end) + rest, rest)
    decreases items, 0
  {
    var first := Render(items[0], level, eol);
    if |items| == 1 {
      var tail := end + "]";
      TailStops(end, ']', rest);
      ValueOutcome(items[0], level, eol, tail + rest);
      LastItemReads(Printable(items[0]), items, first, tail, rest);
    } else {
      var body := RenderItems(items[1..], level, eol, gap, end);
      ItemsOutcome(items[1..], level, eol, gap, end, rest);
      ItemsFirstChar(items[1..], level, eol, gap, end);
      var tail := "," + (gap + body);
      ValueOutcome(items[0], level, eol, tail + rest);
      GapSkipped(gap, body, rest);
      MoreItemsRead(Printable(items[0]), AllPrintable(items[1..]), items, first, tail, body, rest);
      assert forall i :: 1 <= i < |items| ==> items[1..][i - 1] == items[i];
    }
  }

  lemma FieldOutcome(f: Field, level: nat, eol: string, rest: string)
    requires NumberTexts(f.val) && Stops(rest) && (eol == "\n" || eol == CRLF)
    ensures RenderField(f, level, eol) != [] && RenderField(f, level, eol)[0] == '"'
    ensures FieldReads(PrintableField(f), f, RenderField(f, level, eol) + rest, rest)
    decreases f, 2
  {
    var val := Render(f.val, level, eol);
    var key := ReplaceNewlines(f.key, eol) + "\"";
    var tail := (": " + val) + rest;
    KeyOutcome(f.key, eol, tail);
    ValueOutcome(f.val, level, eol, rest);
    FirstChar(f.val, level, eol);
    MemberReads(PlainKey(f.key), Printable(f.val), f, key, ": ", val, rest);
  }

  lemma {:induction false} FieldsOutcome(fields: seq<Field>, level: nat, eol: string, gap: string,
      end: string, rest: string)
    requires fields != [] && (forall i :: 0 <= i < |fields| ==> NumberTexts(fields[i].val))
    requires eol == "\n" || eol == CRLF
    requires Blank(gap) && Blank(end) && Stops(rest)
    ensures FieldsRead(AllPrintableFields(fields), fields, RenderFields(fields, level, eol, gap, end) + rest, rest)
    decreases fields, 0
  {
    var first := RenderField(fields[0], level, eol);
    if |fields| == 1 {
      TailStops(end, '}', rest);
      FieldOutcome(fields[0], level, eol, (end + "}") + rest);
      LastFieldReads(PrintableField(fields[0]), fields, first, end + "}", rest);
    } else {
      var body := RenderFields(fields[1..], level, eol, gap, end);
      FieldsOutcome(fields[1..], level, eol, gap, end, rest);
      FieldsFirstChar(fields[1..], level, eol, gap, end);
      var tail := "," + (gap + body);
      FieldOutcome(fields[0], level, eol, tail + rest);
      GapSkipped(gap, body, rest);
      MoreFieldsRead(PrintableField(fields[0]), AllPrintableFields(fields[1..]), fields, first, tail, body, rest);
      PrintableSplit(fields);
    }
  }

  lemma PrintableSplit(fields: seq<Field>)
    requires fields != []
    ensures AllPrintableFields(fields) <==> PrintableField(fields[0]) && AllPrintableFields(fields[1..])
  {
    assert forall i :: 1 <= i < |fields| ==> fields[1..][i - 1] == fields[i];
  }

  lemma FieldsFirstChar(fields: seq<Field>, level: nat, eol: string, gap: string, end: string)
    requires fields != []
    ensures var t := RenderFields(fields, level, eol, gap, end); t != [] && t[0] == '"'
  {
    assert RenderField(fields[0], level, eol)[0] == '"';
  }

  // What is written is read back as the same value exactly when every key needs no escaping and every
  // number is finite: at any level, in either layout, with either line end.
  lemma WrittenParsesBackIff(v: Json, level: nat, eol: string)
    requires NumberTexts(v) && (eol == "\n" || eol == CRLF)
    ensures Parse(Written(v, level, eol)) == Some(v) <==> Printable(v)
  {
    WrittenIsRender(v, level, eol);
    var t := Render(v, level, eol);
    FirstChar(v, level, eol);
    ValueOutcome(v, level, eol, "");
    assert t + "" == t;
  }

  // Without the rewriting of line ends the output is the formatter's own.
  lemma FormatParsesBackIff(v: Json, level: nat)
    requires NumberTexts(v)
    ensures Parse(Format(v, level)) == Some(v) <==> Printable(v)
  {
    WrittenParsesBackIff(v, level, "\n");
    SameNewlines(Format(v, level));
  }

  lemma {:induction false} SameNewlines(s: string)
    ensures ReplaceNewlines(s, "\n") == s
  {
    if s != [] {
      SameNewlines(s[1..]);
    }
  }

  /******* Layout *******/

  lemma {:induction false} JoinOneLine(texts: seq<string>, separator: string)
    requires '\n' !in separator && forall i :: 0 <= i < |texts| ==> '\n' !in texts[i]
    ensures '\n' !in Join(texts, separator)
  {
    if |texts| > 1 {
      JoinOneLine(texts[1..], separator);
    }
  }

  lemma {:induction false} CompactOneLine(items: seq<Json>, level: nat)
    requires AllNumberTexts(items) && forall i :: 0 <= i < |items| ==> IsCompactableItem(items[i])
    ensures |FormatItems(items, level, "")| == |items|
    ensures forall i :: 0 <= i < |items| ==> '\n' !in FormatItems(items, level, "")[i]
  {
    if items != [] {
      CompactOneLine(items[1..], level);
      match items[0]
      case Num(text) => NumberOneLine(text);
      case Str(s) => EscapedOneLine(s);
      case _ =>
    }
  }

  // An array stays on one line exactly when it has at most 8 items, each a number, a boolean or a string of fewer
  // than 40 code units; an object exactly when it is empty.
  lemma OneLineIff(items: seq<Json>, fields: seq<Field>, level: nat)
    requires AllNumberTexts(items)
    ensures '\n' !in Format(Arr(items), level) <==>
              |items| <= 8 && forall i :: 0 <= i < |items| ==>
                items[i].Num? || items[i].Bool? || (items[i].Str? && Utf16Length(items[i].s) < 40)
    ensures '\n' !in Format(Obj(fields), level) <==> fields == []
  {
    if items != [] {
      if ShouldUseCompactArrayFormat(items) {
        CompactOneLine(items, level + 1);
        JoinOneLine(FormatItems(items, level + 1, ""), ", ");
      } else {
        assert Format(Arr(items), level)[1] == '\n';
      }
    }
    if fields != [] {
      assert Format(Obj(fields), level)[1] == '\n';
    }
  }

  // Code units: characters up to U+FFFF take one, the others two.
  lemma {:induction false} CodeUnits(s: string, t: string)
    ensures Utf16Length("") == 0 && Utf16Length(s + t) == Utf16Length(s) + Utf16Length(t)
    ensures |t| == 1 ==> Utf16Length(t) == if t[0] <= '\U{FFFF}' then 1 else 2
  {
    if s == [] {
      assert s + t == t;
    } else {
      assert (s + t)[1..] == s[1..] + t;
      CodeUnits(s[1..], t);
    }
  }

  // Two spaces a level.
  lemma {:induction false} IndentExact(level: nat)
    ensures |Indent(level)| == 2 * level && forall i :: 0 <= i < 2 * level ==> Indent(level)[i] == ' '
  {
    if level > 0 {
      IndentExact(level - 1);
    }
  }

  // A value that can be read back has only numbers JavaScript prints.
  lemma {:induction false} PrintableNumbers(v: Json)
    requires Printable(v)
    ensures NumberTexts(v)
    decreases v
  {
    match v
    case Arr(items) =>
      forall i | 0 <= i < |items| ensures NumberTexts(items[i]) {
        PrintableNumbers(items[i]);
      }
    case Obj(fields) =>
      forall i | 0 <= i < |fields| ensures NumberTexts(fields[i].val) {
        PrintableNumbers(fields[i].val);
      }
    case _ =>
  }
}
