/** `JSON.stringify` without indentation, and that it prints different values differently. */
module JsonStringify {
  import opened Wrappers
  import opened JsonValues
  import opened JsonParser
  import opened JsonReading

  function Stringify(v: Json): string
    decreases v, 1
  {
    match v
    case Null => "null"
    case Bool(b) => if b then "true" else "false"
    case Num(text) => if IsNumber(text) then text else "null"
    case Str(s) => "\"" + (Escaped(s) + "\"")
    case Arr(items) => if items == [] then "[]" else "[" + StringifyItems(items)
    case Obj(fields) => if fields == [] then "{}" else "{" + StringifyFields(fields)
  }

  function StringifyItems(items: seq<Json>): string
    requires items != []
    decreases items, 0
  {
    Stringify(items[0]) + if |items| == 1 then "]" else "," + StringifyItems(items[1..])
  }

  function StringifyField(f: Field): string
    decreases f, 2
  {
    "\"" + ((Escaped(f.key) + "\"") + (":" + Stringify(f.val)))
  }

  function StringifyFields(fields: seq<Field>): string
    requires fields != []
    decreases fields, 0
  {
    StringifyField(fields[0]) + if |fields| == 1 then "}" else "," + StringifyFields(fields[1..])
  }

  // Every number is finite.
  predicate Finite(v: Json)
    decreases v, 1
  {
    match v
    case Num(text) => IsNumber(text)
    case Arr(items) => AllFinite(items)
    case Obj(fields) => AllFiniteFields(fields)
    case _ => true
  }

  predicate AllFinite(items: seq<Json>)
    decreases items, 0
  {
    forall i :: 0 <= i < |items| ==> Finite(items[i])
  }

  predicate AllFiniteFields(fields: seq<Field>)
    decreases fields, 0
  {
    forall i :: 0 <= i < |fields| ==> Finite(fields[i].val)
  }

  lemma StringifyStarts(v: Json)
    requires Finite(v)
    ensures var t := Stringify(v); t != [] && !IsSpace(t[0]) && t[0] != ']'
  {
  }

  lemma {:induction false} StringifyReads(v: Json, rest: string)
    requires Finite(v) && Stops(rest)
    ensures Reads(true, v, Stringify(v) + rest, rest)
    decreases v, 1
  {
    match v
    case Null => NullReads(rest);
    case Bool(b) => BoolReads(b, rest);
    case Num(text) => NumberReads(text, rest);
    case Str(s) => QuotedReads(s, rest);
    case Arr(items) =>
      if items == [] {
        EmptyReads(rest);
      } else {
        ItemsStringified(items, rest);
        StringifyStarts(items[0]);
        ArrayReads(true, items, "", StringifyItems(items), rest);
        assert "" + StringifyItems(items) == StringifyItems(items);
      }
    case Obj(fields) =>
      if fields == [] {
        EmptyReads(rest);
      } else {
        FieldsStringified(fields, rest);
        ObjectReads(true, fields, "", StringifyFields(fields), rest);
        assert "" + StringifyFields(fields) == StringifyFields(fields);
      }
  }

  lemma {:induction false} ItemsStringified(items: seq<Json>, rest: string)
    requires items != [] && AllFinite(items) && Stops(rest)
    ensures ItemsRead(true, items, StringifyItems(items) + rest, rest)
    decreases items, 0
  {
    var first := Stringify(items[0]);
    if |items| == 1 {
      TailStops("", ']', rest);
      assert "" + "]" == "]";
      StringifyReads(items[0], "]" + rest);
      LastItemReads(true, items, first, "]", rest);
    } else {
      var body := StringifyItems(items[1..]);
      ItemsStringified(items[1..], rest);
      StringifyStarts(items[1]);
      StringifyReads(items[0], ("," + body) + rest);
      GapSkipped("", body, rest);
      assert "" + body == body;
      MoreItemsRead(true, true, items, first, "," + body, body, rest);
    }
  }

  lemma FieldStringified(f: Field, rest: string)
    requires Finite(f.val) && Stops(rest)
    ensures FieldReads(true, f, StringifyField(f) + rest, rest)
    decreases f, 2
  {
    var val := Stringify(f.val);
    StringReads(f.key, (":" + val) + rest);
    StringifyReads(f.val, rest);
    StringifyStarts(f.val);
    MemberReads(true, true, f, Escaped(f.key) + "\"", ":", val, rest);
  }

  lemma {:induction false} FieldsStringified(fields: seq<Field>, rest: string)
    requires fields != [] && AllFiniteFields(fields) && Stops(rest)
    ensures StringifyFields(fields) != [] && StringifyFields(fields)[0] == '"'
    ensures FieldsRead(true, fields, StringifyFields(fields) + rest, rest)
    decreases fields, 0
  {
    var first := StringifyField(fields[0]);
    assert first[0] == '"';
    if |fields| == 1 {
      TailStops("", '}', rest);
      assert "" + "}" == "}";
      FieldStringified(fields[0], "}" + rest);
      LastFieldReads(true, fields, first, "}", rest);
    } else {
      var body := StringifyFields(fields[1..]);
      FieldsStringified(fields[1..], rest);
      FieldStringified(fields[0], ("," + body) + rest);
      GapSkipped("", body, rest);
      assert "" + body == body;
      MoreFieldsRead(true, true, fields, first, "," + body, body, rest);
    }
  }

  // What is printed determines the value.
  lemma StringifyInjective(v: Json, w: Json)
    requires Finite(v) && Finite(w) && Stringify(v) == Stringify(w)
    ensures v == w
  {
    StringifyReads(v, "");
    StringifyReads(w, "");
  }

  /******* Numbers that are not finite *******/

  // The value as a parser will see it: a number that is not finite has become null.
  function Normal(v: Json): Json
    decreases v, 1
  {
    match v
    case Num(text) => if IsNumber(text) then v else Null
    case Arr(items) => Arr(NormalItems(items))
    case Obj(fields) => Obj(NormalFields(fields))
    case _ => v
  }

  function NormalItems(items: seq<Json>): (r: seq<Json>)
    ensures |r| == |items|
    decreases items, 0
  {
    if items == [] then [] else [Normal(items[0])] + NormalItems(items[1..])
  }

  function NormalFields(fields: seq<Field>): (r: seq<Field>)
    ensures |r| == |fields|
    decreases fields, 0
  {
    if fields == [] then [] else [Field(fields[0].key, Normal(fields[0].val))] + NormalFields(fields[1..])
  }

  lemma {:induction false} NormalPrints(v: Json)
    ensures Stringify(Normal(v)) == Stringify(v) && Finite(Normal(v))
    ensures Finite(v) <==> Normal(v) == v
    decreases v, 1
  {
    match v
    case Arr(items) =>
      if items != [] {
        NormalItemsPrint(items);
      }
    case Obj(fields) =>
      if fields != [] {
        NormalFieldsPrint(fields);
      }
    case _ =>
  }

  lemma {:induction false} NormalItemsPrint(items: seq<Json>)
    requires items != []
    ensures StringifyItems(NormalItems(items)) == StringifyItems(items) && AllFinite(NormalItems(items))
    ensures AllFinite(items) <==> NormalItems(items) == items
    decreases items, 0
  {
    NormalPrints(items[0]);
    var normal := NormalItems(items);
    assert items == [items[0]] + items[1..];
    assert normal[1..] == NormalItems(items[1..]);
    if |items| > 1 {
      NormalItemsPrint(items[1..]);
      assert forall i :: 0 < i < |items| ==> normal[i] == normal[1..][i - 1] && items[i] == items[1..][i - 1];
      assert AllFinite(items) <==> Finite(items[0]) && AllFinite(items[1..]);
    }
  }

  lemma {:induction false} NormalFieldsPrint(fields: seq<Field>)
    requires fields != []
    ensures StringifyFields(NormalFields(fields)) == StringifyFields(fields) && AllFiniteFields(NormalFields(fields))
    ensures AllFiniteFields(fields) <==> NormalFields(fields) == fields
    decreases fields, 0
  {
    NormalPrints(fields[0].val);
    var normal := NormalFields(fields);
    assert fields == [fields[0]] + fields[1..];
    assert normal[1..] == NormalFields(fields[1..]);
    if |fields| > 1 {
      NormalFieldsPrint(fields[1..]);
      assert forall i :: 0 < i < |fields| ==> normal[i] == normal[1..][i - 1] && fields[i] == fields[1..][i - 1];
      assert AllFiniteFields(fields) <==> Finite(fields[0].val) && AllFiniteFields(fields[1..]);
    }
  }

  // All values: the same text is printed exactly for values that differ in nothing but numbers that are not finite,
  // which are printed as null.
  lemma SameTextIff(v: Json, w: Json)
    ensures Stringify(v) == Stringify(w) <==> Normal(v) == Normal(w)
  {
    NormalPrints(v);
    NormalPrints(w);
    if Stringify(v) == Stringify(w) {
      StringifyInjective(Normal(v), Normal(w));
    }
  }
}
