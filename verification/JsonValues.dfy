/** JSON values as JavaScript holds them, and property access on them. */
module JsonValues {
  import opened Wrappers

  // A number is represented by the text JavaScript prints for it; an object's properties are
  // listed in order.
  datatype Json =
    | Null
    | Bool(b: bool)
    | Num(text: string)
    | Str(s: string)
    | Arr(items: seq<Json>)
    | Obj(fields: seq<Field>)

  datatype Field = Field(key: string, val: Json)

  const REF := "$ref"

  predicate Truthy(j: Json) {
    match j
    case Null => false
    case Bool(b) => b
    case Num(text) => text != "0"
    case Str(s) => s != ""
    case _ => true
  }

  // The falsy values of a JSON text: null, false, zero and the empty text.
  lemma TruthyIff(j: Json)
    ensures Truthy(j) <==> j != Null && j != Bool(false) && j != Num("0") && j != Str("")
  {
  }

  // `value && typeof value === 'object'`
  predicate IsObject(j: Option<Json>) {
    j.Some? && (j.value.Arr? || j.value.Obj?)
  }

  function Find(fields: seq<Field>, key: string): Option<Json> {
    if fields == [] then None
    else if fields[0].key == key then Some(fields[0].val)
    else Find(fields[1..], key)
  }

  function Replace(fields: seq<Field>, key: string, val: Json): seq<Field> {
    if fields == [] then []
    else if fields[0].key == key then [Field(key, val)] + fields[1..]
    else [fields[0]] + Replace(fields[1..], key, val)
  }

  lemma ReplaceFinds(fields: seq<Field>, key: string, val: Json, other: string)
    ensures Find(Replace(fields, key, val), other) ==
            if other == key && Find(fields, key).Some? then Some(val) else Find(fields, other)
  {
    if fields != [] {
      if fields[0].key == key {
        assert ([Field(key, val)] + fields[1..])[1..] == fields[1..];
      } else {
        ReplaceFinds(fields[1..], key, val, other);
        assert Replace(fields, key, val)[1..] == Replace(fields[1..], key, val);
      }
    }
  }

  // Where a character first occurs.
  function FirstIndex(s: string, c: char): (n: nat)
    requires c in s
    ensures n < |s| && s[n] == c && c !in s[..n]
  {
    if s[0] == c then 0
    else
      assert s == [s[0]] + s[1..];
      var m := FirstIndex(s[1..], c);
      assert s[..m + 1] == [s[0]] + s[1..][..m];
      m + 1
  }

  /******* Array indices as property names *******/

  function Digit(d: nat): (c: char)
    requires d < 10
    ensures '0' <= c <= '9' && c as int - '0' as int == d
    ensures c == '0' <==> d == 0
  {
    ('0' as int + d) as char
  }

  function IndexText(n: nat): string {
    if n < 10 then [Digit(n)] else IndexText(n / 10) + [Digit(n % 10)]
  }

  predicate IsDigit(c: char) {
    '0' <= c <= '9'
  }

  function Digits(text: string): Option<nat> {
    if text == [] then Some(0)
    else if !IsDigit(text[|text| - 1]) then None
    else
      var most := Digits(text[..|text| - 1]);
      if most.None? then None else Some(10 * most.value + (text[|text| - 1] as int - '0' as int))
  }

  // The index a property name denotes: digits without a leading zero.
  function Index(key: string): Option<nat> {
    if key == [] || (key[0] == '0' && |key| > 1) then None else Digits(key)
  }

  lemma {:induction false} IndexTextShape(n: nat)
    ensures var t := IndexText(n);
            && t != [] && (t[0] == '0' <==> n == 0) && (n == 0 ==> |t| == 1)
            && Digits(t) == Some(n)
  {
    var t := IndexText(n);
    if n < 10 {
      assert t[..0] == [];
      assert Digits(t[..0]) == Some(0);
    } else {
      IndexTextShape(n / 10);
      assert t[..|t| - 1] == IndexText(n / 10);
    }
  }

  lemma IndexRoundTrip(n: nat)
    ensures Index(IndexText(n)) == Some(n)
  {
    IndexTextShape(n);
  }

  lemma LeadingDigit(key: string)
    requires key != [] && key[0] != '0' && Digits(key).Some?
    ensures Digits(key).value > 0
  {
    if |key| > 1 {
      LeadingDigit(key[..|key| - 1]);
    } else {
      assert key[..0] == [];
    }
  }

  // An index has only one name.
  lemma {:induction false} IndexTextUnique(key: string)
    requires Index(key).Some?
    ensures IndexText(Index(key).value) == key
  {
    var most := key[..|key| - 1];
    if |key| == 1 {
      assert most == [];
      assert Digits(most) == Some(0);
    } else {
      LeadingDigit(most);
      assert Index(most) == Digits(most);
      IndexTextUnique(most);
      assert key == most + [key[|key| - 1]];
    }
  }

  /******* Property access *******/

  function GetProperty(j: Json, key: string): Option<Json> {
    match j
    case Obj(fields) => Find(fields, key)
    case Arr(items) =>
      if key == "length" then Some(Num(IndexText(|items|)))
      else if Index(key).Some? && Index(key).value < |items| then Some(items[Index(key).value])
      else None
    case _ => None
  }

  function Get(j: Option<Json>, key: string): Option<Json> {
    if j.None? then None else GetProperty(j.value, key)
  }

  // `value['$ref'] !== undefined`
  predicate HasRef(j: Json) {
    GetProperty(j, REF).Some?
  }

  // The value found by following property names from a value.
  function At(j: Option<Json>, path: seq<string>): Option<Json>
    decreases path
  {
    if path == [] then j else At(Get(j, path[0]), path[1..])
  }

  lemma NothingBelow(path: seq<string>)
    ensures At(None, path) == None
  {
    if path != [] {
      NothingBelow(path[1..]);
    }
  }

  lemma {:induction false} AtSplit(j: Option<Json>, first: seq<string>, second: seq<string>)
    ensures At(j, first + second) == At(At(j, first), second)
    decreases first
  {
    if first == [] {
      assert first + second == second;
    } else {
      AtSplit(Get(j, first[0]), first[1..], second);
      assert (first + second)[1..] == first[1..] + second;
    }
  }
}
