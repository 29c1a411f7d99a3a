/** Finding every `$ref` object of a method, and copying each over the modified method in place. */
module RefPaths {
  import opened Wrappers
  import opened JsonValues

  /******* Dotted paths *******/

  function BuildPath(current: string, segment: string): string {
    if current == "" then segment else current + "." + segment
  }

  function PathText(segs: seq<string>): string {
    if segs == [] then "" else BuildPath(PathText(segs[..|segs| - 1]), segs[|segs| - 1])
  }

  function Split(path: string): (r: seq<string>)
    ensures r != []
  {
    if path == "" then [""]
    else
      var rest := Split(path[1..]);
      if path[0] == '.' then [""] + rest else [[path[0]] + rest[0]] + rest[1..]
  }

  predicate Plain(key: string) {
    key != "" && '.' !in key
  }

  predicate AllPlain(segs: seq<string>) {
    forall i :: 0 <= i < |segs| ==> Plain(segs[i])
  }

  lemma SplitPlain(key: string)
    requires '.' !in key
    ensures Split(key) == [key]
  {
    if key != "" {
      SplitPlain(key[1..]);
      assert [key[0]] + key[1..] == key;
    }
  }

  lemma {:induction false} SplitDot(a: string, b: string)
    requires '.' !in b
    ensures Split(a + "." + b) == Split(a) + [b]
  {
    if a == "" {
      SplitPlain(b);
      assert ("" + "." + b)[1..] == b;
    } else {
      SplitDot(a[1..], b);
      assert (a + "." + b)[1..] == a[1..] + "." + b;
    }
  }

  lemma {:induction false} SplitPathText(segs: seq<string>)
    requires AllPlain(segs) && segs != []
    ensures Split(PathText(segs)) == segs && PathText(segs) != ""
  {
    var most, last := segs[..|segs| - 1], segs[|segs| - 1];
    assert segs == most + [last];
    if most == [] {
      SplitPlain(last);
    } else {
      SplitPathText(most);
      SplitDot(PathText(most), last);
    }
  }

  // `getObjectAtPath`: an empty path means the root.
  function GetByPath(j: Json, path: string): Option<Json> {
    if path == "" then Some(j) else At(Some(j), Split(path))
  }

  lemma GetByPathText(j: Json, segs: seq<string>)
    requires AllPlain(segs)
    ensures GetByPath(j, PathText(segs)) == At(Some(j), segs)
  {
    if segs != [] {
      SplitPathText(segs);
    }
  }

  /******* The $ref objects of a tree *******/

  datatype Ref = Ref(segs: seq<string>, ref: Json)

  datatype RefPath = RefPath(path: string, ref: Json)

  function RefsUnder(j: Json, prefix: seq<string>): seq<Ref>
    decreases j, 1
  {
    match j
    case Arr(items) => RefsInItems(items, 0, prefix)
    case Obj(fields) =>
      (if HasRef(j) then [Ref(prefix, Find(fields, REF).value)] else []) + RefsInFields(fields, prefix)
    case _ => []
  }

  function RefsInItems(items: seq<Json>, at: nat, prefix: seq<string>): seq<Ref>
    decreases items, 0
  {
    if items == [] then []
    else RefsUnder(items[0], prefix + [IndexText(at)]) + RefsInItems(items[1..], at + 1, prefix)
  }

  function RefsInFields(fields: seq<Field>, prefix: seq<string>): seq<Ref>
    decreases fields, 0
  {
    if fields == [] then []
    else
      var f := fields[0];
      RefsUnder(f.val, prefix + [f.key]) + RefsInFields(fields[1..], prefix)
  }

  ghost predicate PlainTree(j: Json)
    decreases j, 1
  {
    match j
    case Arr(items) => PlainItems(items)
    case Obj(fields) => PlainFields(fields)
    case _ => true
  }

  ghost predicate PlainItems(items: seq<Json>)
    decreases items, 0
  {
    items != [] ==> PlainTree(items[0]) && PlainItems(items[1..])
  }

  // Keys are non-empty, free of dots, and each occurs once.
  ghost predicate PlainFields(fields: seq<Field>)
    decreases fields, 0
  {
    fields != [] ==>
      && Plain(fields[0].key) && Find(fields[1..], fields[0].key).None?
      && PlainTree(fields[0].val) && PlainFields(fields[1..])
  }

  ghost predicate RefAt(j: Json, rel: seq<string>, ref: Json) {
    var o := At(Some(j), rel);
    o.Some? && o.value.Obj? && Find(o.value.fields, REF) == Some(ref)
  }

  ghost predicate Lists(refs: seq<Ref>, r: Ref) {
    r in refs
  }

  // Every listed path extends the prefix and leads to a $ref object.
  lemma {:induction false} ListedIsRef(j: Json, prefix: seq<string>, r: Ref)
    requires PlainTree(j) && r in RefsUnder(j, prefix)
    ensures prefix <= r.segs && RefAt(j, r.segs[|prefix|..], r.ref)
    ensures AllPlain(r.segs[|prefix|..])
    decreases j, 1
  {
    match j
    case Arr(items) =>
      var i := ListedInItems(items, 0, prefix, r);
      ItemIsRef(items, i, prefix, r);
    case Obj(fields) =>
      if r in RefsInFields(fields, prefix) {
        ListedInFields(fields, prefix, r);
        assert r.segs[|prefix|..] == [r.segs[|prefix|]] + r.segs[|prefix| + 1..];
      } else {
        assert r == Ref(prefix, Find(fields, REF).value);
        assert r.segs[|prefix|..] == [];
      }
  }

  lemma {:induction false} ListedInItems(items: seq<Json>, at: nat, prefix: seq<string>, r: Ref) returns (i: nat)
    requires PlainItems(items) && r in RefsInItems(items, at, prefix)
    ensures i < |items| && prefix + [IndexText(at + i)] <= r.segs
    ensures RefAt(items[i], r.segs[|prefix| + 1..], r.ref)
    ensures AllPlain(r.segs[|prefix| + 1..])
    decreases items, 0
  {
    if r in RefsUnder(items[0], prefix + [IndexText(at)]) {
      i := 0;
      ListedIsRef(items[0], prefix + [IndexText(at)], r);
    } else {
      var k := ListedInItems(items[1..], at + 1, prefix, r);
      i := k + 1;
    }
  }

  lemma ItemIsRef(items: seq<Json>, i: nat, prefix: seq<string>, r: Ref)
    requires i < |items| && prefix + [IndexText(i)] <= r.segs
    requires RefAt(items[i], r.segs[|prefix| + 1..], r.ref) && AllPlain(r.segs[|prefix| + 1..])
    ensures prefix <= r.segs && RefAt(Arr(items), r.segs[|prefix|..], r.ref) && AllPlain(r.segs[|prefix|..])
  {
    IndexRoundTrip(i);
    IndexTextPlain(i);
    assert r.segs[|prefix|..] == [IndexText(i)] + r.segs[|prefix| + 1..];
  }

  lemma {:induction false} ListedInFields(fields: seq<Field>, prefix: seq<string>, r: Ref)
    requires PlainFields(fields) && r in RefsInFields(fields, prefix)
    ensures |r.segs| > |prefix| && prefix <= r.segs
    ensures Find(fields, r.segs[|prefix|]).Some?
    ensures RefAt(Find(fields, r.segs[|prefix|]).value, r.segs[|prefix| + 1..], r.ref)
    ensures AllPlain(r.segs[|prefix|..])
    decreases fields, 0
  {
    var f := fields[0];
    if r in RefsUnder(f.val, prefix + [f.key]) {
      ListedIsRef(f.val, prefix + [f.key], r);
      assert r.segs[|prefix|..] == [f.key] + r.segs[|prefix| + 1..];
    } else {
      ListedInFields(fields[1..], prefix, r);
    }
  }

  lemma IndexTextPlain(n: nat)
    ensures Plain(IndexText(n))
  {
    if n >= 10 {
      IndexTextPlain(n / 10);
    }
  }

  // A path that leads to an object starts with a key or an index of the value.
  lemma ObjectBelow(j: Json, rel: seq<string>)
    requires rel != [] && IsObject(At(Some(j), rel))
    ensures || (j.Obj? && Find(j.fields, rel[0]).Some?)
            || (j.Arr? && Index(rel[0]).Some? && Index(rel[0]).value < |j.items| && rel[0] != "length")
    ensures At(Some(j), rel) == At(GetProperty(j, rel[0]), rel[1..])
  {
    NothingBelow(rel[1..]);
    if rel[1..] != [] {
      NothingBelow(rel[1..][1..]);
    }
  }

  // Every $ref object is listed.
  lemma {:induction false} RefIsListed(j: Json, prefix: seq<string>, rel: seq<string>, ref: Json)
    requires RefAt(j, rel, ref)
    ensures Ref(prefix + rel, ref) in RefsUnder(j, prefix)
    decreases j, 1
  {
    if rel == [] {
      assert prefix + rel == prefix;
    } else {
      ObjectBelow(j, rel);
      assert prefix + rel == prefix + [rel[0]] + rel[1..];
      match j
      case Arr(items) =>
        IndexTextUnique(rel[0]);
        RefInItemsListed(items, 0, prefix, Index(rel[0]).value, rel[1..], ref);
      case Obj(fields) =>
        RefInFieldsListed(fields, prefix, rel[0], rel[1..], ref);
      case _ =>
    }
  }

  lemma {:induction false} RefInItemsListed(items: seq<Json>, at: nat, prefix: seq<string>,
      i: nat, rel: seq<string>, ref: Json)
    requires i < |items| && RefAt(items[i], rel, ref)
    ensures Ref(prefix + [IndexText(at + i)] + rel, ref) in RefsInItems(items, at, prefix)
    decreases items, 0
  {
    if i == 0 {
      RefIsListed(items[0], prefix + [IndexText(at)], rel, ref);
    } else {
      RefInItemsListed(items[1..], at + 1, prefix, i - 1, rel, ref);
    }
  }

  lemma {:induction false} RefInFieldsListed(fields: seq<Field>, prefix: seq<string>,
      key: string, rel: seq<string>, ref: Json)
    requires Find(fields, key).Some? && RefAt(Find(fields, key).value, rel, ref)
    ensures Ref(prefix + [key] + rel, ref) in RefsInFields(fields, prefix)
    decreases fields, 0
  {
    if fields[0].key == key {
      RefIsListed(fields[0].val, prefix + [key], rel, ref);
    } else {
      RefInFieldsListed(fields[1..], prefix, key, rel, ref);
    }
  }

  ghost predicate Distinct(refs: seq<Ref>) {
    forall i, j :: 0 <= i < j < |refs| ==> refs[i].segs != refs[j].segs
  }

  lemma DistinctConcat(a: seq<Ref>, b: seq<Ref>)
    requires Distinct(a) && Distinct(b)
    requires forall x, y :: x in a && y in b ==> x.segs != y.segs
    ensures Distinct(a + b)
  {
    var c := a + b;
    forall i, j | 0 <= i < j < |c| ensures c[i].segs != c[j].segs {
      if i < |a| && j >= |a| {
        assert c[i] in a && c[j] in b;
      }
    }
  }

  lemma {:induction false} ListedOnce(j: Json, prefix: seq<string>)
    requires PlainTree(j)
    ensures Distinct(RefsUnder(j, prefix))
    decreases j, 1
  {
    match j
    case Arr(items) => ItemsListedOnce(items, 0, prefix);
    case Obj(fields) =>
      FieldsListedOnce(fields, prefix);
      if HasRef(j) {
        var below := RefsInFields(fields, prefix);
        forall y | y in below ensures prefix != y.segs {
          ListedInFields(fields, prefix, y);
        }
        DistinctConcat([Ref(prefix, Find(fields, REF).value)], below);
      }
    case _ =>
  }

  lemma {:induction false} ItemsListedOnce(items: seq<Json>, at: nat, prefix: seq<string>)
    requires PlainItems(items)
    ensures Distinct(RefsInItems(items, at, prefix))
    decreases items, 0
  {
    if items != [] {
      ListedOnce(items[0], prefix + [IndexText(at)]);
      ItemsListedOnce(items[1..], at + 1, prefix);
      var first, rest := RefsUnder(items[0], prefix + [IndexText(at)]), RefsInItems(items[1..], at + 1, prefix);
      forall x, y | x in first && y in rest ensures x.segs != y.segs {
        ListedIsRef(items[0], prefix + [IndexText(at)], x);
        var i := ListedInItems(items[1..], at + 1, prefix, y);
        IndexRoundTrip(at);
        IndexRoundTrip(at + 1 + i);
        assert x.segs[|prefix|] == IndexText(at) && y.segs[|prefix|] == IndexText(at + 1 + i);
      }
      DistinctConcat(first, rest);
    }
  }

  lemma {:induction false} FieldsListedOnce(fields: seq<Field>, prefix: seq<string>)
    requires PlainFields(fields)
    ensures Distinct(RefsInFields(fields, prefix))
    decreases fields, 0
  {
    if fields != [] {
      var f := fields[0];
      ListedOnce(f.val, prefix + [f.key]);
      FieldsListedOnce(fields[1..], prefix);
      var first, rest := RefsUnder(f.val, prefix + [f.key]), RefsInFields(fields[1..], prefix);
      forall x, y | x in first && y in rest ensures x.segs != y.segs {
        ListedIsRef(f.val, prefix + [f.key], x);
        ListedInFields(fields[1..], prefix, y);
        assert x.segs[|prefix|] == f.key;
      }
      DistinctConcat(first, rest);
    }
  }

  // For a tree with plain, distinct keys: the list holds exactly the positions of $ref objects,
  // each once, and reading the tree at a listed path gives back the object.
  lemma RefsExact(j: Json)
    requires PlainTree(j)
    ensures forall segs, ref :: RefAt(j, segs, ref) <==> Lists(RefsUnder(j, []), Ref(segs, ref))
    ensures Distinct(RefsUnder(j, []))
    ensures forall r :: Lists(RefsUnder(j, []), r) ==>
              AllPlain(r.segs) && GetByPath(j, PathText(r.segs)) == At(Some(j), r.segs)
  {
    forall segs, ref ensures RefAt(j, segs, ref) <==> Lists(RefsUnder(j, []), Ref(segs, ref)) {
      if RefAt(j, segs, ref) {
        RefIsListed(j, [], segs, ref);
        assert [] + segs == segs;
      }
      if Ref(segs, ref) in RefsUnder(j, []) {
        ListedIsRef(j, [], Ref(segs, ref));
      }
    }
    ListedOnce(j, []);
    forall r | Lists(RefsUnder(j, []), r)
      ensures AllPlain(r.segs) && GetByPath(j, PathText(r.segs)) == At(Some(j), r.segs)
    {
      ListedIsRef(j, [], r);
      assert r.segs[0..] == r.segs;
      GetByPathText(j, r.segs);
    }
  }

  /******* The finder *******/

  function Texts(refs: seq<Ref>): (r: seq<RefPath>)
    ensures |r| == |refs|
    ensures forall i :: 0 <= i < |refs| ==> r[i] == RefPath(PathText(refs[i].segs), refs[i].ref)
  {
    seq(|refs|, i requires 0 <= i < |refs| => RefPath(PathText(refs[i].segs), refs[i].ref))
  }

  lemma TextsAppend(a: seq<Ref>, b: seq<Ref>)
    ensures Texts(a + b) == Texts(a) + Texts(b)
  {
  }

  lemma PathTextChild(prefix: seq<string>, segment: string)
    ensures PathText(prefix + [segment]) == BuildPath(PathText(prefix), segment)
  {
    assert (prefix + [segment])[..|prefix|] == prefix;
  }

  class RefPathFinder {
    var paths: seq<RefPath>

    constructor ()
      ensures paths == []
    {
      paths := [];
    }

    method FindAll(j: Json, currentPath: string, ghost prefix: seq<string>)
      requires currentPath == PathText(prefix)
      modifies this
      ensures paths == old(paths) + Texts(RefsUnder(j, prefix))
      decreases j, 2
    {
      match j
      case Arr(items) => ProcessArray(items, currentPath, prefix);
      case Obj(fields) => ProcessObject(j, currentPath, prefix);
      case _ =>
    }

    method ProcessObject(j: Json, currentPath: string, ghost prefix: seq<string>)
      requires currentPath == PathText(prefix) && j.Obj?
      modifies this
      ensures paths == old(paths) + Texts(RefsUnder(j, prefix))
      decreases j, 1
    {
      ghost var own: seq<Ref> := [];
      if HasRef(j) {
        var ref := Find(j.fields, REF).value;
        own := [Ref(prefix, ref)];
        paths := paths + [RefPath(currentPath, ref)];
      }
      ghost var below := Texts(RefsInFields(j.fields, prefix));
      assert paths == old(paths) + Texts(own);
      TextsAppend(own, RefsInFields(j.fields, prefix));
      assert old(paths) + (Texts(own) + below) == (old(paths) + Texts(own)) + below;
      ProcessProperties(j.fields, currentPath, prefix);
    }

    static lemma NextItemTexts(items: seq<Json>, i: nat, prefix: seq<string>)
      requires i < |items|
      ensures Texts(RefsInItems(items[i..], i, prefix)) ==
              Texts(RefsUnder(items[i], prefix + [IndexText(i)])) + Texts(RefsInItems(items[i + 1..], i + 1, prefix))
    {
      assert items[i..][1..] == items[i + 1..];
      TextsAppend(RefsUnder(items[i], prefix + [IndexText(i)]), RefsInItems(items[i + 1..], i + 1, prefix));
    }

    method ProcessArray(items: seq<Json>, currentPath: string, ghost prefix: seq<string>)
      requires currentPath == PathText(prefix)
      modifies this
      ensures paths == old(paths) + Texts(RefsInItems(items, 0, prefix))
      decreases items, 0
    {
      ghost var goal := paths + Texts(RefsInItems(items, 0, prefix));
      for i := 0 to |items|
        invariant paths + Texts(RefsInItems(items[i..], i, prefix)) == goal
      {
        var segment := IndexText(i);
        PathTextChild(prefix, segment);
        NextItemTexts(items, i, prefix);
        ghost var was, own := paths, Texts(RefsUnder(items[i], prefix + [segment]));
        ghost var rest := Texts(RefsInItems(items[i + 1..], i + 1, prefix));
        assert was + (own + rest) == (was + own) + rest;
        FindAll(items[i], BuildPath(currentPath, segment), prefix + [segment]);
        assert paths == was + own;
      }
    }

    static lemma NextFieldTexts(fields: seq<Field>, i: nat, prefix: seq<string>)
      requires i < |fields|
      ensures Texts(RefsInFields(fields[i..], prefix)) ==
              Texts(RefsUnder(fields[i].val, prefix + [fields[i].key])) + Texts(RefsInFields(fields[i + 1..], prefix))
    {
      assert fields[i..][1..] == fields[i + 1..];
      TextsAppend(RefsUnder(fields[i].val, prefix + [fields[i].key]), RefsInFields(fields[i + 1..], prefix));
    }

    method ProcessProperties(fields: seq<Field>, currentPath: string, ghost prefix: seq<string>)
      requires currentPath == PathText(prefix)
      modifies this
      ensures paths == old(paths) + Texts(RefsInFields(fields, prefix))
      decreases fields, 0
    {
      ghost var goal := paths + Texts(RefsInFields(fields, prefix));
      for i := 0 to |fields|
        invariant paths + Texts(RefsInFields(fields[i..], prefix)) == goal
      {
        var f := fields[i];
        PathTextChild(prefix, f.key);
        NextFieldTexts(fields, i, prefix);
        ghost var was, own := paths, Texts(RefsUnder(f.val, prefix + [f.key]));
        ghost var rest := Texts(RefsInFields(fields[i + 1..], prefix));
        assert was + (own + rest) == (was + own) + rest;
        if IsObject(Some(f.val)) {
          FindAll(f.val, BuildPath(currentPath, f.key), prefix + [f.key]);
        }
        assert paths == was + own;
      }
    }
  }

  /******* Writing at a path *******/

  predicate Settable(j: Json, path: seq<string>)
    decreases path
  {
    path == [] ||
    match j
    case Obj(fields) => Find(fields, path[0]).Some? && Settable(Find(fields, path[0]).value, path[1..])
    case Arr(items) => Index(path[0]).Some? && Index(path[0]).value < |items| &&
      Settable(items[Index(path[0]).value], path[1..])
    case _ => false
  }

  function SetAt(j: Json, path: seq<string>, val: Json): Json
    requires Settable(j, path)
    decreases path
  {
    if path == [] then val
    else
      match j
      case Obj(fields) => Obj(Replace(fields, path[0], SetAt(Find(fields, path[0]).value, path[1..], val)))
      case Arr(items) =>
        var i := Index(path[0]).value;
        Arr(items[i := SetAt(items[i], path[1..], val)])
  }

  // What there is at a position, without what lies below it: a primitive, the length of an array,
  // the keys of an object.
  function View(j: Json, path: seq<string>): Option<Json> {
    Outline(At(Some(j), path))
  }

  function Outline(j: Option<Json>): Option<Json> {
    if j.None? then None
    else
      match j.value
      case Arr(items) => Some(Arr(seq(|items|, i => Null)))
      case Obj(fields) => Some(Obj(seq(|fields|, i requires 0 <= i < |fields| => Field(fields[i].key, Null))))
      case _ => j
  }

  lemma ReplaceKeys(fields: seq<Field>, key: string, val: Json)
    ensures |Replace(fields, key, val)| == |fields|
    ensures forall i :: 0 <= i < |fields| ==> Replace(fields, key, val)[i].key == fields[i].key
  {
    if fields != [] && fields[0].key != key {
      ReplaceKeys(fields[1..], key, val);
    }
  }

  // Writing at a path is read back under that path and leaves every other position as it was.
  lemma {:induction false} SetAtView(j: Json, path: seq<string>, val: Json, q: seq<string>)
    requires Settable(j, path)
    ensures View(SetAt(j, path, val), q) == if path <= q then View(val, q[|path|..]) else View(j, q)
    decreases path
  {
    if path == [] {
      assert q[0..] == q;
    } else if q == [] {
      if j.Obj? {
        ReplaceKeys(j.fields, path[0], SetAt(Find(j.fields, path[0]).value, path[1..], val));
        assert Outline(Some(SetAt(j, path, val))).value.fields == Outline(Some(j)).value.fields;
      } else {
        assert Outline(Some(SetAt(j, path, val))).value.items == Outline(Some(j)).value.items;
      }
    } else {
      var child := GetProperty(j, path[0]).value;
      if j.Obj? {
        ReplaceFinds(j.fields, path[0], SetAt(child, path[1..], val), q[0]);
      } else if Index(q[0]).Some? && Index(q[0]) == Index(path[0]) {
        IndexTextUnique(q[0]);
        IndexTextUnique(path[0]);
      }
      if q[0] == path[0] {
        SetAtView(child, path[1..], val, q[1..]);
        assert path <= q <==> path[1..] <= q[1..];
        assert path <= q ==> q[1..][|path| - 1..] == q[|path|..];
      }
    }
  }

  lemma {:induction false} ObjectIsSettable(j: Json, path: seq<string>)
    requires IsObject(At(Some(j), path))
    ensures Settable(j, path)
    decreases path
  {
    if path != [] {
      ObjectBelow(j, path);
      ObjectIsSettable(GetProperty(j, path[0]).value, path[1..]);
    }
  }

  /******* Copying the $ref objects over *******/

  // The position lies at or below one of the listed $ref objects, where the modified method has an object too.
  ghost predicate Overridden(refs: seq<Ref>, modified: Json, q: seq<string>) {
    exists i :: 0 <= i < |refs| && refs[i].segs <= q && IsObject(At(Some(modified), refs[i].segs))
  }

  lemma OverriddenOneMore(refs: seq<Ref>, r: Ref, modified: Json, q: seq<string>)
    ensures Overridden(refs + [r], modified, q) <==>
            Overridden(refs, modified, q) || (r.segs <= q && IsObject(At(Some(modified), r.segs)))
  {
    var more := refs + [r];
    if Overridden(refs, modified, q) {
      var i :| 0 <= i < |refs| && refs[i].segs <= q && IsObject(At(Some(modified), refs[i].segs));
      assert more[i] == refs[i];
    }
    if r.segs <= q && IsObject(At(Some(modified), r.segs)) {
      assert more[|refs|] == r;
    }
  }

  ghost function Copied(orig: Json, modified: Json, segs: seq<string>): Json {
    if IsObject(At(Some(modified), segs)) && IsObject(At(Some(orig), segs)) then
      ObjectIsSettable(modified, segs);
      SetAt(modified, segs, At(Some(orig), segs).value)
    else modified
  }

  // `replaceObjectAtPath`, on values: the original's object goes over the modified method's object.
  method ReplaceObjectAtPath(orig: Json, modified: Json, path: string, ghost segs: seq<string>) returns (result: Json)
    requires AllPlain(segs) && path == PathText(segs)
    ensures result == Copied(orig, modified, segs)
  {
    GetByPathText(modified, segs);
    GetByPathText(orig, segs);
    var target := GetByPath(modified, path);
    var origObj := GetByPath(orig, path);
    if !(IsObject(target) && IsObject(origObj)) {
      return modified;
    }
    ObjectIsSettable(modified, segs);
    if path != "" {
      SplitPathText(segs);
      return SetAt(modified, Split(path), origObj.value);
    } else {
      if segs != [] {
        SplitPathText(segs);
      }
      return origObj.value;
    }
  }

  ghost predicate Merged(refs: seq<Ref>, orig: Json, modified: Json, result: Json) {
    forall q :: View(result, q) == if Overridden(refs, modified, q) then View(orig, q) else View(modified, q)
  }

  lemma MergedNothing(orig: Json, modified: Json)
    ensures Merged([], orig, modified, modified)
  {
  }

  lemma CopiedView(orig: Json, before: Json, p: seq<string>, q: seq<string>)
    requires IsObject(At(Some(orig), p))
    ensures View(Copied(orig, before, p), q) ==
            if IsObject(View(before, p)) && p <= q then View(orig, q) else View(before, q)
  {
    if IsObject(At(Some(before), p)) {
      ObjectIsSettable(before, p);
      SetAtView(before, p, At(Some(orig), p).value, q);
      if p <= q {
        assert q == p + q[|p|..];
        AtSplit(Some(orig), p, q[|p|..]);
      }
    }
  }

  lemma MergedOneMoreAt(refs: seq<Ref>, r: Ref, orig: Json, modified: Json, before: Json, q: seq<string>)
    requires IsObject(At(Some(orig), r.segs))
    requires View(before, q) == if Overridden(refs, modified, q) then View(orig, q) else View(modified, q)
    requires View(before, r.segs) ==
      if Overridden(refs, modified, r.segs) then View(orig, r.segs) else View(modified, r.segs)
    ensures View(Copied(orig, before, r.segs), q) ==
            if Overridden(refs + [r], modified, q) then View(orig, q) else View(modified, q)
  {
    CopiedView(orig, before, r.segs, q);
    OverriddenOneMore(refs, r, modified, q);
    if r.segs <= q && Overridden(refs, modified, r.segs) {
      OverriddenBelow(refs, modified, r.segs, q);
    }
  }

  lemma MergedOneMore(refs: seq<Ref>, r: Ref, orig: Json, modified: Json, before: Json)
    requires Merged(refs, orig, modified, before)
    requires IsObject(At(Some(orig), r.segs))
    ensures Merged(refs + [r], orig, modified, Copied(orig, before, r.segs))
  {
    forall q
      ensures View(Copied(orig, before, r.segs), q) ==
              if Overridden(refs + [r], modified, q) then View(orig, q) else View(modified, q)
    {
      MergedOneMoreAt(refs, r, orig, modified, before, q);
    }
  }

  lemma OverriddenBelow(refs: seq<Ref>, modified: Json, p: seq<string>, q: seq<string>)
    requires Overridden(refs, modified, p) && p <= q
    ensures Overridden(refs, modified, q)
  {
    var i :| 0 <= i < |refs| && refs[i].segs <= p && IsObject(At(Some(modified), refs[i].segs));
    assert refs[i].segs <= q;
  }

  lemma ListedObject(j: Json, i: nat)
    requires PlainTree(j) && i < |RefsUnder(j, [])|
    ensures AllPlain(RefsUnder(j, [])[i].segs) && IsObject(At(Some(j), RefsUnder(j, [])[i].segs))
  {
    var r := RefsUnder(j, [])[i];
    ListedIsRef(j, [], r);
    assert r.segs[0..] == r.segs;
  }

  method ListRefPaths(j: Json) returns (paths: seq<RefPath>)
    ensures paths == Texts(RefsUnder(j, []))
  {
    var finder := new RefPathFinder();
    finder.FindAll(j, "", []);
    paths := finder.paths;
  }

  // One round of the loop of `processRefFields`, after those for the positions in `refs`.
  method ProcessRefPath(orig: Json, before: Json, path: string,
      ghost modified: Json, ghost refs: seq<Ref>, ghost r: Ref)
      returns (result: Json)
    requires Merged(refs, orig, modified, before)
    requires AllPlain(r.segs) && path == PathText(r.segs) && IsObject(At(Some(orig), r.segs))
    ensures Merged(refs + [r], orig, modified, result)
  {
    MergedOneMore(refs, r, orig, modified, before);
    result := ReplaceObjectAtPath(orig, before, path, r.segs);
  }

  // After the loop: at and below every listed $ref position where the modified method had an object
  // the result is the original; everywhere else it is the modified method as it was.
  method ProcessRefFields(orig: Json, modified: Json) returns (result: Json)
    requires PlainTree(orig)
    ensures Merged(RefsUnder(orig, []), orig, modified, result)
  {
    ghost var refs := RefsUnder(orig, []);
    var paths := ListRefPaths(orig);
    result := modified;
    MergedNothing(orig, modified);
    assert refs[..0] == [];
    for i := 0 to |paths|
      invariant Merged(refs[..i], orig, modified, result)
    {
      ListedObject(orig, i);
      result := ProcessRefPath(orig, result, paths[i].path, modified, refs[..i], refs[i]);
      assert refs[..i + 1] == refs[..i] + [refs[i]];
    }
    assert refs[..|paths|] == refs;
  }
}
