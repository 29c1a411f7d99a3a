/** The last phase of merging two OpenRPC documents: cleaning, and reconciliation with the original. */
module MergeDocument {
  import opened Wrappers
  import opened JsonValues

  const SKIPPED_KEYS: set<string> := {"examples", "baseFeePerBlobGas", "blobGasUsedRatio"}

  const DISCARDED_PREFIX := "engine_"

  // A thrown TypeError ends the run.
  datatype Outcome = Done(doc: Json) | Throws

  /******* Skipped keys and $ref objects *******/

  function RemoveSkippedKeys(j: Json): Json
    decreases j, 1
  {
    match j
    case Arr(items) => Arr(RemoveSkippedItems(items))
    case Obj(fields) => Obj(RemoveSkippedFields(fields))
    case _ => j
  }

  function RemoveSkippedItems(items: seq<Json>): (r: seq<Json>)
    ensures |r| == |items|
    decreases items, 0
  {
    if items == [] then [] else [RemoveSkippedKeys(items[0])] + RemoveSkippedItems(items[1..])
  }

  function RemoveSkippedFields(fields: seq<Field>): seq<Field>
    decreases fields, 0
  {
    if fields == [] then []
    else if fields[0].key in SKIPPED_KEYS then RemoveSkippedFields(fields[1..])
    else
      var f := fields[0];
      [Field(f.key, RemoveSkippedKeys(f.val))] + RemoveSkippedFields(fields[1..])
  }

  function HandleRefField(j: Json): Json
    decreases j, 1
  {
    match j
    case Arr(items) => Arr(HandleRefItems(items))
    case Obj(fields) =>
      if Find(fields, REF).Some? then Obj([Field(REF, Find(fields, REF).value)])
      else Obj(HandleRefFields(fields))
    case _ => j
  }

  function HandleRefItems(items: seq<Json>): (r: seq<Json>)
    ensures |r| == |items|
    decreases items, 0
  {
    if items == [] then [] else [HandleRefField(items[0])] + HandleRefItems(items[1..])
  }

  function HandleRefFields(fields: seq<Field>): seq<Field>
    decreases fields, 0
  {
    if fields == [] then []
    else
      var f := fields[0];
      [Field(f.key, HandleRefField(f.val))] + HandleRefFields(fields[1..])
  }

  // `handle` of the handler for `$ref` fields, in component mode or in method mode.
  function Handle(j: Json, orig: Option<Json>, component: bool): Json
    decreases j, 1
  {
    if !IsObject(Some(j)) then j
    else if !IsObject(orig) then (if component then j else HandleRefField(j))
    else if j.Arr? then Arr(HandleItems(j.items, 0, orig.value, component))
    else if HasRef(orig.value) then orig.value
    else if HasRef(j) then (if component then j else Obj([Field(REF, Find(j.fields, REF).value)]))
    else Obj(HandleFields(j.fields, orig.value, component))
  }

  function ItemAt(orig: Json, i: nat): Option<Json> {
    if orig.Arr? && i < |orig.items| then Some(orig.items[i]) else None
  }

  // The items from position `at` on.
  function HandleItems(items: seq<Json>, at: nat, orig: Json, component: bool): (r: seq<Json>)
    ensures |r| == |items|
    decreases items, 0
  {
    if items == [] then []
    else [Handle(items[0], ItemAt(orig, at), component)] + HandleItems(items[1..], at + 1, orig, component)
  }

  function HandleFields(fields: seq<Field>, orig: Json, component: bool): seq<Field>
    decreases fields, 0
  {
    if fields == [] then []
    else
      var f := fields[0];
      [Field(f.key, Handle(f.val, GetProperty(orig, f.key), component))] + HandleFields(fields[1..], orig, component)
  }

  /******* Trees without skipped keys *******/

  lemma {:induction false} RemoveTwice(j: Json)
    ensures RemoveSkippedKeys(RemoveSkippedKeys(j)) == RemoveSkippedKeys(j)
    decreases j, 1
  {
    match j
    case Arr(items) => RemoveItemsTwice(items);
    case Obj(fields) => RemoveFieldsTwice(fields);
    case _ =>
  }

  lemma {:induction false} RemoveItemsTwice(items: seq<Json>)
    ensures RemoveSkippedItems(RemoveSkippedItems(items)) == RemoveSkippedItems(items)
    decreases items, 0
  {
    if items != [] {
      RemoveTwice(items[0]);
      RemoveItemsTwice(items[1..]);
      assert RemoveSkippedItems(items)[1..] == RemoveSkippedItems(items[1..]);
    }
  }

  lemma {:induction false} RemoveFieldsTwice(fields: seq<Field>)
    ensures RemoveSkippedFields(RemoveSkippedFields(fields)) == RemoveSkippedFields(fields)
    decreases fields, 0
  {
    if fields != [] {
      RemoveTwice(fields[0].val);
      RemoveFieldsTwice(fields[1..]);
      if fields[0].key !in SKIPPED_KEYS {
        assert RemoveSkippedFields(fields)[1..] == RemoveSkippedFields(fields[1..]);
      }
    }
  }

  ghost predicate Clean(j: Json) {
    RemoveSkippedKeys(j) == j
  }

  // Removing keys never lengthens, so a list it leaves alone is clean field by field.
  lemma RemoveShortens(fields: seq<Field>)
    ensures |RemoveSkippedFields(fields)| <= |fields|
  {
    if fields != [] {
      RemoveShortens(fields[1..]);
    }
  }

  lemma CleanSplit(fields: seq<Field>)
    requires fields != [] && RemoveSkippedFields(fields) == fields
    ensures fields[0].key !in SKIPPED_KEYS && Clean(fields[0].val)
    ensures RemoveSkippedFields(fields[1..]) == fields[1..]
  {
    RemoveShortens(fields[1..]);
    assert RemoveSkippedFields(fields)[1..] == fields[1..];
  }

  lemma CleanItem(items: seq<Json>)
    requires items != [] && RemoveSkippedItems(items) == items
    ensures Clean(items[0]) && RemoveSkippedItems(items[1..]) == items[1..]
  {
    assert RemoveSkippedItems(items)[1..] == items[1..];
  }

  lemma CleanFind(fields: seq<Field>, key: string)
    requires RemoveSkippedFields(fields) == fields && Find(fields, key).Some?
    ensures Clean(Find(fields, key).value)
  {
    CleanSplit(fields);
    if fields[0].key != key {
      CleanFind(fields[1..], key);
    }
  }

  lemma CleanSingle(key: string, val: Json)
    requires key !in SKIPPED_KEYS && Clean(val)
    ensures Clean(Obj([Field(key, val)]))
  {
    var fields := [Field(key, val)];
    assert RemoveSkippedFields(fields[1..]) == [];
  }

  /******* handleRefField *******/

  lemma HandleRefFieldsFind(fields: seq<Field>, key: string)
    ensures Find(HandleRefFields(fields), key) ==
            if Find(fields, key).None? then None else Some(HandleRefField(Find(fields, key).value))
  {
    if fields != [] {
      HandleRefFieldsFind(fields[1..], key);
      assert HandleRefFields(fields)[1..] == HandleRefFields(fields[1..]);
    }
  }

  lemma {:induction false} HandleRefTwice(j: Json)
    ensures HandleRefField(HandleRefField(j)) == HandleRefField(j)
    decreases j, 1
  {
    match j
    case Arr(items) => HandleRefItemsTwice(items);
    case Obj(fields) =>
      HandleRefFieldsTwice(fields);
      HandleRefFieldsFind(fields, REF);
    case _ =>
  }

  lemma {:induction false} HandleRefItemsTwice(items: seq<Json>)
    ensures HandleRefItems(HandleRefItems(items)) == HandleRefItems(items)
    decreases items, 0
  {
    if items != [] {
      HandleRefTwice(items[0]);
      HandleRefItemsTwice(items[1..]);
      assert HandleRefItems(items)[1..] == HandleRefItems(items[1..]);
    }
  }

  lemma {:induction false} HandleRefFieldsTwice(fields: seq<Field>)
    ensures HandleRefFields(HandleRefFields(fields)) == HandleRefFields(fields)
    decreases fields, 0
  {
    if fields != [] {
      HandleRefTwice(fields[0].val);
      HandleRefFieldsTwice(fields[1..]);
      assert HandleRefFields(fields)[1..] == HandleRefFields(fields[1..]);
    }
  }

  lemma {:induction false} HandleRefKeepsClean(j: Json)
    requires Clean(j)
    ensures Clean(HandleRefField(j))
    decreases j, 1
  {
    match j
    case Arr(items) => HandleRefItemsKeepClean(items);
    case Obj(fields) =>
      if Find(fields, REF).Some? {
        CleanFind(fields, REF);
        CleanSingle(REF, Find(fields, REF).value);
      } else {
        HandleRefFieldsKeepClean(fields);
      }
    case _ =>
  }

  lemma {:induction false} HandleRefItemsKeepClean(items: seq<Json>)
    requires RemoveSkippedItems(items) == items
    ensures RemoveSkippedItems(HandleRefItems(items)) == HandleRefItems(items)
    decreases items, 0
  {
    if items != [] {
      CleanItem(items);
      HandleRefKeepsClean(items[0]);
      HandleRefItemsKeepClean(items[1..]);
      assert HandleRefItems(items)[1..] == HandleRefItems(items[1..]);
    }
  }

  lemma {:induction false} HandleRefFieldsKeepClean(fields: seq<Field>)
    requires RemoveSkippedFields(fields) == fields
    ensures RemoveSkippedFields(HandleRefFields(fields)) == HandleRefFields(fields)
    decreases fields, 0
  {
    if fields != [] {
      CleanSplit(fields);
      HandleRefKeepsClean(fields[0].val);
      HandleRefFieldsKeepClean(fields[1..]);
      assert HandleRefFields(fields)[1..] == HandleRefFields(fields[1..]);
    }
  }

  /******* handle: once more changes nothing *******/

  lemma HandleFieldsFind(fields: seq<Field>, orig: Json, component: bool, key: string)
    ensures Find(HandleFields(fields, orig, component), key) ==
            if Find(fields, key).None? then None
            else Some(Handle(Find(fields, key).value, GetProperty(orig, key), component))
  {
    if fields != [] {
      HandleFieldsFind(fields[1..], orig, component, key);
      assert HandleFields(fields, orig, component)[1..] == HandleFields(fields[1..], orig, component);
    }
  }

  lemma RemoveKeepsOtherKeys(fields: seq<Field>, key: string)
    requires key !in SKIPPED_KEYS
    ensures Find(RemoveSkippedFields(fields), key) ==
            if Find(fields, key).None? then None else Some(RemoveSkippedKeys(Find(fields, key).value))
  {
    if fields != [] {
      RemoveKeepsOtherKeys(fields[1..], key);
      if fields[0].key !in SKIPPED_KEYS {
        assert RemoveSkippedFields(fields)[1..] == RemoveSkippedFields(fields[1..]);
      }
    }
  }

  // Method mode. The clones taken from the original may hold skipped keys; removing those and
  // handling again puts the same clones back.
  lemma {:induction false} HandleMethodTwice(j: Json, orig: Option<Json>)
    requires Clean(j)
    ensures Handle(RemoveSkippedKeys(Handle(j, orig, false)), orig, false) == Handle(j, orig, false)
    decreases j, 1
  {
    if IsObject(Some(j)) {
      if !IsObject(orig) {
        HandleRefKeepsClean(j);
        HandleRefTwice(j);
      } else if j.Arr? {
        HandleMethodItemsTwice(j.items, 0, orig.value);
      } else if HasRef(orig.value) {
      } else if HasRef(j) {
        CleanFind(j.fields, REF);
        CleanSingle(REF, Find(j.fields, REF).value);
      } else {
        HandleMethodFieldsTwice(j.fields, orig.value);
        HandleFieldsFind(j.fields, orig.value, false, REF);
        RemoveKeepsOtherKeys(HandleFields(j.fields, orig.value, false), REF);
      }
    }
  }

  lemma {:induction false} HandleMethodItemsTwice(items: seq<Json>, at: nat, orig: Json)
    requires RemoveSkippedItems(items) == items
    ensures HandleItems(RemoveSkippedItems(HandleItems(items, at, orig, false)), at, orig, false)
            == HandleItems(items, at, orig, false)
    decreases items, 0
  {
    if items != [] {
      CleanItem(items);
      HandleMethodTwice(items[0], ItemAt(orig, at));
      HandleMethodItemsTwice(items[1..], at + 1, orig);
      var once := HandleItems(items, at, orig, false);
      assert once[1..] == HandleItems(items[1..], at + 1, orig, false);
      assert RemoveSkippedItems(once)[1..] == RemoveSkippedItems(once[1..]);
    }
  }

  lemma {:induction false} HandleMethodFieldsTwice(fields: seq<Field>, orig: Json)
    requires RemoveSkippedFields(fields) == fields
    ensures HandleFields(RemoveSkippedFields(HandleFields(fields, orig, false)), orig, false)
            == HandleFields(fields, orig, false)
    decreases fields, 0
  {
    if fields != [] {
      CleanSplit(fields);
      HandleMethodTwice(fields[0].val, GetProperty(orig, fields[0].key));
      HandleMethodFieldsTwice(fields[1..], orig);
      var once := HandleFields(fields, orig, false);
      assert once[1..] == HandleFields(fields[1..], orig, false);
      assert RemoveSkippedFields(once)[1..] == RemoveSkippedFields(once[1..]);
    }
  }

  // Component mode.
  lemma {:induction false} HandleComponentTwice(j: Json, orig: Option<Json>)
    ensures Handle(Handle(j, orig, true), orig, true) == Handle(j, orig, true)
    decreases j, 1
  {
    if IsObject(Some(j)) && IsObject(orig) {
      if j.Arr? {
        HandleComponentItemsTwice(j.items, 0, orig.value);
      } else if !HasRef(orig.value) && !HasRef(j) {
        HandleComponentFieldsTwice(j.fields, orig.value);
        HandleFieldsFind(j.fields, orig.value, true, REF);
      }
    }
  }

  lemma {:induction false} HandleComponentItemsTwice(items: seq<Json>, at: nat, orig: Json)
    ensures HandleItems(HandleItems(items, at, orig, true), at, orig, true) == HandleItems(items, at, orig, true)
    decreases items, 0
  {
    if items != [] {
      HandleComponentTwice(items[0], ItemAt(orig, at));
      HandleComponentItemsTwice(items[1..], at + 1, orig);
      assert HandleItems(items, at, orig, true)[1..] == HandleItems(items[1..], at + 1, orig, true);
    }
  }

  lemma {:induction false} HandleComponentFieldsTwice(fields: seq<Field>, orig: Json)
    ensures HandleFields(HandleFields(fields, orig, true), orig, true) == HandleFields(fields, orig, true)
    decreases fields, 0
  {
    if fields != [] {
      HandleComponentTwice(fields[0].val, GetProperty(orig, fields[0].key));
      HandleComponentFieldsTwice(fields[1..], orig);
      assert HandleFields(fields, orig, true)[1..] == HandleFields(fields[1..], orig, true);
    }
  }

  /******* The document *******/

  predicate StartsWith(s: string, prefix: string) {
    prefix <= s
  }

  // `startsWith` is called on the name of a method, which fails on a truthy name that is no string.
  predicate BadName(m: Json) {
    var name := GetProperty(m, "name");
    name.Some? && Truthy(name.value) && !name.value.Str?
  }

  predicate Discarded(m: Json) {
    var name := GetProperty(m, "name");
    name.Some? && name.value.Str? && StartsWith(name.value.s, DISCARDED_PREFIX)
  }

  function FilterSkippedMethods(methods: seq<Json>): seq<Json> {
    if methods == [] then []
    else if Discarded(methods[0]) then FilterSkippedMethods(methods[1..])
    else [methods[0]] + FilterSkippedMethods(methods[1..])
  }

  // The entry of the method map: the last method of that name.
  function MethodNamed(methods: seq<Json>, name: string): Option<Json> {
    if methods == [] then None
    else if GetProperty(methods[|methods| - 1], "name") == Some(Str(name)) then Some(methods[|methods| - 1])
    else MethodNamed(methods[..|methods| - 1], name)
  }

  function OriginalMethod(originals: Json, m: Json): Option<Json> {
    var name := GetProperty(m, "name");
    if name.Some? && name.value.Str? && name.value.s != "" && originals.Arr? then
      MethodNamed(originals.items, name.value.s)
    else None
  }

  function ProcessMethods(methods: seq<Json>, originals: Json): (r: seq<Json>)
    ensures |r| == |methods|
  {
    if methods == [] then []
    else [ProcessMethod(methods[0], originals)] + ProcessMethods(methods[1..], originals)
  }

  function ProcessMethod(m: Json, originals: Json): Json {
    var orig := OriginalMethod(originals, m);
    if orig.Some? then Handle(m, orig, false) else m
  }

  predicate TruthyProperty(j: Json, key: string) {
    GetProperty(j, key).Some? && Truthy(GetProperty(j, key).value)
  }

  predicate ValidDocument(doc: Json) {
    doc.Obj? && Find(doc.fields, "methods").Some? && Find(doc.fields, "methods").value.Arr?
  }

  function Methods(doc: Json): seq<Json>
    requires ValidDocument(doc)
  {
    Find(doc.fields, "methods").value.items
  }

  function CleanMethods(doc: Json): seq<Json>
    requires ValidDocument(doc)
  {
    RemoveSkippedItems(FilterSkippedMethods(Methods(doc)))
  }

  // A kept method that is null has no properties to read.
  predicate Fails(doc: Json, orig: Json)
    requires ValidDocument(doc)
  {
    || (exists m :: m in Methods(doc) && BadName(m))
    || (Truthy(orig) && TruthyProperty(orig, "methods") && Null in CleanMethods(doc))
  }

  function WithComponents(fields: seq<Field>, orig: Json): seq<Field> {
    if !TruthyProperty(Obj(fields), "components") || !TruthyProperty(orig, "components") then fields
    else Replace(fields, "components", Handle(Find(fields, "components").value, GetProperty(orig, "components"), true))
  }

  function WithMethods(fields: seq<Field>, methods: seq<Json>, orig: Json): seq<Field> {
    Replace(fields, "methods",
            Arr(if TruthyProperty(orig, "methods") then ProcessMethods(methods, GetProperty(orig, "methods").value)
                else methods))
  }

  function ProcessDocument(doc: Json, orig: Json): Outcome {
    if !ValidDocument(doc) then Done(doc)
    else if Fails(doc, orig) then Throws
    else if Truthy(orig) then
      Done(Obj(WithComponents(WithMethods(doc.fields, CleanMethods(doc), orig), orig)))
    else Done(HandleRefField(Obj(Replace(doc.fields, "methods", Arr(CleanMethods(doc))))))
  }

  /******* The fixed point *******/

  lemma ReplaceBySame(fields: seq<Field>, key: string)
    ensures Find(fields, key).Some? ==> Replace(fields, key, Find(fields, key).value) == fields
  {
    if fields != [] && fields[0].key != key {
      ReplaceBySame(fields[1..], key);
    }
  }

  ghost predicate GoodMethod(m: Json) {
    !BadName(m) && !Discarded(m)
  }

  lemma NameAfterRemove(m: Json)
    ensures m.Obj? ==> GetProperty(RemoveSkippedKeys(m), "name") ==
                       if GetProperty(m, "name").None? then None
                       else Some(RemoveSkippedKeys(GetProperty(m, "name").value))
    ensures !m.Obj? ==> GetProperty(m, "name").None? && GetProperty(RemoveSkippedKeys(m), "name").None?
    ensures GoodMethod(m) ==> GoodMethod(RemoveSkippedKeys(m))
  {
    if m.Obj? {
      RemoveKeepsOtherKeys(m.fields, "name");
    } else {
      NameIsNoIndex();
    }
  }

  lemma NameIsNoIndex()
    ensures Index("name") == None
  {
    assert "name"[3] == 'e';
  }

  lemma GoodMethodsKept(methods: seq<Json>)
    requires forall m :: m in methods ==> GoodMethod(m)
    ensures FilterSkippedMethods(methods) == methods
  {
    if methods != [] {
      assert GoodMethod(methods[0]);
      GoodMethodsKept(methods[1..]);
    }
  }

  lemma FilterKeepsGood(methods: seq<Json>)
    ensures forall m :: m in FilterSkippedMethods(methods) ==> m in methods && !Discarded(m)
  {
    if methods != [] {
      FilterKeepsGood(methods[1..]);
    }
  }

  lemma RemoveKeepsGood(methods: seq<Json>)
    requires forall m :: m in methods ==> GoodMethod(m)
    ensures forall m :: m in RemoveSkippedItems(methods) ==> GoodMethod(m)
  {
    if methods != [] {
      NameAfterRemove(methods[0]);
      RemoveKeepsGood(methods[1..]);
    }
  }

  lemma CleanMethodsGood(doc: Json)
    requires ValidDocument(doc) && forall m :: m in Methods(doc) ==> !BadName(m)
    ensures forall m :: m in CleanMethods(doc) ==> GoodMethod(m)
    ensures RemoveSkippedItems(CleanMethods(doc)) == CleanMethods(doc)
  {
    FilterKeepsGood(Methods(doc));
    RemoveKeepsGood(FilterSkippedMethods(Methods(doc)));
    RemoveItemsTwice(FilterSkippedMethods(Methods(doc)));
  }

  lemma MethodNamedHasName(methods: seq<Json>, name: string)
    ensures MethodNamed(methods, name).Some? ==>
              MethodNamed(methods, name).value.Obj? &&
              GetProperty(MethodNamed(methods, name).value, "name") == Some(Str(name))
  {
    if methods != [] {
      NameAfterRemove(methods[|methods| - 1]);
      MethodNamedHasName(methods[..|methods| - 1], name);
    }
  }

  // A processed method keeps its name, or has become a bare $ref; processing it again changes nothing.
  lemma MethodAgain(m: Json, originals: Json)
    requires Clean(m) && GoodMethod(m) && m != Null
    ensures var once := ProcessMethod(m, originals);
            && GoodMethod(once) && RemoveSkippedKeys(once) != Null
            && ProcessMethod(RemoveSkippedKeys(once), originals) == once
  {
    var once := ProcessMethod(m, originals);
    var orig := OriginalMethod(originals, m);
    if orig.Some? {
      NameAfterRemove(m);
      var name := GetProperty(m, "name").value.s;
      MethodNamedHasName(originals.items, name);
      HandleMethodTwice(m, orig);
      NameAfterRemove(once);
      if HasRef(orig.value) {
        assert once == orig.value;
      } else if HasRef(m) {
        CleanFind(m.fields, REF);
        CleanSingle(REF, Find(m.fields, REF).value);
        assert once == Obj([Field(REF, Find(m.fields, REF).value)]);
        assert [Field(REF, Find(m.fields, REF).value)][1..] == [];
        assert Find([Field(REF, Find(m.fields, REF).value)], "name") == None;
      } else {
        HandleFieldsFind(m.fields, orig.value, false, "name");
      }
    }
  }

  lemma MethodsAgain(methods: seq<Json>, originals: Json)
    requires RemoveSkippedItems(methods) == methods
    requires forall m :: m in methods ==> GoodMethod(m) && m != Null
    ensures var once := ProcessMethods(methods, originals);
            && (forall m :: m in once ==> GoodMethod(m))
            && Null !in RemoveSkippedItems(once)
            && ProcessMethods(RemoveSkippedItems(once), originals) == once
  {
    if methods != [] {
      CleanItem(methods);
      MethodAgain(methods[0], originals);
      MethodsAgain(methods[1..], originals);
      var once := ProcessMethods(methods, originals);
      assert once[1..] == ProcessMethods(methods[1..], originals);
      assert RemoveSkippedItems(once)[1..] == RemoveSkippedItems(once[1..]);
    }
  }

  // The methods of a processed document, cleaned and processed again.
  lemma MethodsSettle(methods: seq<Json>, orig: Json)
    requires RemoveSkippedItems(methods) == methods
    requires forall m :: m in methods ==> GoodMethod(m)
    requires TruthyProperty(orig, "methods") ==> Null !in methods
    ensures var once := if TruthyProperty(orig, "methods") then
                          ProcessMethods(methods, GetProperty(orig, "methods").value)
                        else methods;
            var cleaned := RemoveSkippedItems(FilterSkippedMethods(once));
            && (forall m :: m in once ==> !BadName(m))
            && (TruthyProperty(orig, "methods") ==> Null !in cleaned)
            && once == if TruthyProperty(orig, "methods") then
                         ProcessMethods(cleaned, GetProperty(orig, "methods").value)
                       else cleaned
  {
    if TruthyProperty(orig, "methods") {
      MethodsAgain(methods, GetProperty(orig, "methods").value);
      GoodMethodsKept(ProcessMethods(methods, GetProperty(orig, "methods").value));
    } else {
      GoodMethodsKept(methods);
    }
  }

  lemma ComponentsSettle(fields: seq<Field>, orig: Json)
    ensures WithComponents(WithComponents(fields, orig), orig) == WithComponents(fields, orig)
    ensures Find(WithComponents(fields, orig), "methods") == Find(fields, "methods")
  {
    if TruthyProperty(Obj(fields), "components") && TruthyProperty(orig, "components") {
      var c, oc := Find(fields, "components").value, GetProperty(orig, "components");
      var once := Replace(fields, "components", Handle(c, oc, true));
      HandleComponentTwice(c, oc);
      ReplaceFinds(fields, "components", Handle(c, oc, true), "components");
      ReplaceFinds(fields, "components", Handle(c, oc, true), "methods");
      ReplaceBySame(once, "components");
    }
  }

  lemma SettledWithOriginal(doc: Json, orig: Json)
    requires ValidDocument(doc) && !Fails(doc, orig) && Truthy(orig)
    ensures ProcessDocument(ProcessDocument(doc, orig).doc, orig) == ProcessDocument(doc, orig)
  {
    var methods := CleanMethods(doc);
    CleanMethodsGood(doc);
    MethodsSettle(methods, orig);
    var once := if TruthyProperty(orig, "methods") then ProcessMethods(methods, GetProperty(orig, "methods").value)
                else methods;
    var fields := WithMethods(doc.fields, methods, orig);
    ReplaceFinds(doc.fields, "methods", Arr(once), "methods");
    ComponentsSettle(fields, orig);
    var after := WithComponents(fields, orig);
    assert Methods(Obj(after)) == once;
    ReplaceBySame(after, "methods");
    assert WithMethods(after, CleanMethods(Obj(after)), orig) == after;
  }

  lemma HandleRefKeepsGoodOne(m: Json)
    requires GoodMethod(m)
    ensures GoodMethod(HandleRefField(m))
  {
    if m.Obj? {
      HandleRefFieldsFind(m.fields, "name");
      if Find(m.fields, REF).Some? {
        var only := [Field(REF, Find(m.fields, REF).value)];
        assert only[1..] == [];
        assert Find(only, "name") == None;
      }
    } else {
      NameAfterRemove(m);
      NameAfterRemove(HandleRefField(m));
    }
  }

  lemma HandleRefKeepsGood(methods: seq<Json>)
    requires forall m :: m in methods ==> GoodMethod(m)
    ensures forall m :: m in HandleRefItems(methods) ==> GoodMethod(m)
  {
    if methods != [] {
      assert GoodMethod(methods[0]);
      HandleRefKeepsGoodOne(methods[0]);
      HandleRefKeepsGood(methods[1..]);
      assert HandleRefItems(methods) == [HandleRefField(methods[0])] + HandleRefItems(methods[1..]);
    }
  }

  lemma SettledWithoutOriginal(doc: Json, orig: Json)
    requires ValidDocument(doc) && !Fails(doc, orig) && !Truthy(orig)
    ensures ProcessDocument(ProcessDocument(doc, orig).doc, orig) == ProcessDocument(doc, orig)
  {
    var methods := CleanMethods(doc);
    CleanMethodsGood(doc);
    var fields := Replace(doc.fields, "methods", Arr(methods));
    ReplaceFinds(doc.fields, "methods", Arr(methods), "methods");
    HandleRefTwice(Obj(fields));
    if Find(fields, REF).Some? {
      var only := [Field(REF, Find(fields, REF).value)];
      assert only[1..] == [];
      assert Find(only, "methods") == None;
    } else {
      HandleRefFieldsFind(fields, "methods");
      HandleRefFieldsFind(fields, REF);
      HandleRefKeepsGood(methods);
      HandleRefItemsKeepClean(methods);
      GoodMethodsKept(HandleRefItems(methods));
      ReplaceBySame(HandleRefFields(fields), "methods");
    }
  }

  // Every document, every original: a processed document is left as it is by processing it again.
  lemma ProcessDocumentFixedPoint(doc: Json, orig: Json)
    ensures var once := ProcessDocument(doc, orig);
            once.Done? ==> ProcessDocument(once.doc, orig) == once
  {
    if ValidDocument(doc) && !Fails(doc, orig) {
      if Truthy(orig) {
        SettledWithOriginal(doc, orig);
      } else {
        SettledWithoutOriginal(doc, orig);
      }
    }
  }

  /******* What processing does, position by position *******/

  // The original value that `handle` sets against the value at `key`.
  function OriginalAt(j: Json, orig: Json, key: string): Option<Json> {
    if !j.Arr? then GetProperty(orig, key)
    else if Index(key).Some? then ItemAt(orig, Index(key).value)
    else None
  }

  // The original value set against the position, as long as handling goes that deep: it stops at
  // a $ref on either side and where the original has no object.
  function Against(j: Json, orig: Option<Json>, path: seq<string>): Option<Json>
    requires Reached(j, orig, path)
    decreases path
  {
    if path == [] then orig
    else Against(GetProperty(j, path[0]).value, OriginalAt(j, orig.value, path[0]), path[1..])
  }

  predicate Reached(j: Json, orig: Option<Json>, path: seq<string>)
    decreases path
  {
    path == [] ||
    (&& IsObject(Some(j)) && IsObject(orig) && !HasRef(j) && (j.Obj? ==> !HasRef(orig.value))
     && (j.Arr? ==> path[0] != "length") && GetProperty(j, path[0]).Some?
     && Reached(GetProperty(j, path[0]).value, OriginalAt(j, orig.value, path[0]), path[1..]))
  }

  lemma {:induction false} HandleItemsAt(items: seq<Json>, at: nat, orig: Json, component: bool, i: nat)
    requires i < |items|
    ensures HandleItems(items, at, orig, component)[i] == Handle(items[i], ItemAt(orig, at + i), component)
  {
    if i > 0 {
      HandleItemsAt(items[1..], at + 1, orig, component, i - 1);
    }
  }

  // At every position handling reaches, the result holds what handling that position gives: the
  // original's object where that has a $ref, a bare $ref where only the document has one, and so on.
  lemma {:induction false} HandleAtPosition(j: Json, orig: Option<Json>, component: bool, path: seq<string>)
    requires Reached(j, orig, path)
    ensures At(Some(j), path).Some?
    ensures At(Some(Handle(j, orig, component)), path)
            == Some(Handle(At(Some(j), path).value, Against(j, orig, path), component))
    decreases path
  {
    if path != [] {
      var next := GetProperty(j, path[0]).value;
      HandleAtPosition(next, OriginalAt(j, orig.value, path[0]), component, path[1..]);
      if j.Arr? {
        HandleItemsAt(j.items, 0, orig.value, component, Index(path[0]).value);
      } else {
        HandleFieldsFind(j.fields, orig.value, component, path[0]);
      }
    }
  }

  // Where the document has an object and the original a $ref object, the original's object stands.
  lemma OriginalRefStands(j: Json, orig: Option<Json>, component: bool, path: seq<string>)
    requires Reached(j, orig, path) && At(Some(j), path).Some? && At(Some(j), path).value.Obj?
    requires IsObject(Against(j, orig, path)) && HasRef(Against(j, orig, path).value)
    ensures At(Some(Handle(j, orig, component)), path) == Against(j, orig, path)
  {
    HandleAtPosition(j, orig, component, path);
  }

  // A path to a position inside j none of whose object keys is skipped.
  predicate Unskipped(j: Json, path: seq<string>)
    decreases path
  {
    path == [] ||
    (&& (j.Obj? ==> path[0] !in SKIPPED_KEYS)
     && (GetProperty(j, path[0]).Some? ==> Unskipped(GetProperty(j, path[0]).value, path[1..])))
  }

  lemma {:induction false} RemoveItemsAt(items: seq<Json>, i: nat)
    requires i < |items|
    ensures RemoveSkippedItems(items)[i] == RemoveSkippedKeys(items[i])
  {
    if i > 0 {
      RemoveItemsAt(items[1..], i - 1);
    }
  }

  lemma SkippedKeyGone(fields: seq<Field>, key: string)
    requires key in SKIPPED_KEYS
    ensures Find(RemoveSkippedFields(fields), key).None?
  {
    if fields != [] {
      SkippedKeyGone(fields[1..], key);
      if fields[0].key !in SKIPPED_KEYS {
        assert RemoveSkippedFields(fields)[1..] == RemoveSkippedFields(fields[1..]);
      }
    }
  }

  // Removing skipped keys keeps exactly the positions that no skipped key leads to.
  lemma {:induction false} RemoveAtPosition(j: Json, path: seq<string>)
    ensures At(Some(RemoveSkippedKeys(j)), path) ==
            if Unskipped(j, path) && At(Some(j), path).Some?
            then Some(RemoveSkippedKeys(At(Some(j), path).value)) else None
    decreases path
  {
    if path != [] {
      match j {
        case Arr(items) =>
          if Index(path[0]).Some? && Index(path[0]).value < |items| {
            RemoveItemsAt(items, Index(path[0]).value);
          }
        case Obj(fields) =>
          if path[0] in SKIPPED_KEYS {
            SkippedKeyGone(fields, path[0]);
          } else {
            RemoveKeepsOtherKeys(fields, path[0]);
          }
        case _ =>
      }
      if GetProperty(j, path[0]).Some? {
        RemoveAtPosition(GetProperty(j, path[0]).value, path[1..]);
      } else {
        NothingBelow(path[1..]);
      }
      NothingBelow(path[1..]);
    }
  }
}
