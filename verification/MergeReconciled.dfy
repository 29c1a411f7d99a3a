/** What stands at each position of a processed document, by what the two documents hold there. */
module MergeReconciled {
  import opened Wrappers
  import opened JsonValues
  import opened MergeDocument

  /******* Positions *******/

  predicate IsList(j: Option<Json>) {
    j.Some? && j.value.Arr?
  }

  // What the original holds against a position: what is there, but nothing below a list if the original has no list.
  ghost function Facing(j: Json, orig: Option<Json>, path: seq<string>): Option<Json> {
    if forall n :: 0 <= n < |path| && IsList(At(Some(j), path[..n])) ==> IsList(At(orig, path[..n]))
    then At(orig, path) else None
  }

  // An object that a $ref on either side settles as a whole.
  predicate RefSettles(v: Option<Json>, orig: Option<Json>) {
    v.Some? && v.value.Obj? && (HasRef(v.value) || (IsObject(orig) && HasRef(orig.value)))
  }

  // No $ref settles an object above the position.
  ghost predicate Open(j: Json, orig: Option<Json>, path: seq<string>) {
    forall n :: 0 <= n < |path| ==> !RefSettles(At(Some(j), path[..n]), Facing(j, orig, path[..n]))
  }

  function Keys(fields: seq<Field>): seq<string> {
    if fields == [] then [] else [fields[0].key] + Keys(fields[1..])
  }

  // A list of the same length, an object with the same keys in the same order, or the same value.
  predicate SameShape(r: Option<Json>, v: Json) {
    r.Some? &&
      match v
      case Arr(items) => r.value.Arr? && |r.value.items| == |items|
      case Obj(fields) => r.value.Obj? && Keys(r.value.fields) == Keys(fields)
      case _ => r.value == v
  }

  // What comes of a value: the original's object if that has a $ref, else its own $ref, in methods without anything
  // beside it, else itself.
  predicate Stands(r: Option<Json>, v: Json, orig: Option<Json>, component: bool) {
    if v.Obj? && IsObject(orig) && HasRef(orig.value) then r == orig
    else if v.Obj? && HasRef(v) then
      r == Some(if component then v else Obj([Field(REF, GetProperty(v, REF).value)]))
    else SameShape(r, v)
  }

  /******* Handling, position by position *******/

  lemma {:induction false} HandleKeys(fields: seq<Field>, orig: Json, component: bool)
    ensures Keys(HandleFields(fields, orig, component)) == Keys(fields)
  {
    if fields != [] {
      HandleKeys(fields[1..], orig, component);
      assert HandleFields(fields, orig, component)[1..] == HandleFields(fields[1..], orig, component);
    }
  }

  lemma {:induction false} HandleRefKeys(fields: seq<Field>)
    ensures Keys(HandleRefFields(fields)) == Keys(fields)
  {
    if fields != [] {
      HandleRefKeys(fields[1..]);
      assert HandleRefFields(fields)[1..] == HandleRefFields(fields[1..]);
    }
  }

  lemma {:induction false} HandleRefItemAt(items: seq<Json>, i: nat)
    requires i < |items|
    ensures HandleRefItems(items)[i] == HandleRefField(items[i])
  {
    if i > 0 {
      HandleRefItemAt(items[1..], i - 1);
    }
  }

  lemma HandleHere(j: Json, orig: Option<Json>, component: bool)
    ensures Stands(Some(Handle(j, orig, component)), j, orig, component)
  {
    if j.Obj? {
      HandleRefKeys(j.fields);
      if IsObject(orig) {
        HandleKeys(j.fields, orig.value, component);
      }
    }
  }

  // The original one step further down.
  function Below(j: Json, orig: Option<Json>, key: string): Option<Json> {
    if j.Arr? && !IsList(orig) then None else Get(orig, key)
  }

  lemma AtStep(j: Option<Json>, path: seq<string>, n: nat)
    requires path != [] && n < |path|
    ensures At(j, path[..n + 1]) == At(Get(j, path[0]), path[1..][..n])
  {
    assert path[..n + 1][1..] == path[1..][..n];
  }

  lemma FacingStep(j: Json, orig: Option<Json>, path: seq<string>)
    requires path != [] && GetProperty(j, path[0]).Some?
    ensures Facing(j, orig, path) == Facing(GetProperty(j, path[0]).value, Below(j, orig, path[0]), path[1..])
  {
    var child, rest := GetProperty(j, path[0]).value, path[1..];
    assert path[..0] == [];
    forall n | 0 <= n < |rest|
      ensures At(Some(j), path[..n + 1]) == At(Some(child), rest[..n])
      ensures At(orig, path[..n + 1]) == At(Get(orig, path[0]), rest[..n])
    {
      AtStep(Some(j), path, n);
      AtStep(orig, path, n);
    }
    if j.Arr? && !IsList(orig) {
      assert IsList(At(Some(j), path[..0])) && !IsList(At(orig, path[..0]));
      NothingBelow(rest);
    } else {
      forall n | 0 < n < |path|
        ensures At(Some(j), path[..n]) == At(Some(child), rest[..n - 1])
        ensures At(orig, path[..n]) == At(Get(orig, path[0]), rest[..n - 1])
      {
        AtStep(Some(j), path, n - 1);
        AtStep(orig, path, n - 1);
      }
    }
  }

  lemma OpenStep(j: Json, orig: Option<Json>, path: seq<string>)
    requires path != [] && GetProperty(j, path[0]).Some? && Open(j, orig, path)
    ensures Open(GetProperty(j, path[0]).value, Below(j, orig, path[0]), path[1..])
  {
    var child, rest := GetProperty(j, path[0]).value, path[1..];
    forall n | 0 <= n < |rest|
      ensures !RefSettles(At(Some(child), rest[..n]), Facing(child, Below(j, orig, path[0]), rest[..n]))
    {
      AtStep(Some(j), path, n);
      FacingStep(j, orig, path[..n + 1]);
      assert path[..n + 1][1..] == rest[..n] && path[..n + 1][0] == path[0];
      assert !RefSettles(At(Some(j), path[..n + 1]), Facing(j, orig, path[..n + 1]));
    }
  }

  // Where nothing settles an object as a whole, its parts are handled one by one.
  lemma HandlePart(j: Json, orig: Option<Json>, component: bool, key: string)
    requires GetProperty(j, key).Some? && !RefSettles(Some(j), orig) && !(j.Arr? && key == "length")
    ensures GetProperty(Handle(j, orig, component), key) ==
            Some(Handle(GetProperty(j, key).value, Below(j, orig, key), component))
  {
    if j.Arr? {
      var i := Index(key).value;
      HandleRefItemAt(j.items, i);
      if IsObject(orig) {
        HandleItemsAt(j.items, 0, orig.value, component, i);
      }
    } else {
      HandleRefFieldsFind(j.fields, key);
      if IsObject(orig) {
        HandleFieldsFind(j.fields, orig.value, component, key);
      }
    }
  }

  lemma {:induction false} HandleStands(j: Json, orig: Option<Json>, component: bool, path: seq<string>)
    requires At(Some(j), path).Some? && Open(j, orig, path)
    ensures Stands(At(Some(Handle(j, orig, component)), path), At(Some(j), path).value,
                   Facing(j, orig, path), component)
    decreases path
  {
    if path == [] {
      HandleHere(j, orig, component);
    } else {
      NothingBelow(path[1..]);
      assert path[..0] == [] && !RefSettles(At(Some(j), path[..0]), Facing(j, orig, path[..0]));
      if j.Arr? && path[0] == "length" {
        LengthStands(j, orig, component, path);
      } else {
        var child := GetProperty(j, path[0]).value;
        FacingStep(j, orig, path);
        OpenStep(j, orig, path);
        HandlePart(j, orig, component, path[0]);
        HandleStands(child, Below(j, orig, path[0]), component, path[1..]);
      }
    }
  }

  lemma NothingInside(j: Json, path: seq<string>)
    requires !IsObject(Some(j))
    ensures path != [] ==> At(Some(j), path) == None
  {
    if path != [] {
      NothingBelow(path[1..]);
    }
  }

  lemma LengthStands(j: Json, orig: Option<Json>, component: bool, path: seq<string>)
    requires j.Arr? && path != [] && path[0] == "length" && At(Some(j), path).Some?
    ensures Stands(At(Some(Handle(j, orig, component)), path), At(Some(j), path).value,
                   Facing(j, orig, path), component)
  {
    NothingInside(Num(IndexText(|j.items|)), path[1..]);
    assert path == ["length"];
    HandleHere(j, orig, component);
  }

  /******* Cleaned methods *******/

  function KeptKeys(fields: seq<Field>): seq<string> {
    if fields == [] then []
    else if fields[0].key in {"examples", "baseFeePerBlobGas", "blobGasUsedRatio"} then KeptKeys(fields[1..])
    else [fields[0].key] + KeptKeys(fields[1..])
  }

  lemma {:induction false} RemoveKeys(fields: seq<Field>)
    ensures Keys(RemoveSkippedFields(fields)) == KeptKeys(fields)
  {
    if fields != [] {
      RemoveKeys(fields[1..]);
      if fields[0].key !in SKIPPED_KEYS {
        assert RemoveSkippedFields(fields)[1..] == RemoveSkippedFields(fields[1..]);
      }
    }
  }

  lemma {:induction false} UnskippedPrefix(j: Json, path: seq<string>, n: nat)
    requires n <= |path| && Unskipped(j, path)
    ensures Unskipped(j, path[..n])
    decreases path
  {
    if n > 0 && GetProperty(j, path[0]).Some? {
      UnskippedPrefix(GetProperty(j, path[0]).value, path[1..], n - 1);
      assert path[..n][1..] == path[1..][..n - 1];
    }
  }

  // Cleaning changes nothing that decides what is handled.
  lemma CleanedAt(m: Json, path: seq<string>, n: nat)
    requires n <= |path| && Unskipped(m, path)
    ensures var v, w := At(Some(m), path[..n]), At(Some(RemoveSkippedKeys(m)), path[..n]);
      && w == (if v.Some? then Some(RemoveSkippedKeys(v.value)) else None)
      && (IsList(w) <==> IsList(v))
      && (w.Some? && w.value.Obj? <==> v.Some? && v.value.Obj?)
      && (w.Some? && w.value.Obj? ==>
            GetProperty(w.value, REF) ==
            if HasRef(v.value) then Some(RemoveSkippedKeys(GetProperty(v.value, REF).value)) else None)
  {
    UnskippedPrefix(m, path, n);
    RemoveAtPosition(m, path[..n]);
    var v := At(Some(m), path[..n]);
    if v.Some? && v.value.Obj? {
      RemoveKeepsOtherKeys(v.value.fields, REF);
    }
  }

  lemma CleanedFacing(m: Json, orig: Option<Json>, path: seq<string>, n: nat)
    requires n <= |path| && Unskipped(m, path)
    ensures Facing(RemoveSkippedKeys(m), orig, path[..n]) == Facing(m, orig, path[..n])
  {
    forall k | 0 <= k < n
      ensures IsList(At(Some(RemoveSkippedKeys(m)), path[..n][..k])) <==> IsList(At(Some(m), path[..n][..k]))
    {
      assert path[..n][..k] == path[..k];
      CleanedAt(m, path, k);
    }
  }

  lemma CleanedOpen(m: Json, orig: Option<Json>, path: seq<string>)
    requires Unskipped(m, path) && Open(m, orig, path)
    ensures Open(RemoveSkippedKeys(m), orig, path)
  {
    forall n | 0 <= n < |path|
      ensures !RefSettles(At(Some(RemoveSkippedKeys(m)), path[..n]), Facing(RemoveSkippedKeys(m), orig, path[..n]))
    {
      CleanedAt(m, path, n);
      CleanedFacing(m, orig, path, n);
      assert !RefSettles(At(Some(m), path[..n]), Facing(m, orig, path[..n]));
    }
  }

  // What comes of a value of a method: the original's object if that has a $ref, else its own $ref alone, else itself
  // without the skipped keys.
  predicate MethodStands(r: Option<Json>, v: Json, orig: Option<Json>) {
    if v.Obj? && IsObject(orig) && HasRef(orig.value) then r == orig
    else if v.Obj? && HasRef(v) then r == Some(Obj([Field(REF, RemoveSkippedKeys(GetProperty(v, REF).value))]))
    else
      r.Some? &&
        match v
        case Arr(items) => r.value.Arr? && |r.value.items| == |items|
        case Obj(fields) => r.value.Obj? && Keys(r.value.fields) == KeptKeys(fields)
        case _ => r.value == v
  }

  // A method, cleaned and then handled.
  lemma CleanedStands(m: Json, orig: Option<Json>, path: seq<string>)
    requires At(Some(m), path).Some? && Unskipped(m, path) && Open(m, orig, path)
    ensures MethodStands(At(Some(Handle(RemoveSkippedKeys(m), orig, false)), path), At(Some(m), path).value,
                         Facing(m, orig, path))
  {
    var j, v := RemoveSkippedKeys(m), At(Some(m), path).value;
    assert path[..|path|] == path;
    CleanedAt(m, path, |path|);
    CleanedFacing(m, orig, path, |path|);
    CleanedOpen(m, orig, path);
    HandleStands(j, orig, false, path);
    if v.Obj? {
      RemoveKeys(v.fields);
    }
  }

  /******* Which methods are kept *******/

  // A method of the engine API.
  predicate EngineMethod(m: Json) {
    var name := At(Some(m), ["name"]);
    name.Some? && name.value.Str? && "engine_" <= name.value.s
  }

  // How many of the first k methods are kept.
  function Kept(methods: seq<Json>, k: nat): nat
    requires k <= |methods|
  {
    if k == 0 then 0 else Kept(methods, k - 1) + if EngineMethod(methods[k - 1]) then 0 else 1
  }

  lemma EngineDiscarded(m: Json)
    ensures EngineMethod(m) <==> Discarded(m)
  {
    assert ["name"][1..] == [];
  }

  lemma {:induction false} KeptFirst(methods: seq<Json>, k: nat)
    requires 0 < k <= |methods|
    ensures Kept(methods, k) == (if EngineMethod(methods[0]) then 0 else 1) + Kept(methods[1..], k - 1)
  {
    if k > 1 {
      KeptFirst(methods, k - 1);
    }
  }

  lemma {:induction false} FilteredAt(methods: seq<Json>, k: nat)
    requires k <= |methods|
    ensures var kept := FilterSkippedMethods(methods);
      && |kept| == Kept(methods, |methods|) && Kept(methods, k) <= |kept|
      && (k < |methods| && !EngineMethod(methods[k]) ==>
            Kept(methods, k) < |kept| && kept[Kept(methods, k)] == methods[k])
  {
    if methods != [] {
      EngineDiscarded(methods[0]);
      KeptFirst(methods, |methods|);
      FilteredAt(methods[1..], if k > 0 then k - 1 else 0);
      if k > 0 {
        KeptFirst(methods, k);
      }
    }
  }

  // Method k, if it is kept, becomes number Kept(k) of the cleaned methods.
  lemma CleanMethodAt(methods: seq<Json>, k: nat)
    requires k < |methods| && !EngineMethod(methods[k])
    ensures var cleaned := RemoveSkippedItems(FilterSkippedMethods(methods));
      Kept(methods, k) < |cleaned| && cleaned[Kept(methods, k)] == RemoveSkippedKeys(methods[k])
  {
    FilteredAt(methods, k);
    RemoveItemsAt(FilterSkippedMethods(methods), Kept(methods, k));
  }

  /******* The processed document *******/

  lemma ListOfMethods(doc: Json)
    ensures At(Some(doc), ["methods"]) == GetProperty(doc, "methods")
    ensures ValidDocument(doc) <==> IsList(At(Some(doc), ["methods"]))
  {
    assert ["methods"][1..] == [];
    assert Index("methods") == None by { assert "methods"[6] == 's'; }
  }

  lemma AtField(j: Json, key: string, path: seq<string>)
    ensures At(Some(j), [key] + path) == At(GetProperty(j, key), path)
  {
    assert ([key] + path)[1..] == path;
  }

  lemma AtMethod(j: Json, i: nat, path: seq<string>)
    requires IsList(GetProperty(j, "methods")) && i < |GetProperty(j, "methods").value.items|
    ensures At(Some(j), ["methods", IndexText(i)] + path) == At(Some(GetProperty(j, "methods").value.items[i]), path)
  {
    var whole := ["methods", IndexText(i)] + path;
    var items := GetProperty(j, "methods").value.items;
    IndexRoundTrip(i);
    assert whole[1..] == [IndexText(i)] + path && whole[1..][1..] == path;
    assert IndexText(i) != "length" by { assert Index("length") == None by { assert "length"[5] == 'h'; } }
  }

  // The fields of a processed document, if there is an original.
  lemma ProcessedFields(doc: Json, orig: Json)
    requires IsList(At(Some(doc), ["methods"])) && ProcessDocument(doc, orig).Done? && Truthy(orig)
    ensures var out, cleaned := ProcessDocument(doc, orig).doc, CleanMethods(doc);
      && ValidDocument(doc)
      && GetProperty(out, "methods") ==
         Some(Arr(if TruthyProperty(orig, "methods") then ProcessMethods(cleaned, GetProperty(orig, "methods").value)
                  else cleaned))
      && GetProperty(out, "components") ==
         (if TruthyProperty(doc, "components") && TruthyProperty(orig, "components") then
            Some(Handle(GetProperty(doc, "components").value, GetProperty(orig, "components"), true))
          else GetProperty(doc, "components"))
      && forall key :: key != "methods" && key != "components" ==> GetProperty(out, key) == GetProperty(doc, key)
  {
    ListOfMethods(doc);
    var cleaned := CleanMethods(doc);
    var methods := Arr(if TruthyProperty(orig, "methods") then
                         ProcessMethods(cleaned, GetProperty(orig, "methods").value)
                       else cleaned);
    var fields := WithMethods(doc.fields, cleaned, orig);
    forall key ensures Find(fields, key) == if key == "methods" then Some(methods) else Find(doc.fields, key) {
      ReplaceFinds(doc.fields, "methods", methods, key);
    }
    if TruthyProperty(doc, "components") && TruthyProperty(orig, "components") {
      var components := Handle(GetProperty(doc, "components").value, GetProperty(orig, "components"), true);
      forall key ensures Find(WithComponents(fields, orig), key) ==
                         if key == "components" then Some(components) else Find(fields, key) {
        ReplaceFinds(fields, "components", components, key);
      }
    }
  }

  lemma {:induction false} ProcessedMethodAt(methods: seq<Json>, originals: Json, i: nat)
    requires i < |methods|
    ensures ProcessMethods(methods, originals)[i] == ProcessMethod(methods[i], originals)
  {
    if i > 0 {
      ProcessedMethodAt(methods[1..], originals, i - 1);
    }
  }

  // Original i is the last of its name.
  ghost predicate LastNamed(originals: seq<Json>, name: string, i: nat) {
    && i < |originals| && At(Some(originals[i]), ["name"]) == Some(Str(name))
    && forall j :: i < j < |originals| ==> At(Some(originals[j]), ["name"]) != Some(Str(name))
  }

  lemma {:induction false} LastNamedFound(originals: seq<Json>, name: string, i: nat)
    requires LastNamed(originals, name, i)
    ensures MethodNamed(originals, name) == Some(originals[i])
  {
    var most, last := originals[..|originals| - 1], originals[|originals| - 1];
    AtField(last, "name", []);
    assert ["name"] + [] == ["name"];
    if i < |most| {
      assert LastNamed(most, name, i);
      LastNamedFound(most, name, i);
    }
  }

  lemma {:induction false} NoneNamed(originals: seq<Json>, name: string)
    requires forall j :: 0 <= j < |originals| ==> At(Some(originals[j]), ["name"]) != Some(Str(name))
    ensures MethodNamed(originals, name) == None
  {
    if originals != [] {
      AtField(originals[|originals| - 1], "name", []);
      assert ["name"] + [] == ["name"];
      NoneNamed(originals[..|originals| - 1], name);
    }
  }

  lemma NameCleaned(m: Json, name: string)
    ensures GetProperty(RemoveSkippedKeys(m), "name") == Some(Str(name)) <==> At(Some(m), ["name"]) == Some(Str(name))
  {
    AtField(m, "name", []);
    assert ["name"] + [] == ["name"];
    NameAfterRemove(m);
  }

  // A kept method for which the original document has one of that name: at every position that no $ref above it
  // settles, the original's object if that has a $ref, else the method's own $ref alone, else the method's value.
  lemma MethodReconciled(doc: Json, orig: Json, methods: seq<Json>, k: nat, originals: seq<Json>, i: nat, name: string,
      path: seq<string>)
    requires ProcessDocument(doc, orig).Done?
    requires At(Some(doc), ["methods"]) == Some(Arr(methods)) && k < |methods| && !EngineMethod(methods[k])
    requires At(Some(orig), ["methods"]) == Some(Arr(originals)) && LastNamed(originals, name, i)
    requires At(Some(methods[k]), ["name"]) == Some(Str(name)) && name != ""
    requires At(Some(methods[k]), path).Some? && Unskipped(methods[k], path)
    requires Open(methods[k], Some(originals[i]), path)
    ensures MethodStands(At(Some(ProcessDocument(doc, orig).doc), ["methods", IndexText(Kept(methods, k))] + path),
                         At(Some(methods[k]), path).value, Facing(methods[k], Some(originals[i]), path))
  {
    ListOfMethods(doc);
    ListOfMethods(orig);
    ProcessedFields(doc, orig);
    CleanMethodAt(methods, k);
    ProcessedMethodAt(CleanMethods(doc), Arr(originals), Kept(methods, k));
    AtMethod(ProcessDocument(doc, orig).doc, Kept(methods, k), path);
    NameCleaned(methods[k], name);
    LastNamedFound(originals, name, i);
    CleanedStands(methods[k], Some(originals[i]), path);
  }

  // Both have the same name, a text that is not empty.
  predicate SameName(m: Json, o: Json) {
    var name := At(Some(m), ["name"]);
    name.Some? && name.value.Str? && name.value.s != "" && At(Some(o), ["name"]) == name
  }

  lemma NoneOfItsName(m: Json, originals: Json)
    requires originals.Arr? ==> forall o :: o in originals.items ==> !SameName(m, o)
    ensures OriginalMethod(originals, RemoveSkippedKeys(m)) == None
  {
    var name := GetProperty(RemoveSkippedKeys(m), "name");
    if name.Some? && name.value.Str? && name.value.s != "" && originals.Arr? {
      NameCleaned(m, name.value.s);
      forall j | 0 <= j < |originals.items| ensures At(Some(originals.items[j]), ["name"]) != name {
        assert !SameName(m, originals.items[j]);
      }
      NoneNamed(originals.items, name.value.s);
    }
  }

  // A kept method for which the original document has none of its name: the method without the skipped keys.
  lemma MethodUnmatched(doc: Json, orig: Json, methods: seq<Json>, k: nat)
    requires ProcessDocument(doc, orig).Done? && Truthy(orig)
    requires At(Some(doc), ["methods"]) == Some(Arr(methods)) && k < |methods| && !EngineMethod(methods[k])
    requires IsList(At(Some(orig), ["methods"])) ==>
               forall o :: o in At(Some(orig), ["methods"]).value.items ==> !SameName(methods[k], o)
    ensures At(Some(ProcessDocument(doc, orig).doc), ["methods", IndexText(Kept(methods, k))]) ==
            Some(RemoveSkippedKeys(methods[k]))
  {
    ListOfMethods(doc);
    ListOfMethods(orig);
    ProcessedFields(doc, orig);
    CleanMethodAt(methods, k);
    AtMethod(ProcessDocument(doc, orig).doc, Kept(methods, k), []);
    assert ["methods", IndexText(Kept(methods, k))] + [] == ["methods", IndexText(Kept(methods, k))];
    if TruthyProperty(orig, "methods") {
      var originals := GetProperty(orig, "methods").value;
      ProcessedMethodAt(CleanMethods(doc), originals, Kept(methods, k));
      NoneOfItsName(methods[k], originals);
    }
  }

  // With an original, nothing but the methods and the components changes, and the methods become as many as are kept.
  lemma OthersStay(doc: Json, orig: Json, methods: seq<Json>, key: string)
    requires ProcessDocument(doc, orig).Done? && Truthy(orig)
    requires At(Some(doc), ["methods"]) == Some(Arr(methods))
    ensures var out := ProcessDocument(doc, orig).doc;
      && (key != "methods" && key != "components" ==> At(Some(out), [key]) == At(Some(doc), [key]))
      && IsList(At(Some(out), ["methods"]))
      && |At(Some(out), ["methods"]).value.items| == Kept(methods, |methods|)
  {
    ListOfMethods(doc);
    ProcessedFields(doc, orig);
    ListOfMethods(ProcessDocument(doc, orig).doc);
    FilteredAt(methods, 0);
    assert [key][1..] == [];
  }

  // The components, if both documents have some: at every position that no $ref above it settles, the original's object
  // if that has a $ref, else the document's value, with its $ref and all beside it.
  lemma ComponentsReconciled(doc: Json, orig: Json, path: seq<string>)
    requires IsList(At(Some(doc), ["methods"])) && ProcessDocument(doc, orig).Done?
    requires TruthyProperty(doc, "components") && TruthyProperty(orig, "components")
    requires At(GetProperty(doc, "components"), path).Some?
    requires Open(GetProperty(doc, "components").value, GetProperty(orig, "components"), path)
    ensures Stands(At(Some(ProcessDocument(doc, orig).doc), ["components"] + path),
                   At(GetProperty(doc, "components"), path).value,
                   Facing(GetProperty(doc, "components").value, GetProperty(orig, "components"), path), true)
  {
    ProcessedFields(doc, orig);
    AtField(ProcessDocument(doc, orig).doc, "components", path);
    HandleStands(GetProperty(doc, "components").value, GetProperty(orig, "components"), true, path);
  }

  lemma ComponentsStay(doc: Json, orig: Json)
    requires IsList(At(Some(doc), ["methods"])) && ProcessDocument(doc, orig).Done? && Truthy(orig)
    requires !TruthyProperty(doc, "components") || !TruthyProperty(orig, "components")
    ensures GetProperty(ProcessDocument(doc, orig).doc, "components") == GetProperty(doc, "components")
  {
    ProcessedFields(doc, orig);
  }

  // Without an original, at every position of a kept method that no $ref above it settles: its own $ref alone, or its
  // value.
  lemma MethodAlone(doc: Json, orig: Json, methods: seq<Json>, k: nat, path: seq<string>)
    requires ProcessDocument(doc, orig).Done? && !Truthy(orig) && !HasRef(doc)
    requires At(Some(doc), ["methods"]) == Some(Arr(methods)) && k < |methods| && !EngineMethod(methods[k])
    requires At(Some(methods[k]), path).Some? && Unskipped(methods[k], path) && Open(methods[k], None, path)
    ensures MethodStands(At(Some(ProcessDocument(doc, orig).doc), ["methods", IndexText(Kept(methods, k))] + path),
                         At(Some(methods[k]), path).value, None)
  {
    ListOfMethods(doc);
    var fields := Replace(doc.fields, "methods", Arr(CleanMethods(doc)));
    ReplaceFinds(doc.fields, "methods", Arr(CleanMethods(doc)), "methods");
    ReplaceFinds(doc.fields, "methods", Arr(CleanMethods(doc)), REF);
    HandleRefFieldsFind(fields, "methods");
    CleanMethodAt(methods, k);
    HandleRefItemAt(CleanMethods(doc), Kept(methods, k));
    AtMethod(ProcessDocument(doc, orig).doc, Kept(methods, k), path);
    CleanedStands(methods[k], None, path);
    FacingNothing(methods[k], path);
  }

  lemma FacingNothing(j: Json, path: seq<string>)
    ensures Facing(j, None, path) == None
  {
    NothingBelow(path);
  }

  // The rest of such a document.
  lemma FieldAlone(doc: Json, orig: Json, key: string, path: seq<string>)
    requires IsList(At(Some(doc), ["methods"])) && ProcessDocument(doc, orig).Done? && !Truthy(orig) && !HasRef(doc)
    requires key != "methods" && GetProperty(doc, key).Some? && At(GetProperty(doc, key), path).Some?
    requires Open(GetProperty(doc, key).value, None, path)
    ensures Stands(At(Some(ProcessDocument(doc, orig).doc), [key] + path), At(GetProperty(doc, key), path).value,
                   None, false)
  {
    ListOfMethods(doc);
    NothingBelow(path);
    ReplaceFinds(doc.fields, "methods", Arr(CleanMethods(doc)), key);
    ReplaceFinds(doc.fields, "methods", Arr(CleanMethods(doc)), REF);
    HandleRefFieldsFind(Replace(doc.fields, "methods", Arr(CleanMethods(doc))), key);
    AtField(ProcessDocument(doc, orig).doc, key, path);
    HandleStands(GetProperty(doc, key).value, None, false, path);
    FacingNothing(GetProperty(doc, key).value, path);
  }

  // A $ref of the document itself stands alone then.
  lemma DocumentRefAlone(doc: Json, orig: Json)
    requires IsList(At(Some(doc), ["methods"])) && ProcessDocument(doc, orig).Done? && !Truthy(orig) && HasRef(doc)
    ensures ProcessDocument(doc, orig).doc == Obj([Field(REF, GetProperty(doc, REF).value)])
  {
    ListOfMethods(doc);
    ReplaceFinds(doc.fields, "methods", Arr(CleanMethods(doc)), REF);
  }

  // Processing fails exactly if some method has a truthy name that is no text, or if both documents have methods and
  // one of the document's is null; a document without a list of methods is returned as it is.
  lemma ProcessThrowsIff(doc: Json, orig: Json)
    ensures !IsList(At(Some(doc), ["methods"])) ==> ProcessDocument(doc, orig) == Done(doc)
    ensures ProcessDocument(doc, orig).Throws? <==>
            IsList(At(Some(doc), ["methods"])) && var methods := At(Some(doc), ["methods"]).value.items;
            || (exists k :: 0 <= k < |methods| && At(Some(methods[k]), ["name"]).Some?
                  && Truthy(At(Some(methods[k]), ["name"]).value) && !At(Some(methods[k]), ["name"]).value.Str?)
            || (GetProperty(orig, "methods").Some? && Truthy(GetProperty(orig, "methods").value) && Null in methods)
  {
    ListOfMethods(doc);
    if ValidDocument(doc) {
      var methods := Methods(doc);
      forall k | 0 <= k < |methods|
        ensures BadName(methods[k]) <==>
                At(Some(methods[k]), ["name"]).Some?
                && Truthy(At(Some(methods[k]), ["name"]).value) && !At(Some(methods[k]), ["name"]).value.Str?
      {
        AtField(methods[k], "name", []);
        assert ["name"] + [] == ["name"];
      }
      NullKept(methods);
    }
  }

  lemma {:induction false} NullKept(methods: seq<Json>)
    ensures Null in RemoveSkippedItems(FilterSkippedMethods(methods)) <==> Null in methods
  {
    if methods != [] {
      NullKept(methods[1..]);
      assert methods == [methods[0]] + methods[1..];
      if !Discarded(methods[0]) {
        var kept := FilterSkippedMethods(methods);
        assert kept[1..] == FilterSkippedMethods(methods[1..]);
        assert RemoveSkippedItems(kept) == [RemoveSkippedKeys(methods[0])] + RemoveSkippedItems(kept[1..]);
      }
    }
  }
}
