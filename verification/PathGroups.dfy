/** Grouping of differing paths by common prefix, as the report of differences prints them. */
module PathGroups {
  import opened Wrappers
  import opened JsonValues
  import opened RefPaths

  // The prefix counters are a plain object, which inherits these names: reading one of them gives a truthy
  // value that is not a number, and adding one to it a text that no number is at most equal to.
  const INHERITED: set<string> := {
    "constructor", "hasOwnProperty", "isPrototypeOf", "propertyIsEnumerable", "toLocaleString", "toString",
    "valueOf", "__proto__", "__defineGetter__", "__defineSetter__", "__lookupGetter__", "__lookupSetter__"
  }

  // Names below this bound are enumerated first, in numeric order.
  const MAX_ARRAY_LENGTH := 4294967295

  datatype Group = Group(prefix: string, count: nat)

  datatype Report = Report(groups: seq<Group>, rest: seq<string>)

  /******* Counting prefixes *******/

  function PrefixesFrom(current: string, parts: seq<string>): seq<string>
    decreases |parts|
  {
    if |parts| <= 1 then []
    else
      var prefix := BuildPath(current, parts[0]);
      [prefix] + PrefixesFrom(prefix, parts[1..])
  }

  function Prefixes(path: string): seq<string> {
    PrefixesFrom("", Split(path))
  }

  // Every prefix counted, in the order in which it is counted.
  function Visited(paths: seq<string>): seq<string> {
    if paths == [] then [] else Visited(paths[..|paths| - 1]) + Prefixes(paths[|paths| - 1])
  }

  function Occurrences(list: seq<string>, x: string): nat {
    if list == [] then 0
    else Occurrences(list[..|list| - 1], x) + if list[|list| - 1] == x then 1 else 0
  }

  predicate EnumeratedFirst(a: string, b: string) {
    var i, j := Index(a), Index(b);
    i.Some? && i.value < MAX_ARRAY_LENGTH && !(j.Some? && j.value < MAX_ARRAY_LENGTH && j.value < i.value)
  }

  function Place(keys: seq<string>, key: string): seq<string> {
    if keys == [] || EnumeratedFirst(key, keys[0]) then [key] + keys else [keys[0]] + Place(keys[1..], key)
  }

  // The names under which a number is kept, in the order of `Object.keys`.
  function Keys(visited: seq<string>): seq<string> {
    if visited == [] then []
    else
      var keys, key := Keys(visited[..|visited| - 1]), visited[|visited| - 1];
      if key in INHERITED || key in keys then keys else Place(keys, key)
  }

  predicate Before(visited: seq<string>, a: string, b: string) {
    var n, m := Occurrences(visited, a), Occurrences(visited, b);
    n > m || (n == m && |Split(a)| > |Split(b)|)
  }

  // One step of a stable sort: after every element that does not have to follow.
  function Insert(visited: seq<string>, ranked: seq<string>, x: string): seq<string> {
    if ranked == [] || Before(visited, x, ranked[0]) then [x] + ranked
    else [ranked[0]] + Insert(visited, ranked[1..], x)
  }

  function Rank(visited: seq<string>, keys: seq<string>, min: nat): seq<string> {
    if keys == [] then []
    else
      var most, last := Rank(visited, keys[..|keys| - 1], min), keys[|keys| - 1];
      if Occurrences(visited, last) >= min then Insert(visited, most, last) else most
  }

  function AnalyzePrefixes(paths: seq<string>, min: nat): seq<string> {
    Rank(Visited(paths), Keys(Visited(paths)), min)
  }

  /******* Sweeping the paths prefix by prefix *******/

  predicate Below(path: string, prefix: string) {
    prefix + "." <= path
  }

  predicate Matches(path: string, prefix: string) {
    Below(path, prefix) || path == prefix
  }

  function Matching(paths: seq<string>, prefix: string): (r: seq<string>)
    ensures |r| <= |paths|
  {
    if paths == [] then []
    else (if Matches(paths[0], prefix) then [paths[0]] else []) + Matching(paths[1..], prefix)
  }

  function Others(paths: seq<string>, prefix: string): (r: seq<string>)
    ensures |r| + |Matching(paths, prefix)| == |paths|
  {
    if paths == [] then []
    else (if Matches(paths[0], prefix) then [] else [paths[0]]) + Others(paths[1..], prefix)
  }

  function Sweep(paths: seq<string>, prefixes: seq<string>, min: nat): Report
    decreases prefixes
  {
    if prefixes == [] then Report([], paths)
    else
      var count := |Matching(paths, prefixes[0])|;
      if count >= min then
        var more := Sweep(Others(paths, prefixes[0]), prefixes[1..], min);
        Report([Group(prefixes[0], count)] + more.groups, more.rest)
      else Sweep(paths, prefixes[1..], min)
  }

  // The groups and the paths that are reported on their own.
  function Grouped(paths: seq<string>, min: nat): Report {
    if |paths| <= 1 then Report([], paths) else Sweep(paths, AnalyzePrefixes(paths, min), min)
  }

  /******* The ranking: the prefixes counted often enough, most frequent first *******/

  predicate Distinct(list: seq<string>) {
    forall i, j :: 0 <= i < j < |list| ==> list[i] != list[j]
  }

  lemma {:induction false} PlaceAdds(keys: seq<string>, key: string)
    requires Distinct(keys) && key !in keys
    ensures Distinct(Place(keys, key))
    ensures forall x :: x in Place(keys, key) <==> x == key || x in keys
  {
    if keys != [] && !EnumeratedFirst(key, keys[0]) {
      PlaceAdds(keys[1..], key);
      assert keys == [keys[0]] + keys[1..];
      assert keys[0] !in Place(keys[1..], key) by {
        assert forall i :: 0 <= i < |keys[1..]| ==> keys[1..][i] == keys[i + 1] != keys[0];
      }
    }
  }

  lemma {:induction false} KeysExact(visited: seq<string>)
    ensures Distinct(Keys(visited))
    ensures forall x :: x in Keys(visited) <==> x in visited && x !in INHERITED
  {
    if visited != [] {
      var most, last := visited[..|visited| - 1], visited[|visited| - 1];
      assert visited == most + [last];
      KeysExact(most);
      if last !in INHERITED && last !in Keys(most) {
        PlaceAdds(Keys(most), last);
      }
    }
  }

  ghost predicate Ranked(visited: seq<string>, list: seq<string>) {
    forall i, j :: 0 <= i < j < |list| ==> !Before(visited, list[j], list[i])
  }

  lemma {:induction false} InsertRanks(visited: seq<string>, ranked: seq<string>, x: string)
    requires Ranked(visited, ranked) && Distinct(ranked) && x !in ranked
    ensures Ranked(visited, Insert(visited, ranked, x)) && Distinct(Insert(visited, ranked, x))
    ensures forall y :: y in Insert(visited, ranked, x) <==> y == x || y in ranked
  {
    if ranked != [] {
      assert ranked == [ranked[0]] + ranked[1..];
      if !Before(visited, x, ranked[0]) {
        InsertRanks(visited, ranked[1..], x);
        var list := Insert(visited, ranked, x);
        forall j | 1 <= j < |list| ensures !Before(visited, list[j], list[0]) && list[j] != list[0] {
          assert list[j] in Insert(visited, ranked[1..], x);
          if list[j] != x {
            var k :| 0 <= k < |ranked[1..]| && ranked[1..][k] == list[j];
            assert ranked[k + 1] == list[j];
          }
        }
      }
    }
  }

  lemma {:induction false} RankExact(visited: seq<string>, keys: seq<string>, min: nat)
    requires Distinct(keys)
    ensures Ranked(visited, Rank(visited, keys, min)) && Distinct(Rank(visited, keys, min))
    ensures forall x :: x in Rank(visited, keys, min) <==> x in keys && Occurrences(visited, x) >= min
  {
    if keys != [] {
      var most, last := keys[..|keys| - 1], keys[|keys| - 1];
      assert keys == most + [last];
      RankExact(visited, most, min);
      if Occurrences(visited, last) >= min {
        InsertRanks(visited, Rank(visited, most, min), last);
      }
    }
  }

  lemma {:induction false} OccursIff(list: seq<string>, x: string)
    ensures x in list <==> Occurrences(list, x) > 0
  {
    if list != [] {
      assert list == list[..|list| - 1] + [list[|list| - 1]];
      OccursIff(list[..|list| - 1], x);
    }
  }

  /******* Ties: the order in which the names of an object are enumerated *******/

  // A name that is an array index comes first.
  predicate ArrayIndex(x: string) {
    Index(x).Some? && Index(x).value < 4294967295
  }

  // Where a name first occurs.
  function FirstAt(visited: seq<string>, x: string): (n: nat)
    ensures n <= |visited| && x !in visited[..n]
    ensures n < |visited| ==> visited[n] == x
  {
    if visited == [] || visited[0] == x then 0
    else
      var n := FirstAt(visited[1..], x);
      assert visited[..n + 1] == [visited[0]] + visited[1..][..n];
      n + 1
  }

  // Array indices by their value, and before all others; those by their first occurrence.
  predicate Precedes(visited: seq<string>, a: string, b: string) {
    if ArrayIndex(b) then ArrayIndex(a) && Index(a).value < Index(b).value
    else ArrayIndex(a) || FirstAt(visited, a) < FirstAt(visited, b)
  }

  ghost predicate Enumerated(visited: seq<string>, keys: seq<string>) {
    forall i, j :: 0 <= i < j < |keys| ==> Precedes(visited, keys[i], keys[j])
  }

  lemma {:induction false} FirstAtLonger(visited: seq<string>, last: string, x: string)
    ensures FirstAt(visited + [last], x) ==
            if x in visited then FirstAt(visited, x) else if x == last then |visited| else |visited| + 1
  {
    if visited != [] {
      assert (visited + [last])[1..] == visited[1..] + [last];
      assert visited == [visited[0]] + visited[1..];
      FirstAtLonger(visited[1..], last, x);
    } else {
      assert ([] + [last])[1..] == [];
    }
  }

  lemma SameIndex(a: string, b: string)
    requires Index(a).Some? && Index(a) == Index(b)
    ensures a == b
  {
    IndexTextUnique(a);
    IndexTextUnique(b);
  }

  lemma {:induction false} PlaceEnumerates(visited: seq<string>, keys: seq<string>, key: string)
    requires Enumerated(visited, keys) && key !in keys
    requires forall k :: k in keys ==> FirstAt(visited, k) < FirstAt(visited, key)
    ensures Enumerated(visited, Place(keys, key))
  {
    if keys != [] {
      var first, more := keys[0], keys[1..];
      assert keys == [first] + more;
      if !EnumeratedFirst(key, first) {
        PlaceEnumerates(visited, more, key);
        NotFirst(visited, first, key);
        forall j | 0 <= j < |Place(more, key)| ensures Precedes(visited, first, Place(more, key)[j]) {
          PlaceMembers(more, key);
          assert Place(more, key)[j] in Place(more, key);
          if Place(more, key)[j] != key {
            var k :| 0 <= k < |more| && more[k] == Place(more, key)[j];
            assert keys[k + 1] == more[k];
          }
        }
      } else {
        forall j | 0 <= j < |keys| ensures Precedes(visited, key, keys[j]) {
          ComesFirst(visited, key, first);
          if j > 0 {
            assert Precedes(visited, first, keys[j]);
          }
        }
      }
    }
  }

  lemma NotFirst(visited: seq<string>, first: string, key: string)
    requires !EnumeratedFirst(key, first) && first != key && FirstAt(visited, first) < FirstAt(visited, key)
    ensures Precedes(visited, first, key)
  {
  }

  lemma ComesFirst(visited: seq<string>, key: string, first: string)
    requires EnumeratedFirst(key, first) && first != key
    ensures ArrayIndex(key) && Precedes(visited, key, first)
  {
    if Index(first) == Index(key) {
      SameIndex(first, key);
    }
  }

  lemma {:induction false} PlaceMembers(keys: seq<string>, key: string)
    ensures forall x :: x in Place(keys, key) ==> x == key || x in keys
  {
    if keys != [] && !EnumeratedFirst(key, keys[0]) {
      PlaceMembers(keys[1..], key);
    }
  }

  lemma {:induction false} KeysEnumerated(visited: seq<string>)
    ensures Enumerated(visited, Keys(visited))
  {
    if visited != [] {
      var most, last := visited[..|visited| - 1], visited[|visited| - 1];
      assert visited == most + [last];
      KeysEnumerated(most);
      KeysExact(most);
      forall x ensures FirstAt(visited, x) ==
                       if x in most then FirstAt(most, x) else if x == last then |most| else |most| + 1 {
        FirstAtLonger(most, last, x);
      }
      forall x | x in most ensures FirstAt(most, x) < |most| {
        assert most[..|most|] == most;
      }
      assert forall i :: 0 <= i < |Keys(most)| ==> Keys(most)[i] in Keys(most);
      assert Enumerated(visited, Keys(most));
      if last !in INHERITED && last !in Keys(most) {
        PlaceEnumerates(visited, Keys(most), last);
      }
    }
  }

  // Equals are ranked as they are enumerated.
  ghost predicate TiesEnumerated(visited: seq<string>, list: seq<string>) {
    forall i, j :: 0 <= i < j < |list| && Tied(visited, list[i], list[j]) ==> Precedes(visited, list[i], list[j])
  }

  predicate Tied(visited: seq<string>, a: string, b: string) {
    Occurrences(visited, a) == Occurrences(visited, b) && |Split(a)| == |Split(b)|
  }

  lemma {:induction false} InsertTies(visited: seq<string>, ranked: seq<string>, x: string)
    requires Ranked(visited, ranked) && TiesEnumerated(visited, ranked)
    requires forall y :: y in ranked ==> Precedes(visited, y, x)
    ensures TiesEnumerated(visited, Insert(visited, ranked, x))
  {
    if ranked != [] {
      var more := ranked[1..];
      assert ranked == [ranked[0]] + more;
      if Before(visited, x, ranked[0]) {
        forall j | 0 <= j < |ranked| ensures !Tied(visited, x, ranked[j]) {
          assert j > 0 ==> !Before(visited, ranked[j], ranked[0]);
        }
      } else {
        InsertTies(visited, more, x);
        InsertKeeps(visited, more, x);
        forall j | 0 <= j < |Insert(visited, more, x)| && Tied(visited, ranked[0], Insert(visited, more, x)[j])
          ensures Precedes(visited, ranked[0], Insert(visited, more, x)[j])
        {
          assert Insert(visited, more, x)[j] in Insert(visited, more, x);
          if Insert(visited, more, x)[j] != x {
            var k :| 0 <= k < |more| && more[k] == Insert(visited, more, x)[j];
            assert ranked[k + 1] == more[k];
          }
        }
      }
    }
  }

  lemma {:induction false} InsertKeeps(visited: seq<string>, ranked: seq<string>, x: string)
    ensures forall y :: y in Insert(visited, ranked, x) ==> y == x || y in ranked
  {
    if ranked != [] && !Before(visited, x, ranked[0]) {
      InsertKeeps(visited, ranked[1..], x);
    }
  }

  lemma {:induction false} RankTies(visited: seq<string>, keys: seq<string>, min: nat)
    requires Enumerated(visited, keys) && Distinct(keys)
    ensures TiesEnumerated(visited, Rank(visited, keys, min))
  {
    if keys != [] {
      var most, last := keys[..|keys| - 1], keys[|keys| - 1];
      assert keys == most + [last];
      RankTies(visited, most, min);
      RankExact(visited, most, min);
      if Occurrences(visited, last) >= min {
        forall y | y in Rank(visited, most, min) ensures Precedes(visited, y, last) {
          var k :| 0 <= k < |most| && most[k] == y;
          assert keys[k] == y;
        }
        InsertTies(visited, Rank(visited, most, min), last);
      }
    }
  }

  lemma {:induction false} OccurrencesCount(list: seq<string>, x: string)
    ensures Occurrences(list, x) == multiset(list)[x]
  {
    if list != [] {
      assert list == list[..|list| - 1] + [list[|list| - 1]];
      OccurrencesCount(list[..|list| - 1], x);
    }
  }

  lemma RankedIff(paths: seq<string>, min: nat, x: string)
    requires min > 0
    ensures x in AnalyzePrefixes(paths, min) <==> Occurrences(Visited(paths), x) >= min && x !in INHERITED
  {
    KeysExact(Visited(paths));
    RankExact(Visited(paths), Keys(Visited(paths)), min);
    OccursIff(Visited(paths), x);
  }

  // The ranking lists every prefix with enough occurrences once, unless its name is inherited: by falling
  // number of occurrences, deeper prefixes first among equals, and then as names are enumerated.
  lemma RankingExact(paths: seq<string>, min: nat, x: string)
    requires min > 0
    ensures var visited, ranking := Visited(paths), AnalyzePrefixes(paths, min);
      && Distinct(ranking)
      && (x in ranking <==> multiset(visited)[x] >= min && x !in INHERITED)
      && forall i, j :: 0 <= i < j < |ranking| ==>
           var n, m := multiset(visited)[ranking[i]], multiset(visited)[ranking[j]];
           var depth, depth' := |Split(ranking[i])|, |Split(ranking[j])|;
           n > m || (n == m && (depth > depth' || (depth == depth' && Precedes(visited, ranking[i], ranking[j]))))
  {
    var visited, ranking := Visited(paths), AnalyzePrefixes(paths, min);
    KeysExact(visited);
    KeysEnumerated(visited);
    RankExact(visited, Keys(visited), min);
    RankTies(visited, Keys(visited), min);
    RankedIff(paths, min, x);
    OccurrencesCount(visited, x);
    forall i, j | 0 <= i < j < |ranking|
      ensures var n, m := multiset(visited)[ranking[i]], multiset(visited)[ranking[j]];
        var depth, depth' := |Split(ranking[i])|, |Split(ranking[j])|;
        n > m || (n == m && (depth > depth' || (depth == depth' && Precedes(visited, ranking[i], ranking[j]))))
    {
      OccurrencesCount(visited, ranking[i]);
      OccurrencesCount(visited, ranking[j]);
      assert !Before(visited, ranking[j], ranking[i]);
    }
  }

  /******* Every path is accounted for once *******/

  // The first group a path belongs to, or the number of groups.
  function Home(path: string, groups: seq<Group>): (i: nat)
    ensures i <= |groups|
    ensures i < |groups| ==> Matches(path, groups[i].prefix)
    ensures forall j :: 0 <= j < i ==> !Matches(path, groups[j].prefix)
  {
    if groups == [] || Matches(path, groups[0].prefix) then 0 else 1 + Home(path, groups[1..])
  }

  // A path goes to the first group whose prefix it is, or is followed by a dot in it.
  lemma HomeExact(path: string, groups: seq<Group>, i: nat)
    requires i <= |groups|
    ensures Home(path, groups) == i <==>
            && (i < |groups| ==> path == groups[i].prefix || groups[i].prefix + "." <= path)
            && forall j :: 0 <= j < i ==> path != groups[j].prefix && !(groups[j].prefix + "." <= path)
  {
    forall j | 0 <= j < |groups|
      ensures Matches(path, groups[j].prefix) <==> path == groups[j].prefix || groups[j].prefix + "." <= path
    {
    }
  }

  // The paths whose home is group number i, in order.
  function MembersAt(paths: seq<string>, groups: seq<Group>, i: nat): seq<string> {
    if paths == [] then []
    else (if Home(paths[0], groups) == i then [paths[0]] else []) + MembersAt(paths[1..], groups, i)
  }

  lemma {:induction false} MembersFirst(paths: seq<string>, groups: seq<Group>)
    requires groups != []
    ensures MembersAt(paths, groups, 0) == Matching(paths, groups[0].prefix)
  {
    if paths != [] {
      MembersFirst(paths[1..], groups);
    }
  }

  lemma {:induction false} MembersLater(paths: seq<string>, groups: seq<Group>, i: nat)
    requires groups != []
    ensures MembersAt(paths, groups, i + 1) == MembersAt(Others(paths, groups[0].prefix), groups[1..], i)
  {
    if paths != [] {
      MembersLater(paths[1..], groups, i);
      var others := Others(paths[1..], groups[0].prefix);
      if !Matches(paths[0], groups[0].prefix) {
        assert Others(paths, groups[0].prefix) == [paths[0]] + others;
        assert ([paths[0]] + others)[1..] == others;
      } else {
        assert Others(paths, groups[0].prefix) == others;
      }
    }
  }

  lemma {:induction false} MembersNone(paths: seq<string>)
    ensures MembersAt(paths, [], 0) == paths
  {
    if paths != [] {
      MembersNone(paths[1..]);
    }
  }

  // Each path is counted in the first group whose prefix it matches; the paths that match none are left, in order.
  ghost predicate Accounted(paths: seq<string>, r: Report) {
    && r.rest == MembersAt(paths, r.groups, |r.groups|)
    && forall i :: 0 <= i < |r.groups| ==> r.groups[i].count == |MembersAt(paths, r.groups, i)|
  }

  lemma {:induction false} SweepAccounts(paths: seq<string>, prefixes: seq<string>, min: nat)
    ensures Accounted(paths, Sweep(paths, prefixes, min))
    ensures forall g :: g in Sweep(paths, prefixes, min).groups ==> g.count >= min && g.prefix in prefixes
    decreases prefixes
  {
    var r := Sweep(paths, prefixes, min);
    if prefixes == [] {
      MembersNone(paths);
    } else {
      assert prefixes == [prefixes[0]] + prefixes[1..];
      if |Matching(paths, prefixes[0])| >= min {
        var others := Others(paths, prefixes[0]);
        var more := Sweep(others, prefixes[1..], min);
        SweepAccounts(others, prefixes[1..], min);
        assert r.groups[1..] == more.groups;
        MembersFirst(paths, r.groups);
        forall i: nat ensures MembersAt(paths, r.groups, i + 1) == MembersAt(others, more.groups, i) {
          MembersLater(paths, r.groups, i);
        }
        forall i | 0 <= i < |r.groups| ensures r.groups[i].count == |MembersAt(paths, r.groups, i)| {
          if i > 0 {
            assert MembersAt(paths, r.groups, (i - 1) + 1) == MembersAt(others, more.groups, i - 1);
          }
        }
        assert MembersAt(paths, r.groups, |more.groups| + 1) == MembersAt(others, more.groups, |more.groups|);
      } else {
        SweepAccounts(paths, prefixes[1..], min);
      }
    }
  }

  function Total(groups: seq<Group>): nat {
    if groups == [] then 0 else groups[0].count + Total(groups[1..])
  }

  lemma {:induction false} SweepConserves(paths: seq<string>, prefixes: seq<string>, min: nat)
    ensures var r := Sweep(paths, prefixes, min); Total(r.groups) + |r.rest| == |paths|
    decreases prefixes
  {
    if prefixes != [] {
      if |Matching(paths, prefixes[0])| >= min {
        SweepConserves(Others(paths, prefixes[0]), prefixes[1..], min);
        var r := Sweep(paths, prefixes, min);
        assert r.groups[1..] == Sweep(Others(paths, prefixes[0]), prefixes[1..], min).groups;
      } else {
        SweepConserves(paths, prefixes[1..], min);
      }
    }
  }

  // Grouping loses and invents nothing, and makes no group that is too small.
  lemma GroupingConserves(paths: seq<string>, min: nat)
    ensures var r := Grouped(paths, min);
      && Accounted(paths, r)
      && Total(r.groups) + |r.rest| == |paths|
      && forall g :: g in r.groups ==> g.count >= min
  {
    var prefixes := if |paths| <= 1 then [] else AnalyzePrefixes(paths, min);
    SweepAccounts(paths, prefixes, min);
    SweepConserves(paths, prefixes, min);
  }

  /******* Nothing groupable is left, except under an inherited name *******/

  // A path below a prefix continues it with a dot.
  lemma BelowIff(path: string, prefix: string)
    ensures Below(path, prefix) <==> exists rest :: path == prefix + "." + rest
  {
    if Below(path, prefix) {
      assert path == prefix + "." + path[|prefix| + 1..];
    }
  }

  function CountBelow(paths: seq<string>, prefix: string): nat {
    if paths == [] then 0
    else CountBelow(paths[..|paths| - 1], prefix) + if Below(paths[|paths| - 1], prefix) then 1 else 0
  }

  lemma {:induction false} SplitHead(w: string, q: string)
    requires '.' !in w
    ensures Split(w + "." + q) == [w] + Split(q)
  {
    var path := w + "." + q;
    if w == "" {
      assert path[1..] == q;
    } else {
      assert path[1..] == w[1..] + "." + q;
      SplitHead(w[1..], q);
      assert [path[0]] + w[1..] == w;
    }
  }

  // A path below a prefix with more than one part, without its first part.
  lemma BelowTail(w: string, tail: string, path: string)
    requires Below(path, w + "." + tail)
    ensures |path| > |w| && path == w + "." + path[|w| + 1..] && Below(path[|w| + 1..], tail)
  {
    var upto := w + "." + tail + ".";
    assert path[..|upto|] == upto;
    assert upto[..|w| + 1] == w + "." && upto[|w| + 1..] == tail + ".";
    assert path[..|w| + 1] == upto[..|w| + 1];
    assert path[|w| + 1..][..|tail| + 1] == upto[|w| + 1..];
  }

  // Every proper prefix that starts with a part is counted.
  lemma {:induction false} PrefixVisited(current: string, tail: string, path: string)
    requires Below(path, tail)
    requires current == "" ==> tail != "" && tail[0] != '.'
    ensures BuildPath(current, tail) in PrefixesFrom(current, Split(path))
    decreases |tail|
  {
    if '.' in tail {
      var n := FirstIndex(tail, '.');
      var w, more := tail[..n], tail[n + 1..];
      assert tail == w + "." + more;
      BelowTail(w, more, path);
      var q, first := path[n + 1..], BuildPath(current, w);
      FirstPrefix(current, w, q);
      assert n == 0 ==> tail[0] == '.';
      PrefixVisited(first, more, q);
      assert BuildPath(first, more) == BuildPath(current, tail);
    } else {
      var q := path[|tail| + 1..];
      assert path == tail + "." + q;
      FirstPrefix(current, tail, q);
    }
  }

  lemma FirstPrefix(current: string, w: string, q: string)
    requires '.' !in w
    ensures PrefixesFrom(current, Split(w + "." + q)) ==
            [BuildPath(current, w)] + PrefixesFrom(BuildPath(current, w), Split(q))
  {
    SplitHead(w, q);
    assert ([w] + Split(q))[1..] == Split(q);
  }

  // The counted prefix that covers everything below a prefix: itself, or the empty one.
  function Cover(prefix: string): string {
    if prefix == "" || prefix[0] == '.' then "" else prefix
  }

  lemma CoverVisited(path: string, prefix: string)
    requires Below(path, prefix)
    ensures Cover(prefix) in Prefixes(path) && Below(path, Cover(prefix))
  {
    assert (prefix + ".")[0] == path[0];
    if Cover(prefix) == "" {
      assert path == "" + "." + path[1..];
      SplitHead("", path[1..]);
      assert "" + "." <= path;
    } else {
      PrefixVisited("", prefix, path);
    }
  }

  lemma {:induction false} OccursSplit(a: seq<string>, b: seq<string>, x: string)
    ensures Occurrences(a + b, x) == Occurrences(a, x) + Occurrences(b, x)
  {
    if b == [] {
      assert a + b == a;
    } else {
      assert (a + b)[..|a + b| - 1] == a + b[..|b| - 1];
      OccursSplit(a, b[..|b| - 1], x);
    }
  }

  lemma {:induction false} CoverCounted(paths: seq<string>, prefix: string)
    ensures Occurrences(Visited(paths), Cover(prefix)) >= CountBelow(paths, prefix)
  {
    if paths != [] {
      var most, last := paths[..|paths| - 1], paths[|paths| - 1];
      CoverCounted(most, prefix);
      OccursSplit(Visited(most), Prefixes(last), Cover(prefix));
      if Below(last, prefix) {
        CoverVisited(last, prefix);
        OccursIff(Prefixes(last), Cover(prefix));
      }
    }
  }

  lemma {:induction false} CountSplit(a: seq<string>, b: seq<string>, prefix: string)
    ensures CountBelow(a + b, prefix) == CountBelow(a, prefix) + CountBelow(b, prefix)
  {
    if b == [] {
      assert a + b == a;
    } else {
      assert (a + b)[..|a + b| - 1] == a + b[..|b| - 1];
      CountSplit(a, b[..|b| - 1], prefix);
    }
  }

  lemma {:induction false} BelowMatches(paths: seq<string>, prefix: string)
    ensures CountBelow(paths, prefix) <= |Matching(paths, Cover(prefix))|
  {
    if paths != [] {
      assert paths == [paths[0]] + paths[1..];
      CountSplit([paths[0]], paths[1..], prefix);
      assert [paths[0]][..0] == [];
      BelowMatches(paths[1..], prefix);
      if Below(paths[0], prefix) {
        CoverVisited(paths[0], prefix);
      }
    }
  }

  // Taking paths away leaves no more of any kind.
  lemma {:induction false} OthersFewer(paths: seq<string>, gone: string, prefix: string)
    ensures |Matching(Others(paths, gone), prefix)| <= |Matching(paths, prefix)|
    ensures gone == prefix ==> Matching(Others(paths, gone), prefix) == []
  {
    if paths != [] {
      var others := Others(paths[1..], gone);
      OthersFewer(paths[1..], gone, prefix);
      if !Matches(paths[0], gone) {
        assert Others(paths, gone) == [paths[0]] + others;
        assert ([paths[0]] + others)[1..] == others;
      } else {
        assert Others(paths, gone) == others;
      }
    }
  }

  lemma {:induction false} OthersBelow(paths: seq<string>, gone: string, prefix: string)
    ensures CountBelow(Others(paths, gone), prefix) <= CountBelow(paths, prefix)
  {
    if paths != [] {
      var others := Others(paths[1..], gone);
      OthersBelow(paths[1..], gone, prefix);
      CountSplit([paths[0]], paths[1..], prefix);
      assert paths == [paths[0]] + paths[1..];
      if !Matches(paths[0], gone) {
        CountSplit([paths[0]], others, prefix);
      } else {
        assert Others(paths, gone) == others;
      }
    }
  }

  lemma {:induction false} SweepFewer(paths: seq<string>, prefixes: seq<string>, min: nat, prefix: string)
    ensures var rest := Sweep(paths, prefixes, min).rest;
      && |Matching(rest, prefix)| <= |Matching(paths, prefix)|
      && CountBelow(rest, prefix) <= CountBelow(paths, prefix)
    decreases prefixes
  {
    if prefixes != [] {
      if |Matching(paths, prefixes[0])| >= min {
        OthersFewer(paths, prefixes[0], prefix);
        OthersBelow(paths, prefixes[0], prefix);
        SweepFewer(Others(paths, prefixes[0]), prefixes[1..], min, prefix);
      } else {
        SweepFewer(paths, prefixes[1..], min, prefix);
      }
    }
  }

  lemma {:induction false} SweptOut(paths: seq<string>, prefixes: seq<string>, min: nat, prefix: string)
    requires min > 0 && prefix in prefixes
    ensures |Matching(Sweep(paths, prefixes, min).rest, prefix)| < min
    decreases prefixes
  {
    var left := if |Matching(paths, prefixes[0])| >= min then Others(paths, prefixes[0]) else paths;
    if prefix == prefixes[0] {
      OthersFewer(paths, prefix, prefix);
      SweepFewer(left, prefixes[1..], min, prefix);
    } else {
      SweptOut(left, prefixes[1..], min, prefix);
    }
  }

  lemma SweepMaximal(paths: seq<string>, prefixes: seq<string>, min: nat, prefix: string)
    requires min > 0 && (Cover(prefix) in prefixes || CountBelow(paths, prefix) < min)
    ensures CountBelow(Sweep(paths, prefixes, min).rest, prefix) < min
  {
    if Cover(prefix) in prefixes {
      SweptOut(paths, prefixes, min, Cover(prefix));
      BelowMatches(Sweep(paths, prefixes, min).rest, prefix);
    } else {
      SweepFewer(paths, prefixes, min, prefix);
    }
  }

  // Too few paths are left below a prefix to make a group, unless its name is inherited.
  lemma GroupingMaximal(paths: seq<string>, min: nat, prefix: string)
    requires min >= 2 && prefix !in INHERITED
    ensures CountBelow(Grouped(paths, min).rest, prefix) < min
  {
    if |paths| <= 1 {
      FewBelow(paths, prefix);
    } else {
      CoverCounted(paths, prefix);
      RankedIff(paths, min, Cover(prefix));
      SweepMaximal(paths, AnalyzePrefixes(paths, min), min, prefix);
    }
  }

  lemma {:induction false} FewBelow(paths: seq<string>, prefix: string)
    ensures CountBelow(paths, prefix) <= |paths|
  {
    if paths != [] {
      FewBelow(paths[..|paths| - 1], prefix);
    }
  }

  /******* The exact condition *******/

  function Copies(path: string, n: nat): (r: seq<string>)
    ensures |r| == n
  {
    if n == 0 then [] else Copies(path, n - 1) + [path]
  }

  // Copies of one path right below a prefix without dots.
  lemma {:induction false} CopiesVisited(prefix: string, n: nat)
    requires prefix != "" && '.' !in prefix
    ensures var paths := Copies(prefix + "." + "a", n);
      && CountBelow(paths, prefix) == n
      && forall x :: x in Visited(paths) ==> x == prefix
  {
    if n > 0 {
      var path := prefix + "." + "a";
      CopiesVisited(prefix, n - 1);
      assert Copies(path, n)[..n - 1] == Copies(path, n - 1);
      FirstPrefix("", prefix, "a");
      SplitPlain("a");
      assert Prefixes(path) == [prefix];
    }
  }

  // At most `min` - 1 paths are left below a prefix, whatever the paths are, exactly when the prefix is not an
  // inherited name and a group takes at least two paths.
  lemma MaximalIff(min: nat, prefix: string)
    ensures (forall paths :: CountBelow(Grouped(paths, min).rest, prefix) < min)
       <==> prefix !in INHERITED && min >= 2
  {
    if prefix !in INHERITED && min >= 2 {
      forall paths ensures CountBelow(Grouped(paths, min).rest, prefix) < min {
        GroupingMaximal(paths, min, prefix);
      }
    } else if min < 2 {
      var paths := if min == 0 then [] else [prefix + "." + "a"];
      assert min == 1 ==> paths[..0] == [] && Below(paths[0], prefix);
      assert CountBelow(Grouped(paths, min).rest, prefix) >= min;
    } else {
      InheritedLeft(min, prefix);
    }
  }

  lemma InheritedLeft(min: nat, prefix: string)
    requires min >= 2 && prefix in INHERITED
    ensures CountBelow(Grouped(Copies(prefix + "." + "a", min), min).rest, prefix) == min
  {
    var paths := Copies(prefix + "." + "a", min);
    assert prefix != "" && '.' !in prefix;
    CopiesVisited(prefix, min);
    NoKeys(Visited(paths));
  }

  lemma {:induction false} NoKeys(visited: seq<string>)
    requires forall x :: x in visited ==> x in INHERITED
    ensures Keys(visited) == []
  {
    if visited != [] {
      NoKeys(visited[..|visited| - 1]);
    }
  }

  /******* The loops *******/

  lemma PrefixesSnoc(current: string, parts: seq<string>, i: nat)
    requires i < |parts|
    ensures |PrefixesFrom(current, parts)| == |parts| - 1
    ensures i + 1 < |parts| ==>
      PrefixesFrom(current, parts)[i] ==
      BuildPath(if i == 0 then current else PrefixesFrom(current, parts)[i - 1], parts[i])
    decreases |parts|
  {
    if |parts| > 1 {
      PrefixesSnoc(BuildPath(current, parts[0]), parts[1..], if i == 0 then 0 else i - 1);
    }
  }

  ghost predicate Counted(counters: map<string, nat>, keys: seq<string>, visited: seq<string>) {
    && keys == Keys(visited)
    && (forall x :: x in counters <==> x in keys)
    && forall x :: x in counters ==> counters[x] == Occurrences(visited, x)
  }

  // An inherited name never comes to hold a number.
  method CountPrefix(counters: map<string, nat>, keys: seq<string>, prefix: string, ghost visited: seq<string>)
      returns (counters': map<string, nat>, keys': seq<string>)
    requires Counted(counters, keys, visited)
    ensures Counted(counters', keys', visited + [prefix])
  {
    counters', keys' := counters, keys;
    assert (visited + [prefix])[..|visited|] == visited;
    KeysExact(visited);
    KeysExact(visited + [prefix]);
    OccursIff(visited, prefix);
    if prefix !in INHERITED {
      counters' := counters[prefix := (if prefix in counters then counters[prefix] else 0) + 1];
      if prefix !in keys {
        keys' := Place(keys, prefix);
      }
    }
  }

  lemma TakeOneMore(before: seq<string>, here: seq<string>, i: nat)
    requires i < |here|
    ensures before + here[..i + 1] == before + here[..i] + [here[i]]
  {
  }

  // Builds the next prefix of a path and counts it.
  method CountNext(counters: map<string, nat>, keys: seq<string>, current: string, part: string,
      ghost visited: seq<string>, ghost here: seq<string>, ghost i: nat)
      returns (counters': map<string, nat>, keys': seq<string>, next: string)
    requires i < |here| && here[i] == BuildPath(current, part)
    requires Counted(counters, keys, visited + here[..i])
    ensures next == here[i] && Counted(counters', keys', visited + here[..i + 1])
  {
    next := BuildPath(current, part);
    TakeOneMore(visited, here, i);
    counters', keys' := CountPrefix(counters, keys, next, visited + here[..i]);
  }

  // Counts the prefixes of one path.
  method CountPath(counters: map<string, nat>, keys: seq<string>, path: string, ghost visited: seq<string>)
      returns (counters': map<string, nat>, keys': seq<string>)
    requires Counted(counters, keys, visited)
    ensures Counted(counters', keys', visited + Prefixes(path))
  {
    counters', keys' := counters, keys;
    var parts := Split(path);
    var current := "";
    ghost var here := Prefixes(path);
    PrefixesSnoc("", parts, 0);
    assert visited + here[..0] == visited;
    for i := 0 to |parts| - 1
      invariant current == if i == 0 then "" else here[i - 1]
      invariant Counted(counters', keys', visited + here[..i])
    {
      PrefixesSnoc("", parts, i);
      counters', keys', current := CountNext(counters', keys', current, parts[i], visited, here, i);
    }
    assert here[..|parts| - 1] == here;
  }

  method CountPrefixes(paths: seq<string>) returns (counters: map<string, nat>, keys: seq<string>)
    ensures Counted(counters, keys, Visited(paths))
  {
    counters, keys := map[], [];
    for n := 0 to |paths|
      invariant Counted(counters, keys, Visited(paths[..n]))
    {
      counters, keys := CountPath(counters, keys, paths[n], Visited(paths[..n]));
      assert paths[..n + 1][..n] == paths[..n];
    }
    assert paths[..|paths|] == paths;
  }

  lemma {:induction false} InsertAt(visited: seq<string>, ranked: seq<string>, x: string, n: nat)
    requires n <= |ranked| && forall k :: 0 <= k < n ==> !Before(visited, x, ranked[k])
    requires n == |ranked| || Before(visited, x, ranked[n])
    ensures Insert(visited, ranked, x) == ranked[..n] + [x] + ranked[n..]
  {
    if n > 0 {
      InsertAt(visited, ranked[1..], x, n - 1);
      assert [ranked[0]] + ranked[1..][..n - 1] == ranked[..n];
    }
  }

  // Puts a prefix behind every one that does not have to follow it, by the counters and the depths.
  method InsertRanked(counters: map<string, nat>, ranked: seq<string>, x: string, ghost visited: seq<string>)
      returns (r: seq<string>)
    requires x in counters && forall y :: y in ranked ==> y in counters
    requires forall y :: y in counters ==> counters[y] == Occurrences(visited, y)
    ensures r == Insert(visited, ranked, x)
  {
    var depth := |Split(x)|;
    var i := 0;
    while i < |ranked|
      invariant i <= |ranked| && forall k :: 0 <= k < i ==> !Before(visited, x, ranked[k])
    {
      var count := counters[ranked[i]];
      if counters[x] > count || (counters[x] == count && depth > |Split(ranked[i])|) {
        break;
      }
      i := i + 1;
    }
    InsertAt(visited, ranked, x, i);
    return ranked[..i] + [x] + ranked[i..];
  }

  // Sorts the prefixes that are counted often enough.
  method RankPrefixes(paths: seq<string>, min: nat) returns (ranked: seq<string>)
    ensures ranked == AnalyzePrefixes(paths, min)
  {
    var counters, keys := CountPrefixes(paths);
    ghost var visited := Visited(paths);
    ranked := [];
    for i := 0 to |keys|
      invariant ranked == Rank(visited, keys[..i], min)
      invariant forall y :: y in ranked ==> y in counters
    {
      assert keys[i] in keys;
      assert keys[..i + 1][..i] == keys[..i];
      if counters[keys[i]] >= min {
        InsertKeeps(visited, ranked, keys[i]);
        ranked := InsertRanked(counters, ranked, keys[i], visited);
      }
    }
    assert keys[..|keys|] == keys;
  }

  method IndexOf(list: seq<string>, x: string) returns (i: int)
    ensures if x in list then 0 <= i < |list| && list[i] == x && x !in list[..i] else i == -1
  {
    i := 0;
    while i < |list|
      invariant 0 <= i <= |list| && x !in list[..i]
    {
      if list[i] == x {
        return;
      }
      i := i + 1;
    }
    assert list[..i] == list;
    i := -1;
  }

  lemma OneMorePath(path: string, more: seq<string>, prefix: string)
    ensures Matching([path] + more, prefix) == (if Matches(path, prefix) then [path] else []) + Matching(more, prefix)
    ensures Others([path] + more, prefix) == (if Matches(path, prefix) then [] else [path]) + Others(more, prefix)
  {
    assert ([path] + more)[1..] == more;
  }

  // Taking out the first path that matches.
  lemma {:induction false} SpliceMatching(paths: seq<string>, prefix: string, i: nat)
    requires i < |paths| && Matches(paths[i], prefix)
    requires forall k :: 0 <= k < i ==> !Matches(paths[k], prefix)
    ensures Matching(paths, prefix) == [paths[i]] + Matching(paths[..i] + paths[i + 1..], prefix)
    ensures Others(paths[..i] + paths[i + 1..], prefix) == Others(paths, prefix)
  {
    if i == 0 {
      assert paths[..i] + paths[i + 1..] == paths[1..];
    } else {
      SpliceMatching(paths[1..], prefix, i - 1);
      var spliced := paths[1..][..i - 1] + paths[1..][i..];
      assert paths[..i] + paths[i + 1..] == [paths[0]] + spliced;
      OneMorePath(paths[0], spliced, prefix);
      assert [] + Matching(spliced, prefix) == Matching(spliced, prefix);
    }
  }

  // The first occurrence of the first matching path is the first path that matches.
  lemma {:induction false} FirstMatching(paths: seq<string>, prefix: string, i: nat)
    requires i < |paths| && (forall k :: 0 <= k < i ==> paths[k] != paths[i])
    requires Matching(paths, prefix) != [] && Matching(paths, prefix)[0] == paths[i]
    ensures forall k :: 0 <= k < i ==> !Matches(paths[k], prefix)
  {
    if i > 0 {
      FirstMatching(paths[1..], prefix, i - 1);
    }
  }

  lemma SpliceFirst(paths: seq<string>, prefix: string, i: nat)
    requires i < |paths| && Matching(paths, prefix) != []
    requires Matching(paths, prefix)[0] == paths[i] && paths[i] !in paths[..i]
    ensures Matching(paths[..i] + paths[i + 1..], prefix) == Matching(paths, prefix)[1..]
    ensures Others(paths[..i] + paths[i + 1..], prefix) == Others(paths, prefix)
  {
    MatchingFound(paths, prefix, 0);
    assert forall k :: 0 <= k < i ==> paths[k] == paths[..i][k];
    FirstMatching(paths, prefix, i);
    SpliceMatching(paths, prefix, i);
  }

  lemma {:induction false} MatchingFound(paths: seq<string>, prefix: string, k: nat)
    requires k < |Matching(paths, prefix)|
    ensures Matching(paths, prefix)[k] in paths && Matches(Matching(paths, prefix)[k], prefix)
  {
    if Matches(paths[0], prefix) {
      if k > 0 {
        MatchingFound(paths[1..], prefix, k - 1);
      }
    } else {
      MatchingFound(paths[1..], prefix, k);
    }
  }

  lemma {:induction false} OthersAll(paths: seq<string>, prefix: string)
    requires Matching(paths, prefix) == []
    ensures Others(paths, prefix) == paths
  {
    if paths != [] {
      OthersAll(paths[1..], prefix);
    }
  }

  method RemoveMatching(paths: seq<string>, prefix: string, matching: seq<string>) returns (remaining: seq<string>)
    requires matching == Matching(paths, prefix)
    ensures remaining == Others(paths, prefix)
  {
    remaining := paths;
    for i := 0 to |matching|
      invariant Matching(remaining, prefix) == matching[i..]
      invariant Others(remaining, prefix) == Others(paths, prefix)
    {
      MatchingFound(remaining, prefix, 0);
      var index := IndexOf(remaining, matching[i]);
      if index != -1 {
        SpliceFirst(remaining, prefix, index);
        assert matching[i..][1..] == matching[i + 1..];
        remaining := remaining[..index] + remaining[index + 1..];
      }
    }
    OthersAll(remaining, prefix);
  }

  method GroupPaths(paths: seq<string>, min: nat) returns (report: Report)
    ensures report == Grouped(paths, min)
  {
    if |paths| <= 1 {
      return Report([], paths);
    }
    var prefixes := RankPrefixes(paths, min);
    var remaining := paths;
    var groups: seq<Group> := [];
    for i := 0 to |prefixes|
      invariant var more := Sweep(remaining, prefixes[i..], min);
        Sweep(paths, prefixes, min) == Report(groups + more.groups, more.rest)
    {
      assert prefixes[i..][1..] == prefixes[i + 1..];
      var matching := Matching(remaining, prefixes[i]);
      if |matching| >= min {
        remaining := RemoveMatching(remaining, prefixes[i], matching);
        groups := groups + [Group(prefixes[i], |matching|)];
      }
    }
    return Report(groups, remaining);
  }
}
