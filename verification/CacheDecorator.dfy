/** The `cache` decorator: its keys, its skip rules, and its agreement with the method it decorates. */
module CacheDecoratorModel {
  import opened Wrappers
  import opened JsonValues
  import opened JsonParser
  import opened JsonReading
  import opened JsonStringify

  // `RequestDetails` instances never take part in a key.
  datatype Arg = Undefined | Plain(json: Json) | Details(id: nat)

  // A result; None is `undefined`.
  type Value = Option<Json>

  datatype Call = Call(name: string, args: seq<Arg>)

  // The values of a rule are separated by `|` in the source.
  datatype SingleRule = SingleRule(index: nat, values: seq<string>)

  datatype NamedField = NamedField(name: string, values: seq<string>)

  datatype NamedRule = NamedRule(index: nat, fields: seq<NamedField>)

  datatype Rules = Rules(single: seq<SingleRule>, named: seq<NamedRule>)

  // What the rules say about a result: cache it, do not, or a TypeError.
  datatype Verdict = Store | Skip | Fails

  predicate TruthyValue(v: Value) {
    v.Some? && Truthy(v.value)
  }

  /******* Keys *******/

  function Segment(arg: Arg): string
    requires !arg.Details?
  {
    match arg
    case Undefined => "undefined"
    case Plain(Null) => "null"
    case Plain(Bool(b)) => if b then "true" else "false"
    case Plain(Num(text)) => text
    case Plain(Str(s)) => s
    case Plain(j) => Stringify(j)
  }

  function Segments(args: seq<Arg>): seq<string> {
    if args == [] then []
    else
      var most, last := Segments(args[..|args| - 1]), args[|args| - 1];
      if last.Details? then most else most + [Segment(last)]
  }

  function Joined(name: string, segments: seq<string>): string {
    if segments == [] then name
    else Joined(name, segments[..|segments| - 1]) + "_" + segments[|segments| - 1]
  }

  function Key(call: Call): string {
    Joined(call.name, Segments(call.args))
  }

  /******* Skip rules *******/

  predicate SingleMatches(args: seq<Arg>, rule: SingleRule) {
    rule.index >= |args| || args[rule.index].Undefined?
    || (args[rule.index].Plain? && args[rule.index].json.Str? && args[rule.index].json.s in rule.values)
  }

  predicate SingleSkips(args: seq<Arg>, rules: seq<SingleRule>) {
    exists rule :: rule in rules && SingleMatches(args, rule)
  }

  predicate Nullish(args: seq<Arg>, index: nat) {
    index >= |args| || args[index].Undefined? || args[index] == Plain(Null)
  }

  function Property(arg: Arg, name: string): Option<Json> {
    if arg.Plain? then GetProperty(arg.json, name) else None
  }

  // `Object.fromEntries`: of two fields with one name the last counts.
  function FromEntries(fields: seq<NamedField>): map<string, seq<string>> {
    if fields == [] then map[]
    else FromEntries(fields[..|fields| - 1])[fields[|fields| - 1].name := fields[|fields| - 1].values]
  }

  lemma {:induction false} LastFieldCounts(fields: seq<NamedField>, i: nat)
    requires i < |fields| && forall j :: i < j < |fields| ==> fields[j].name != fields[i].name
    ensures fields[i].name in FromEntries(fields) && FromEntries(fields)[fields[i].name] == fields[i].values
  {
    if i < |fields| - 1 {
      LastFieldCounts(fields[..|fields| - 1], i);
    }
  }

  predicate FieldMatches(arg: Arg, skipList: map<string, seq<string>>, name: string) {
    name in skipList && Property(arg, name).Some? && Property(arg, name).value.Str?
    && Property(arg, name).value.s in skipList[name]
  }

  function RuleVerdict(args: seq<Arg>, rule: NamedRule): Verdict {
    var skipList := FromEntries(rule.fields);
    if skipList == map[] then Store
    else if Nullish(args, rule.index) then Fails
    else if exists name :: name in skipList && FieldMatches(args[rule.index], skipList, name) then Skip
    else Store
  }

  function NamedVerdict(args: seq<Arg>, rules: seq<NamedRule>): Verdict {
    if rules == [] then Store
    else
      var first := RuleVerdict(args, rules[0]);
      if first.Store? then NamedVerdict(args, rules[1..]) else first
  }

  function Decide(args: seq<Arg>, rules: Rules): Verdict {
    if SingleSkips(args, rules.single) then Skip else NamedVerdict(args, rules.named)
  }

  /******* What the rules say, argument by argument *******/

  // The entry that counts for its field.
  predicate LastField(fields: seq<NamedField>, j: nat) {
    j < |fields| && forall k :: j < k < |fields| ==> fields[k].name != fields[j].name
  }

  lemma LastFieldOf(fields: seq<NamedField>, name: string) returns (j: nat)
    requires name in FromEntries(fields)
    ensures LastField(fields, j) && fields[j].name == name
  {
    j := |fields| - 1;
    if fields[j].name != name {
      j := LastFieldOf(fields[..|fields| - 1], name);
    }
  }

  // The argument of the rule is there and not null, and none of its fields has one of the values of that field.
  ghost predicate NamedClear(args: seq<Arg>, rule: NamedRule) {
    rule.fields == [] || (
      && rule.index < |args| && args[rule.index] != Undefined && args[rule.index] != Plain(Null)
      && forall j: nat, v :: LastField(rule.fields, j) && v in rule.fields[j].values && args[rule.index].Plain? ==>
           GetProperty(args[rule.index].json, rule.fields[j].name) != Some(Str(v)))
  }

  lemma NamedRuleStoreIff(args: seq<Arg>, rule: NamedRule)
    ensures RuleVerdict(args, rule).Store? <==> NamedClear(args, rule)
  {
    var skipList := FromEntries(rule.fields);
    if rule.fields != [] {
      assert rule.fields[|rule.fields| - 1].name in skipList;
      if rule.index < |args| && args[rule.index].Plain? {
        var arg := args[rule.index];
        if name :| FieldMatches(arg, skipList, name) {
          var j := LastFieldOf(rule.fields, name);
          LastFieldCounts(rule.fields, j);
          assert GetProperty(arg.json, rule.fields[j].name) == Some(Str(GetProperty(arg.json, name).value.s));
        }
        forall j: nat, v | LastField(rule.fields, j) && v in rule.fields[j].values
          ensures GetProperty(arg.json, rule.fields[j].name) == Some(Str(v)) ==>
                  FieldMatches(arg, skipList, rule.fields[j].name)
        {
          LastFieldCounts(rule.fields, j);
        }
      }
    }
  }

  lemma {:induction false} NamedStoreIff(args: seq<Arg>, rules: seq<NamedRule>)
    ensures NamedVerdict(args, rules).Store? <==> forall rule :: rule in rules ==> NamedClear(args, rule)
  {
    if rules != [] {
      NamedRuleStoreIff(args, rules[0]);
      NamedStoreIff(args, rules[1..]);
      assert rules == [rules[0]] + rules[1..];
    }
  }

  // A truthy result is cached exactly if every positional rule's argument is there, defined and none of its values,
  // and every named rule is clear.
  lemma StoreIff(args: seq<Arg>, rules: Rules)
    ensures Decide(args, rules).Store? <==>
            && (forall rule :: rule in rules.single ==>
                  && rule.index < |args| && args[rule.index] != Undefined
                  && forall v :: v in rule.values ==> args[rule.index] != Plain(Str(v)))
            && (forall rule :: rule in rules.named ==> NamedClear(args, rule))
  {
    NamedStoreIff(args, rules.named);
    forall rule | rule in rules.single
      ensures SingleMatches(args, rule) <==>
              !(rule.index < |args| && args[rule.index] != Undefined
                && forall v :: v in rule.values ==> args[rule.index] != Plain(Str(v)))
    {
      if rule.index < |args| && args[rule.index].Plain? && args[rule.index].json.Str? {
        assert args[rule.index] == Plain(Str(args[rule.index].json.s));
      }
    }
  }

  // The rule has a field to look at in an argument that is missing, undefined or null.
  predicate NothingThere(args: seq<Arg>, rule: NamedRule) {
    rule.fields != [] && (rule.index < |args| ==> args[rule.index] == Undefined || args[rule.index] == Plain(Null))
  }

  lemma NothingThereFails(args: seq<Arg>, rule: NamedRule)
    ensures RuleVerdict(args, rule).Fails? <==> NothingThere(args, rule)
  {
    if rule.fields != [] {
      assert rule.fields[|rule.fields| - 1].name in FromEntries(rule.fields);
    }
  }

  ghost predicate FailsAt(args: seq<Arg>, rules: seq<NamedRule>, i: nat) {
    i < |rules| && NothingThere(args, rules[i]) && forall k :: 0 <= k < i ==> NamedClear(args, rules[k])
  }

  lemma FailsLater(args: seq<Arg>, rules: seq<NamedRule>, i: nat)
    requires rules != [] && NamedClear(args, rules[0])
    ensures FailsAt(args, rules[1..], i) <==> FailsAt(args, rules, i + 1)
  {
    assert forall k :: 0 <= k < |rules[1..]| ==> rules[1..][k] == rules[k + 1];
    if FailsAt(args, rules, i + 1) {
      forall k | 0 <= k < i ensures NamedClear(args, rules[1..][k]) {
        assert NamedClear(args, rules[k + 1]);
      }
    }
  }

  lemma {:induction false} NamedFailsIff(args: seq<Arg>, rules: seq<NamedRule>)
    ensures NamedVerdict(args, rules).Fails? <==> exists i: nat :: FailsAt(args, rules, i)
  {
    if rules != [] {
      NamedRuleStoreIff(args, rules[0]);
      NothingThereFails(args, rules[0]);
      NamedFailsIff(args, rules[1..]);
      if RuleVerdict(args, rules[0]).Store? {
        forall i: nat ensures FailsAt(args, rules[1..], i) <==> FailsAt(args, rules, i + 1) {
          FailsLater(args, rules, i);
        }
        assert !FailsAt(args, rules, 0);
        if i: nat :| FailsAt(args, rules, i) {
          assert FailsAt(args, rules[1..], i - 1);
        }
      } else if RuleVerdict(args, rules[0]).Fails? {
        assert FailsAt(args, rules, 0);
      }
    }
  }

  // A truthy result makes the call throw exactly if no positional rule bars it, and the first named rule that is not
  // clear has nothing to look at.
  lemma ThrowsIff(args: seq<Arg>, rules: Rules)
    ensures Decide(args, rules).Fails? <==>
            && (forall rule :: rule in rules.single ==>
                  && rule.index < |args| && args[rule.index] != Undefined
                  && forall v :: v in rule.values ==> args[rule.index] != Plain(Str(v)))
            && exists i: nat :: FailsAt(args, rules.named, i)
  {
    StoreIff(args, Rules(rules.single, []));
    NamedFailsIff(args, rules.named);
  }

  /******* Which calls share a key *******/

  predicate Bare(s: string) {
    '_' !in s
  }

  predicate AllBare(segments: seq<string>) {
    forall i :: 0 <= i < |segments| ==> Bare(segments[i])
  }

  lemma LastUnderscore(a: string, x: string, b: string, y: string)
    requires Bare(x) && Bare(y) && a + "_" + x == b + "_" + y
    ensures a == b && x == y
  {
    var t := a + "_" + x;
    assert t[|a|] == '_' && t[|b|] == '_';
    assert a == t[..|a|] && b == t[..|b|];
    assert x == t[|a| + 1..] && y == t[|b| + 1..];
  }

  lemma {:induction false} JoinedInjective(n: string, s: seq<string>, m: string, t: seq<string>)
    requires Bare(n) && Bare(m) && AllBare(s) && AllBare(t) && Joined(n, s) == Joined(m, t)
    ensures n == m && s == t
    decreases |s|
  {
    if s != [] && t != [] {
      var most, last, most', last' := s[..|s| - 1], s[|s| - 1], t[..|t| - 1], t[|t| - 1];
      LastUnderscore(Joined(n, most), last, Joined(m, most'), last');
      JoinedInjective(n, most, m, most');
      assert s == most + [last] && t == most' + [last'];
    }
  }

  // Without underscores in names and segments, calls share a key exactly when they agree on both.
  lemma SameKeyIff(c: Call, d: Call)
    requires Bare(c.name) && Bare(d.name) && AllBare(Segments(c.args)) && AllBare(Segments(d.args))
    ensures Key(c) == Key(d) <==> c.name == d.name && Segments(c.args) == Segments(d.args)
  {
    if Key(c) == Key(d) {
      JoinedInjective(c.name, Segments(c.args), d.name, Segments(d.args));
    }
  }

  /******* Typed arguments *******/

  datatype Kind = TextKind | NumberKind | BoolKind | ObjectKind | DetailsKind

  predicate JsonTyped(j: Json, kind: Kind) {
    match kind
    case TextKind => j.Str? && j.s != "null" && j.s != "undefined"
    case NumberKind => j.Num? && NumberText(j.text)
    case BoolKind => j.Bool?
    case ObjectKind => (j.Arr? || j.Obj?) && Finite(j)
    case DetailsKind => false
  }

  // An argument of a fixed type, or none.
  predicate Typed(arg: Arg, kind: Kind) {
    if kind.DetailsKind? then arg.Details?
    else arg.Undefined? || arg == Plain(Null) || (arg.Plain? && JsonTyped(arg.json, kind))
  }

  lemma NeverMissing(j: Json, kind: Kind)
    requires JsonTyped(j, kind)
    ensures Segment(Plain(j)) != "null" && Segment(Plain(j)) != "undefined"
  {
    match kind
    case NumberKind =>
      assert "null"[0] == 'n' && "undefined"[0] == 'u';
    case ObjectKind =>
      assert Stringify(j)[0] == '[' || Stringify(j)[0] == '{';
    case _ =>
  }

  lemma SegmentInjective(a: Arg, b: Arg, kind: Kind)
    requires Typed(a, kind) && Typed(b, kind) && !kind.DetailsKind? && Segment(a) == Segment(b)
    ensures a == b
  {
    if a.Plain? && !a.json.Null? {
      NeverMissing(a.json, kind);
    }
    if b.Plain? && !b.json.Null? {
      NeverMissing(b.json, kind);
      if kind.ObjectKind? {
        StringifyInjective(a.json, b.json);
      }
    }
  }

  // The arguments fit a signature: an argument may be missing at the end, but not the request details.
  predicate FitsSignature(args: seq<Arg>, kinds: seq<Kind>) {
    && |args| <= |kinds|
    && (forall i :: 0 <= i < |args| ==> Typed(args[i], kinds[i]))
    && (forall i :: |args| <= i < |kinds| ==> !kinds[i].DetailsKind?)
  }

  // Equal up to the request details.
  predicate SameArgs(a: seq<Arg>, b: seq<Arg>) {
    |a| == |b| && forall i :: 0 <= i < |a| ==> a[i] == b[i] || (a[i].Details? && b[i].Details?)
  }

  function CountPlain(kinds: seq<Kind>): nat {
    if kinds == [] then 0
    else CountPlain(kinds[..|kinds| - 1]) + if kinds[|kinds| - 1].DetailsKind? then 0 else 1
  }

  lemma {:induction false} SegmentsCount(args: seq<Arg>, kinds: seq<Kind>)
    requires |args| == |kinds| && forall i :: 0 <= i < |args| ==> Typed(args[i], kinds[i])
    ensures |Segments(args)| == CountPlain(kinds)
  {
    if args != [] {
      SegmentsCount(args[..|args| - 1], kinds[..|args| - 1]);
    }
  }

  lemma {:induction false} CountPlainGrows(kinds: seq<Kind>, n: nat, m: nat)
    requires n < m <= |kinds| && forall i :: n <= i < m ==> !kinds[i].DetailsKind?
    ensures CountPlain(kinds[..n]) < CountPlain(kinds[..m])
  {
    assert kinds[..m][..m - 1] == kinds[..m - 1];
    if n < m - 1 {
      CountPlainGrows(kinds, n, m - 1);
    }
  }

  lemma {:induction false} SegmentsFix(a: seq<Arg>, b: seq<Arg>, kinds: seq<Kind>)
    requires |a| == |b| == |kinds| && Segments(a) == Segments(b)
    requires forall i :: 0 <= i < |a| ==> Typed(a[i], kinds[i]) && Typed(b[i], kinds[i])
    ensures SameArgs(a, b)
  {
    if a != [] {
      var n := |a| - 1;
      if !kinds[n].DetailsKind? {
        assert Segments(a) == Segments(a[..n]) + [Segment(a[n])];
        assert Segments(b) == Segments(b[..n]) + [Segment(b[n])];
        assert Segments(a)[..|Segments(a)| - 1] == Segments(a[..n]);
        assert Segments(b)[..|Segments(b)| - 1] == Segments(b[..n]);
        assert Segments(a)[|Segments(a)| - 1] == Segment(a[n]) && Segments(b)[|Segments(b)| - 1] == Segment(b[n]);
        SegmentInjective(a[n], b[n], kinds[n]);
      }
      SegmentsFix(a[..n], b[..n], kinds[..n]);
      assert forall i :: 0 <= i < n ==> a[..n][i] == a[i] && b[..n][i] == b[i];
    }
  }

  lemma FittingArgsSame(a: seq<Arg>, b: seq<Arg>, kinds: seq<Kind>)
    requires FitsSignature(a, kinds) && FitsSignature(b, kinds) && Segments(a) == Segments(b)
    ensures SameArgs(a, b)
  {
    SegmentsCount(a, kinds[..|a|]);
    SegmentsCount(b, kinds[..|b|]);
    if |a| < |b| {
      CountPlainGrows(kinds, |a|, |b|);
    } else if |b| < |a| {
      CountPlainGrows(kinds, |b|, |a|);
    }
    SegmentsFix(a, b, kinds[..|a|]);
  }

  // The rules cannot tell apart what a key does not tell apart.
  lemma {:induction false} NamedVerdictSame(a: seq<Arg>, b: seq<Arg>, rules: seq<NamedRule>)
    requires SameArgs(a, b)
    ensures NamedVerdict(a, rules) == NamedVerdict(b, rules)
  {
    if rules != [] {
      var rule := rules[0];
      var skipList := FromEntries(rule.fields);
      if rule.index < |a| {
        assert forall name :: Property(a[rule.index], name) == Property(b[rule.index], name);
        assert forall name ::
          FieldMatches(a[rule.index], skipList, name) == FieldMatches(b[rule.index], skipList, name);
      }
      assert RuleVerdict(a, rule) == RuleVerdict(b, rule);
      NamedVerdictSame(a, b, rules[1..]);
    }
  }

  lemma DecideSame(a: seq<Arg>, b: seq<Arg>, rules: Rules)
    requires SameArgs(a, b)
    ensures Decide(a, rules) == Decide(b, rules)
  {
    assert forall rule :: SingleMatches(a, rule) == SingleMatches(b, rule);
    NamedVerdictSame(a, b, rules.named);
  }

  /******* Runs of decorated calls *******/

  // The decorated methods: their rules, and what they return at a given time.
  datatype Setup = Setup(rules: string -> Rules, results: (nat, Call) -> Value)

  datatype Outcome = Returned(value: Value) | Threw

  // A call between its awaits: looking in the cache, running the method, writing the result.
  datatype Phase = Asking(call: Call) | Running(call: Call) | Storing(call: Call, result: Value)

  datatype Entry = Entry(call: Call, value: Value)

  datatype Done = Done(call: Call, outcome: Outcome, time: nat)

  datatype State = State(time: nat, cache: map<string, Entry>, pending: map<nat, Phase>, done: seq<Done>)

  datatype Step =
    | Begin(id: nat, call: Call)
    | Lookup(id: nat)
    | Finish(id: nat)
    | Write(id: nat)
    | Evict(key: string)
    | Tick

  const START := State(0, map[], map[], [])

  predicate Enabled(s: State, step: Step) {
    match step
    case Begin(id, call) => id !in s.pending
    case Lookup(id) => id in s.pending && s.pending[id].Asking?
    case Finish(id) => id in s.pending && s.pending[id].Running?
    case Write(id) => id in s.pending && s.pending[id].Storing?
    case Evict(key) => key in s.cache
    case Tick => true
  }

  function Leave(s: State, id: nat, call: Call, outcome: Outcome): State {
    s.(pending := s.pending - {id}, done := s.done + [Done(call, outcome, s.time)])
  }

  function VerdictOf(rules: string -> Rules, call: Call): Verdict {
    Decide(call.args, rules(call.name))
  }

  function Next(setup: Setup, s: State, step: Step): State
    requires Enabled(s, step)
  {
    match step
    case Begin(id, call) => s.(pending := s.pending[id := Asking(call)])
    case Lookup(id) =>
      var call := s.pending[id].call;
      if Key(call) in s.cache && TruthyValue(s.cache[Key(call)].value)
      then Leave(s, id, call, Returned(s.cache[Key(call)].value))
      else s.(pending := s.pending[id := Running(call)])
    case Finish(id) =>
      var call := s.pending[id].call;
      var result := setup.results(s.time, call);
      if !TruthyValue(result) then Leave(s, id, call, Returned(result))
      else
        (match VerdictOf(setup.rules, call)
         case Store => s.(pending := s.pending[id := Storing(call, result)])
         case Skip => Leave(s, id, call, Returned(result))
         case Fails => Leave(s, id, call, Threw))
    case Write(id) =>
      var p := s.pending[id];
      Leave(s.(cache := s.cache[Key(p.call) := Entry(p.call, p.result)]), id, p.call, Returned(p.result))
    case Evict(key) => s.(cache := s.cache - {key})
    case Tick => s.(time := s.time + 1)
  }

  predicate Run(setup: Setup, s: State, steps: seq<Step>)
    decreases steps
  {
    steps == [] || (Enabled(s, steps[0]) && Run(setup, Next(setup, s, steps[0]), steps[1..]))
  }

  function Exec(setup: Setup, s: State, steps: seq<Step>): State
    requires Run(setup, s, steps)
    decreases steps
  {
    if steps == [] then s else Exec(setup, Next(setup, s, steps[0]), steps[1..])
  }

  /******* Calls from a given set *******/

  // Two calls that only their request details tell apart.
  predicate SameCall(c: Call, d: Call) {
    c.name == d.name && SameArgs(c.args, d.args)
  }

  // For calls of the set: a result that would be cached never changes again, and no result depends on the request
  // details.
  ghost predicate Stable(setup: Setup, calls: iset<Call>) {
    && (forall t: nat, c: Call ::
          c in calls && TruthyValue(setup.results(t, c)) && VerdictOf(setup.rules, c).Store? ==>
            setup.results(t + 1, c) == setup.results(t, c))
    && (forall t: nat, c: Call, d: Call ::
          c in calls && d in calls && SameCall(c, d) ==> setup.results(t, c) == setup.results(t, d))
  }

  // No call that may be cached shares its key with a different call of the set.
  ghost predicate Separate(rules: string -> Rules, calls: iset<Call>) {
    forall c, d :: c in calls && d in calls && VerdictOf(rules, c).Store? && Key(c) == Key(d) ==> SameCall(c, d)
  }

  // A run from the start in which only calls of the set begin.
  ghost predicate RunOf(setup: Setup, calls: iset<Call>, steps: seq<Step>) {
    Run(setup, START, steps) && forall i :: 0 <= i < |steps| && steps[i].Begin? ==> steps[i].call in calls
  }

  // What a decorated call answers when it leaves.
  function Answer(setup: Setup, time: nat, call: Call): Outcome {
    var result := setup.results(time, call);
    if TruthyValue(result) && VerdictOf(setup.rules, call).Fails? then Threw else Returned(result)
  }

  /******* What the cache holds *******/

  // A call that is in the cache, or about to be.
  ghost predicate Storable(rules: string -> Rules, calls: iset<Call>, call: Call) {
    call in calls && VerdictOf(rules, call).Store?
  }

  // Every entry is under the key of a call of the set that the rules let in.
  ghost predicate Filed(setup: Setup, calls: iset<Call>, s: State) {
    && (forall key :: key in s.cache ==>
          Key(s.cache[key].call) == key && Storable(setup.rules, calls, s.cache[key].call))
    && (forall id :: id in s.pending ==> s.pending[id].call in calls)
    && (forall id :: id in s.pending && s.pending[id].Storing? ==>
          Storable(setup.rules, calls, s.pending[id].call))
  }

  lemma FiledPhase(setup: Setup, calls: iset<Call>, s: State, id: nat, p: Phase)
    requires Filed(setup, calls, s) && p.call in calls
    requires p.Storing? ==> VerdictOf(setup.rules, p.call).Store?
    ensures Filed(setup, calls, s.(pending := s.pending[id := p]))
  {
  }

  lemma FiledLeave(setup: Setup, calls: iset<Call>, s: State, id: nat, call: Call, outcome: Outcome)
    requires Filed(setup, calls, s)
    ensures Filed(setup, calls, Leave(s, id, call, outcome))
  {
  }

  lemma FiledFinish(setup: Setup, calls: iset<Call>, s: State, id: nat)
    requires Filed(setup, calls, s) && Enabled(s, Finish(id))
    ensures Filed(setup, calls, Next(setup, s, Finish(id)))
  {
    var call := s.pending[id].call;
    var result := setup.results(s.time, call);
    FiledLeave(setup, calls, s, id, call, Answer(setup, s.time, call));
    if VerdictOf(setup.rules, call).Store? {
      FiledPhase(setup, calls, s, id, Storing(call, result));
    }
  }

  lemma FiledWrite(setup: Setup, calls: iset<Call>, s: State, id: nat)
    requires Filed(setup, calls, s) && Enabled(s, Write(id))
    ensures Filed(setup, calls, Next(setup, s, Write(id)))
  {
    var p := s.pending[id];
    FiledLeave(setup, calls, s.(cache := s.cache[Key(p.call) := Entry(p.call, p.result)]), id, p.call,
               Returned(p.result));
  }

  lemma FiledLookup(setup: Setup, calls: iset<Call>, s: State, id: nat)
    requires Filed(setup, calls, s) && Enabled(s, Lookup(id))
    ensures Filed(setup, calls, Next(setup, s, Lookup(id)))
  {
    var call := s.pending[id].call;
    if Key(call) in s.cache {
      FiledLeave(setup, calls, s, id, call, Returned(s.cache[Key(call)].value));
    }
    FiledPhase(setup, calls, s, id, Running(call));
  }

  lemma FiledStep(setup: Setup, calls: iset<Call>, s: State, step: Step)
    requires Filed(setup, calls, s) && Enabled(s, step)
    requires step.Begin? ==> step.call in calls
    ensures Filed(setup, calls, Next(setup, s, step))
  {
    match step
    case Begin(id, call) => FiledPhase(setup, calls, s, id, Asking(call));
    case Lookup(id) => FiledLookup(setup, calls, s, id);
    case Finish(id) => FiledFinish(setup, calls, s, id);
    case Write(id) => FiledWrite(setup, calls, s, id);
    case Evict(key) =>
    case Tick =>
  }

  lemma {:induction false} FiledAlways(setup: Setup, calls: iset<Call>, s: State, steps: seq<Step>)
    requires Filed(setup, calls, s) && Run(setup, s, steps)
    requires forall i :: 0 <= i < |steps| && steps[i].Begin? ==> steps[i].call in calls
    ensures Filed(setup, calls, Exec(setup, s, steps))
    decreases steps
  {
    if steps != [] {
      FiledStep(setup, calls, s, steps[0]);
      assert forall i :: 0 <= i < |steps[1..]| ==> steps[1..][i] == steps[i + 1];
      FiledAlways(setup, calls, Next(setup, s, steps[0]), steps[1..]);
    }
  }

  /******* Transparency *******/

  ghost predicate AllAnswered(setup: Setup, s: State) {
    forall d :: d in s.done ==> d.outcome == Answer(setup, d.time, d.call)
  }

  // Whatever the method returns, as long as it is stable, and whatever the interleaving and the evictions.
  ghost predicate Transparent(rules: string -> Rules, calls: iset<Call>) {
    forall setup: Setup, steps :: setup.rules == rules && Stable(setup, calls) && RunOf(setup, calls, steps) ==>
      AllAnswered(setup, Exec(setup, START, steps))
  }

  // Results in the cache, and those about to be, are still what the method returns.
  ghost predicate Current(setup: Setup, s: State) {
    && (forall key :: key in s.cache ==>
          var entry := s.cache[key];
          TruthyValue(entry.value) && setup.results(s.time, entry.call) == entry.value)
    && (forall id :: id in s.pending && s.pending[id].Storing? ==>
          var p := s.pending[id];
          TruthyValue(p.result) && setup.results(s.time, p.call) == p.result)
  }

  ghost predicate Inv(setup: Setup, calls: iset<Call>, s: State) {
    Filed(setup, calls, s) && Current(setup, s) && AllAnswered(setup, s)
  }

  lemma LeaveAnswered(setup: Setup, s: State, id: nat, call: Call, outcome: Outcome)
    requires Current(setup, s) && AllAnswered(setup, s) && outcome == Answer(setup, s.time, call)
    ensures Current(setup, Leave(s, id, call, outcome)) && AllAnswered(setup, Leave(s, id, call, outcome))
  {
  }

  lemma LookupKeeps(setup: Setup, calls: iset<Call>, s: State, id: nat)
    requires Stable(setup, calls) && Separate(setup.rules, calls)
    requires Inv(setup, calls, s) && Enabled(s, Lookup(id))
    ensures var t := Next(setup, s, Lookup(id)); Current(setup, t) && AllAnswered(setup, t)
  {
    var call := s.pending[id].call;
    if Key(call) in s.cache {
      var entry := s.cache[Key(call)];
      assert SameCall(entry.call, call);
      DecideSame(entry.call.args, call.args, setup.rules(call.name));
      LeaveAnswered(setup, s, id, call, Returned(entry.value));
    }
  }

  lemma FinishKeeps(setup: Setup, calls: iset<Call>, s: State, id: nat)
    requires Inv(setup, calls, s) && Enabled(s, Finish(id))
    ensures var t := Next(setup, s, Finish(id)); Current(setup, t) && AllAnswered(setup, t)
  {
    var call := s.pending[id].call;
    LeaveAnswered(setup, s, id, call, Answer(setup, s.time, call));
  }

  lemma WriteKeeps(setup: Setup, calls: iset<Call>, s: State, id: nat)
    requires Inv(setup, calls, s) && Enabled(s, Write(id))
    ensures var t := Next(setup, s, Write(id)); Current(setup, t) && AllAnswered(setup, t)
  {
    var p := s.pending[id];
    var written := s.(cache := s.cache[Key(p.call) := Entry(p.call, p.result)]);
    assert Current(setup, written);
    LeaveAnswered(setup, written, id, p.call, Returned(p.result));
  }

  lemma TickKeeps(setup: Setup, calls: iset<Call>, s: State)
    requires Stable(setup, calls) && Inv(setup, calls, s)
    ensures Current(setup, s.(time := s.time + 1))
  {
  }

  lemma InvStep(setup: Setup, calls: iset<Call>, s: State, step: Step)
    requires Stable(setup, calls) && Separate(setup.rules, calls) && Inv(setup, calls, s) && Enabled(s, step)
    requires step.Begin? ==> step.call in calls
    ensures Inv(setup, calls, Next(setup, s, step))
  {
    FiledStep(setup, calls, s, step);
    match step
    case Begin(id, call) =>
    case Lookup(id) => LookupKeeps(setup, calls, s, id);
    case Finish(id) => FinishKeeps(setup, calls, s, id);
    case Write(id) => WriteKeeps(setup, calls, s, id);
    case Evict(key) =>
    case Tick => TickKeeps(setup, calls, s);
  }

  lemma {:induction false} InvAlways(setup: Setup, calls: iset<Call>, s: State, steps: seq<Step>)
    requires Stable(setup, calls) && Separate(setup.rules, calls) && Inv(setup, calls, s) && Run(setup, s, steps)
    requires forall i :: 0 <= i < |steps| && steps[i].Begin? ==> steps[i].call in calls
    ensures Inv(setup, calls, Exec(setup, s, steps))
    decreases steps
  {
    if steps != [] {
      InvStep(setup, calls, s, steps[0]);
      assert forall i :: 0 <= i < |steps[1..]| ==> steps[1..][i] == steps[i + 1];
      InvAlways(setup, calls, Next(setup, s, steps[0]), steps[1..]);
    }
  }

  /******* Calls that share a key without being the same *******/

  // One answer for a call and those that differ from it in the request details only, another for all else.
  function TwoAnswers(rules: string -> Rules, c: Call): Setup {
    Setup(rules, (t: nat, d: Call) => if SameCall(d, c) then Some(Bool(true)) else Some(Str("other")))
  }

  ghost predicate Reaches(setup: Setup, s: State, steps: seq<Step>, r: State) {
    Run(setup, s, steps) && Exec(setup, s, steps) == r
  }

  lemma OneStep(setup: Setup, s: State, step: Step, more: seq<Step>, r: State)
    requires Enabled(s, step) && Reaches(setup, Next(setup, s, step), more, r)
    ensures Reaches(setup, s, [step] + more, r)
  {
    assert ([step] + more)[1..] == more;
  }

  lemma TwoAnswersStable(rules: string -> Rules, c: Call, calls: iset<Call>)
    ensures Stable(TwoAnswers(rules, c), calls)
  {
    var setup := TwoAnswers(rules, c);
    forall t: nat, a: Call, b: Call | SameCall(a, b)
      ensures setup.results(t, a) == setup.results(t, b)
    {
      assert SameArgs(a.args, c.args) <==> SameArgs(b.args, c.args);
    }
  }

  // The first call runs its method and leaves its result in the cache.
  lemma FirstCallCached(rules: string -> Rules, c: Call)
    requires VerdictOf(rules, c).Store?
    ensures var yes := Some(Bool(true));
      var r := State(0, map[Key(c) := Entry(c, yes)], map[], [Done(c, Returned(yes), 0)]);
      Reaches(TwoAnswers(rules, c), START, [Begin(0, c), Lookup(0), Finish(0), Write(0)], r)
  {
    var setup, yes := TwoAnswers(rules, c), Some(Bool(true));
    assert SameCall(c, c);
    var r := State(0, map[Key(c) := Entry(c, yes)], map[], [Done(c, Returned(yes), 0)]);
    var s1 := State(0, map[], map[0 := Asking(c)], []);
    var s2 := State(0, map[], map[0 := Running(c)], []);
    var s3 := State(0, map[], map[0 := Storing(c, yes)], []);
    assert Next(setup, s3, Write(0)) == r;
    OneStep(setup, s3, Write(0), [], r);
    OneStep(setup, s2, Finish(0), [Write(0)], r);
    OneStep(setup, s1, Lookup(0), [Finish(0), Write(0)], r);
    OneStep(setup, START, Begin(0, c), [Lookup(0), Finish(0), Write(0)], r);
    assert [Begin(0, c)] + [Lookup(0), Finish(0), Write(0)] == [Begin(0, c), Lookup(0), Finish(0), Write(0)];
  }

  lemma {:induction false} ExecSplit(setup: Setup, s: State, first: seq<Step>, second: seq<Step>, m: State, r: State)
    requires Reaches(setup, s, first, m) && Reaches(setup, m, second, r)
    ensures Reaches(setup, s, first + second, r)
    decreases first
  {
    if first == [] {
      assert first + second == second;
    } else {
      ExecSplit(setup, Next(setup, s, first[0]), first[1..], second, m, r);
      assert (first + second)[1..] == first[1..] + second;
    }
  }

  // Any two such calls can be told apart by a method whose results never change, and then the second call is
  // answered with the result of the first.
  lemma SharedKeyMixesUp(rules: string -> Rules, c: Call, d: Call) returns (steps: seq<Step>)
    requires Key(c) == Key(d) && !SameCall(c, d) && VerdictOf(rules, c).Store?
    ensures var setup := TwoAnswers(rules, c);
      && Stable(setup, iset{c, d}) && RunOf(setup, iset{c, d}, steps)
      && Done(d, Returned(Some(Bool(true))), 0) in Exec(setup, START, steps).done
      && setup.results(0, d) == Some(Str("other"))
  {
    var setup, yes := TwoAnswers(rules, c), Some(Bool(true));
    TwoAnswersStable(rules, c, iset{c, d});
    FirstCallCached(rules, c);
    var first := [Begin(0, c), Lookup(0), Finish(0), Write(0)];
    var m := State(0, map[Key(c) := Entry(c, yes)], map[], [Done(c, Returned(yes), 0)]);
    var m1 := m.(pending := map[1 := Asking(d)]);
    var r := m.(done := m.done + [Done(d, Returned(yes), 0)]);
    assert Next(setup, m, Begin(1, d)) == m1;
    assert Next(setup, m1, Lookup(1)) == r;
    OneStep(setup, m1, Lookup(1), [], r);
    OneStep(setup, m, Begin(1, d), [Lookup(1)], r);
    ExecSplit(setup, START, first, [Begin(1, d)] + [Lookup(1)], m, r);
    steps := first + ([Begin(1, d)] + [Lookup(1)]);
    assert SameArgs(d.args, c.args) ==> SameArgs(c.args, d.args);
    assert r.done[1] in r.done;
  }

  /******* When caching is transparent *******/

  // Any rules, any set of calls: every answer is right, whatever the stable results, the interleaving and the
  // evictions, exactly if no call of the set that may be cached shares its key with a different call of the set.
  lemma TransparentIff(rules: string -> Rules, calls: iset<Call>)
    ensures Transparent(rules, calls) <==> Separate(rules, calls)
  {
    if Separate(rules, calls) {
      forall setup: Setup, steps | setup.rules == rules && Stable(setup, calls) && RunOf(setup, calls, steps)
        ensures AllAnswered(setup, Exec(setup, START, steps))
      {
        InvAlways(setup, calls, START, steps);
      }
    } else {
      var c, d :| c in calls && d in calls && VerdictOf(rules, c).Store? && Key(c) == Key(d) && !SameCall(c, d);
      var setup := TwoAnswers(rules, c);
      var steps := SharedKeyMixesUp(rules, c, d);
      TwoAnswersStable(rules, c, calls);
      assert RunOf(setup, calls, steps);
    }
  }

  // Any rules, any set of calls, any call, in particular one that the rules keep out: no run ever has an entry under
  // its key, whatever the results, exactly if no call of the set that may be cached has that key.
  lemma SkippedNeverCachedIff(rules: string -> Rules, calls: iset<Call>, call: Call)
    ensures (forall setup: Setup, steps :: setup.rules == rules && RunOf(setup, calls, steps) ==>
               Key(call) !in Exec(setup, START, steps).cache) <==>
            (forall c :: Storable(rules, calls, c) ==> Key(c) != Key(call))
  {
    if c :| Storable(rules, calls, c) && Key(c) == Key(call) {
      FirstCallCached(rules, c);
      var setup, steps := TwoAnswers(rules, c), [Begin(0, c), Lookup(0), Finish(0), Write(0)];
      assert RunOf(setup, calls, steps) && Key(call) in Exec(setup, START, steps).cache;
    } else {
      forall setup: Setup, steps | setup.rules == rules && RunOf(setup, calls, steps)
        ensures Key(call) !in Exec(setup, START, steps).cache
      {
        FiledAlways(setup, calls, START, steps);
      }
    }
  }

  /******* Calls of typed methods *******/

  predicate Fits(kinds: string -> seq<Kind>, call: Call) {
    Bare(call.name) && AllBare(Segments(call.args)) && FitsSignature(call.args, kinds(call.name))
  }

  ghost function Fitting(kinds: string -> seq<Kind>): iset<Call> {
    iset call | Fits(kinds, call)
  }

  lemma FittingCallsSame(rules: string -> Rules, kinds: string -> seq<Kind>, c: Call, d: Call)
    requires Fits(kinds, c) && Fits(kinds, d) && Key(c) == Key(d)
    ensures SameCall(c, d) && VerdictOf(rules, c) == VerdictOf(rules, d)
  {
    SameKeyIff(c, d);
    FittingArgsSame(c.args, d.args, kinds(c.name));
    DecideSame(c.args, d.args, rules(c.name));
  }

  // Calls without underscores that fit the types of their methods: a decorated call returns what the method would
  // return at that moment, exactly unless a truthy result meets a rule for a field of an argument that is not there.
  lemma FittingTransparent(setup: Setup, kinds: string -> seq<Kind>, steps: seq<Step>, i: nat)
    requires Stable(setup, Fitting(kinds)) && RunOf(setup, Fitting(kinds), steps)
    requires i < |Exec(setup, START, steps).done|
    ensures var d := Exec(setup, START, steps).done[i];
      var now := setup.results(d.time, d.call);
      d.outcome == Returned(now) <==> !(TruthyValue(now) && VerdictOf(setup.rules, d.call).Fails?)
  {
    forall c, d | Fits(kinds, c) && Fits(kinds, d) && Key(c) == Key(d) ensures SameCall(c, d) {
      FittingCallsSame(setup.rules, kinds, c, d);
    }
    TransparentIff(setup.rules, Fitting(kinds));
    var d := Exec(setup, START, steps).done[i];
    assert d in Exec(setup, START, steps).done;
  }

  // No entry ever exists for such a call that the rules keep out, even if results change.
  lemma SkippedNeverCached(setup: Setup, kinds: string -> seq<Kind>, steps: seq<Step>, call: Call)
    requires RunOf(setup, Fitting(kinds), steps)
    requires Fits(kinds, call) && !VerdictOf(setup.rules, call).Store?
    ensures Key(call) !in Exec(setup, START, steps).cache
  {
    forall c | Storable(setup.rules, Fitting(kinds), c) ensures Key(c) != Key(call) {
      if Key(c) == Key(call) {
        FittingCallsSame(setup.rules, kinds, c, call);
      }
    }
    SkippedNeverCachedIff(setup.rules, Fitting(kinds), call);
  }

  // A positional rule whose argument is missing, undefined or one of its values: no run ever has an entry under the
  // key of a typed call it applies to.
  lemma BarredNeverCached(setup: Setup, kinds: string -> seq<Kind>, steps: seq<Step>, call: Call, rule: SingleRule)
    requires RunOf(setup, Fitting(kinds), steps) && Fits(kinds, call)
    requires rule in setup.rules(call.name).single
    requires rule.index < |call.args| ==>
               || call.args[rule.index] == Undefined
               || exists v :: v in rule.values && call.args[rule.index] == Plain(Str(v))
    ensures Key(call) !in Exec(setup, START, steps).cache
  {
    StoreIff(call.args, setup.rules(call.name));
    SkippedNeverCached(setup, kinds, steps, call);
  }

  // The same for a named rule, one of whose fields has one of the values that count for it.
  lemma NamedNeverCached(setup: Setup, kinds: string -> seq<Kind>, steps: seq<Step>, call: Call, rule: NamedRule,
      j: nat, v: string)
    requires RunOf(setup, Fitting(kinds), steps) && Fits(kinds, call)
    requires rule in setup.rules(call.name).named && LastField(rule.fields, j) && v in rule.fields[j].values
    requires rule.index < |call.args| && call.args[rule.index].Plain?
    requires GetProperty(call.args[rule.index].json, rule.fields[j].name) == Some(Str(v))
    ensures Key(call) !in Exec(setup, START, steps).cache
  {
    StoreIff(call.args, setup.rules(call.name));
    SkippedNeverCached(setup, kinds, steps, call);
  }

  // A falsy result is returned and never written.
  lemma FalsyIsReturned(setup: Setup, s: State, id: nat)
    requires Enabled(s, Finish(id))
    requires setup.results(s.time, s.pending[id].call) in
               {None, Some(Null), Some(Bool(false)), Some(Num("0")), Some(Str(""))}
    ensures var call := s.pending[id].call;
      Next(setup, s, Finish(id)) == s.(pending := s.pending - {id},
        done := s.done + [Done(call, Returned(setup.results(s.time, call)), s.time)])
  {
  }

  // Any other result that no rule bars is written under the call's key and returned.
  lemma ClearIsWritten(setup: Setup, s: State, id: nat)
    requires Enabled(s, Finish(id))
    requires setup.results(s.time, s.pending[id].call) !in
               {None, Some(Null), Some(Bool(false)), Some(Num("0")), Some(Str(""))}
    requires var args, rules := s.pending[id].call.args, setup.rules(s.pending[id].call.name);
      && (forall rule :: rule in rules.single ==>
            && rule.index < |args| && args[rule.index] != Undefined
            && forall v :: v in rule.values ==> args[rule.index] != Plain(Str(v)))
      && (forall rule :: rule in rules.named ==> NamedClear(args, rule))
    ensures var call, result := s.pending[id].call, setup.results(s.time, s.pending[id].call);
      var t := Next(setup, s, Finish(id));
      && Enabled(t, Write(id)) && var u := Next(setup, t, Write(id));
      && Key(call) in u.cache && u.cache[Key(call)].value == result
      && u.done == s.done + [Done(call, Returned(result), s.time)]
  {
    StoreIff(s.pending[id].call.args, setup.rules(s.pending[id].call.name));
  }

  // Calls that share a key: a text and the primitive value it looks like.
  lemma TextSharesKey(name: string, arg: Arg, text: string)
    requires (arg, text) in {(Undefined, "undefined"), (Plain(Null), "null"), (Plain(Bool(true)), "true"),
               (Plain(Bool(false)), "false")} || arg == Plain(Num(text))
    ensures Key(Call(name, [arg])) == Key(Call(name, [Plain(Str(text))])) == name + "_" + text
  {
    OneArg(name, arg);
    OneArg(name, Plain(Str(text)));
  }

  function BlockCall(text: string, id: nat): Call {
    Call("getBlockByNumber", [Plain(Str(text)), Plain(Bool(false)), Details(id)])
  }

  // A lookup by block number or tag, with a rule that keeps out the moving tags: its calls fit the method's types, and
  // exactly those for another text than such a tag are cached.
  lemma BlockTags(kinds: string -> seq<Kind>, rules: string -> Rules, text: string, id: nat)
    requires kinds("getBlockByNumber") == [TextKind, BoolKind, DetailsKind]
    requires rules("getBlockByNumber") == Rules([SingleRule(0, ["latest", "pending"])], [])
    requires '_' !in text && text != "null" && text != "undefined"
    ensures Fits(kinds, BlockCall(text, id))
    ensures VerdictOf(rules, BlockCall(text, id)) == if text == "latest" || text == "pending" then Skip else Store
  {
    BlockFits(kinds, text, id);
    BlockVerdict(text, id);
  }

  lemma BlockFits(kinds: string -> seq<Kind>, text: string, id: nat)
    requires kinds("getBlockByNumber") == [TextKind, BoolKind, DetailsKind]
    requires '_' !in text && text != "null" && text != "undefined"
    ensures Fits(kinds, BlockCall(text, id))
  {
    BlockSegments(text, id);
    assert Bare("getBlockByNumber") && Bare("false");
    var args := BlockCall(text, id).args;
    assert Typed(args[0], TextKind) && Typed(args[1], BoolKind) && Typed(args[2], DetailsKind);
  }

  lemma BlockVerdict(text: string, id: nat)
    ensures Decide(BlockCall(text, id).args, Rules([SingleRule(0, ["latest", "pending"])], [])) ==
            if text == "latest" || text == "pending" then Skip else Store
  {
    var args, values := BlockCall(text, id).args, ["latest", "pending"];
    assert values[0] == "latest" && values[1] == "pending";
    assert text in values <==> text == "latest" || text == "pending";
    var rules := [SingleRule(0, values)];
    assert rules[0] in rules && forall rule :: rule in rules ==> rule == rules[0];
    assert SingleMatches(args, rules[0]) <==> text in values;
  }

  lemma BlockSegments(text: string, id: nat)
    ensures Segments([Plain(Str(text)), Plain(Bool(false)), Details(id)]) == [text, "false"]
  {
    var args := [Plain(Str(text)), Plain(Bool(false)), Details(id)];
    assert args[..2] == [Plain(Str(text)), Plain(Bool(false))];
    assert args[..2][..1] == [Plain(Str(text))];
    assert args[..2][..1][..0] == [];
    assert Segments(args[..2][..1]) == [text];
  }

  // Calls that share a key: one argument with an underscore against two, and a text against a number.
  lemma SharedKeys(name: string)
    ensures Key(Call(name, [Plain(Str("a_b"))])) == Key(Call(name, [Plain(Str("a")), Plain(Str("b"))]))
    ensures Key(Call(name, [Plain(Str("1"))])) == Key(Call(name, [Plain(Num("1"))]))
  {
    OneArg(name, Plain(Str("a_b")));
    OneArg(name, Plain(Str("1")));
    OneArg(name, Plain(Num("1")));
    OneArg(name, Plain(Str("a")));
    var two := [Plain(Str("a")), Plain(Str("b"))];
    assert two[..1] == [Plain(Str("a"))];
    assert ["a", "b"][..1] == ["a"];
    assert Joined(name, ["a", "b"]) == Joined(name, ["a"]) + "_" + "b";
    assert name + "_" + "a" + "_" + "b" == name + "_" + "a_b";
  }

  lemma OneArg(name: string, arg: Arg)
    requires !arg.Details?
    ensures Segments([arg]) == [Segment(arg)]
    ensures Key(Call(name, [arg])) == Joined(name, [Segment(arg)]) == name + "_" + Segment(arg)
  {
    assert [arg][..0] == [];
    assert [Segment(arg)][..0] == [];
  }

  /******* The decorator *******/

  class Decorated {
    const setup: Setup
    var time: nat
    var cache: map<string, Entry>
    var pending: map<nat, Phase>
    var done: seq<Done>

    ghost function View(): State
      reads this
    {
      State(time, cache, pending, done)
    }

    constructor (setup: Setup)
      ensures View() == START && this.setup == setup
    {
      this.setup := setup;
      time, cache, pending, done := 0, map[], map[], [];
    }

    static method GenerateCacheKey(name: string, args: seq<Arg>) returns (cacheKey: string)
      ensures cacheKey == Key(Call(name, args))
    {
      cacheKey := name;
      for i := 0 to |args|
        invariant cacheKey == Joined(name, Segments(args[..i]))
      {
        assert args[..i + 1][..i] == args[..i];
        if !args[i].Details? {
          ghost var was := Segments(args[..i]);
          assert (was + [Segment(args[i])])[..|was|] == was;
          cacheKey := cacheKey + "_" + Segment(args[i]);
        }
      }
      assert args[..|args|] == args;
    }

    static method ShouldSkipForSingleParams(args: seq<Arg>, params: seq<SingleRule>) returns (skip: bool)
      ensures skip == SingleSkips(args, params)
      ensures skip <==> exists rule :: rule in params && (
                rule.index < |args| ==>
                  || args[rule.index] == Undefined
                  || exists v :: v in rule.values && args[rule.index] == Plain(Str(v)))
    {
      StoreIff(args, Rules(params, []));
      for i := 0 to |params|
        invariant forall k :: 0 <= k < i ==> !SingleMatches(args, params[k])
      {
        if SingleMatches(args, params[i]) {
          assert params[i] in params;
          return true;
        }
      }
      return false;
    }

    static method ShouldSkipForNamedParams(args: seq<Arg>, params: seq<NamedRule>) returns (verdict: Verdict)
      ensures verdict == NamedVerdict(args, params)
      ensures verdict.Store? <==> forall rule :: rule in params ==> NamedClear(args, rule)
      ensures verdict.Fails? <==> exists i: nat :: FailsAt(args, params, i)
    {
      NamedStoreIff(args, params);
      NamedFailsIff(args, params);
      for i := 0 to |params|
        invariant NamedVerdict(args, params) == NamedVerdict(args, params[i..])
      {
        assert params[i..][1..] == params[i + 1..];
        var skipList := FromEntries(params[i].fields);
        var names := skipList.Keys;
        if names != {} && Nullish(args, params[i].index) {
          return Fails;
        }
        while names != {}
          invariant names <= skipList.Keys
          invariant names != {} ==> !Nullish(args, params[i].index)
          invariant forall name :: name in skipList && name !in names ==>
            !FieldMatches(args[params[i].index], skipList, name)
          decreases names
        {
          var name :| name in names;
          if FieldMatches(args[params[i].index], skipList, name) {
            return Skip;
          }
          names := names - {name};
        }
      }
      return Store;
    }

    // The wrapper up to the first await.
    method BeginCall(id: nat, call: Call)
      requires Enabled(View(), Begin(id, call))
      modifies this
      ensures View() == Next(setup, old(View()), Begin(id, call))
    {
      pending := pending[id := Asking(call)];
    }

    // From the answer of the cache to the next await.
    method LookUp(id: nat)
      requires Enabled(View(), Lookup(id))
      modifies this
      ensures View() == Next(setup, old(View()), Lookup(id))
    {
      var call := pending[id].call;
      var cacheKey := GenerateCacheKey(call.name, call.args);
      if cacheKey in cache && TruthyValue(cache[cacheKey].value) {
        pending := pending - {id};
        done := done + [Done(call, Returned(cache[cacheKey].value), time)];
        return;
      }
      pending := pending[id := Running(call)];
    }

    // From the result of the method to the write, if there is one.
    method FinishMethod(id: nat)
      requires Enabled(View(), Finish(id))
      modifies this
      ensures View() == Next(setup, old(View()), Finish(id))
    {
      var call := pending[id].call;
      var result := setup.results(time, call);
      if TruthyValue(result) {
        var rules := setup.rules(call.name);
        var skip := ShouldSkipForSingleParams(call.args, rules.single);
        if !skip {
          var verdict := ShouldSkipForNamedParams(call.args, rules.named);
          if verdict.Store? {
            pending := pending[id := Storing(call, result)];
            return;
          }
          if verdict.Fails? {
            pending := pending - {id};
            done := done + [Done(call, Threw, time)];
            return;
          }
        }
      }
      pending := pending - {id};
      done := done + [Done(call, Returned(result), time)];
    }

    method WriteResult(id: nat)
      requires Enabled(View(), Write(id))
      modifies this
      ensures View() == Next(setup, old(View()), Write(id))
    {
      var call, result := pending[id].call, pending[id].result;
      var cacheKey := GenerateCacheKey(call.name, call.args);
      cache := cache[cacheKey := Entry(call, result)];
      pending := pending - {id};
      done := done + [Done(call, Returned(result), time)];
    }
  }
}
