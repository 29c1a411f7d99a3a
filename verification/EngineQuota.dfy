/** The subscription quota of a connection, and the connection counts per address. */
module EngineQuota {
  import opened Wrappers
  import opened Subscriptions
  import opened PollerServiceModel
  import opened Engine

  /******* Live subscriptions under subscribe and unsubscribe *******/

  lemma KeepCounts(subs: seq<Subscriber>, conn: nat, sel: Option<nat>, c: nat)
    ensures CountSelected(Keep(subs, conn, sel), c, None) + (if c == conn then CountSelected(subs, conn, sel) else 0)
            == CountSelected(subs, c, None)
  {
    if subs != [] {
      var rest := Keep(subs[..|subs| - 1], conn, sel);
      var last := subs[|subs| - 1];
      KeepCounts(subs[..|subs| - 1], conn, sel, c);
      assert (rest + [last])[..|rest|] == rest;
    }
  }

  lemma TallyKept(subs: map<Tag, seq<Subscriber>>, tags: set<Tag>, conn: nat, sel: Option<nat>, c: nat)
    requires tags <= subs.Keys
    ensures Tally(Remaining(subs, conn, sel), tags, c, None) + (if c == conn then Tally(subs, tags, conn, sel) else 0)
            == Tally(subs, tags, c, None)
  {
    if tags != {} {
      var tag :| tag in tags;
      TallySplit(Remaining(subs, conn, sel), tags, tag, c, None);
      TallySplit(subs, tags, tag, conn, sel);
      TallySplit(subs, tags, tag, c, None);
      KeepCounts(subs[tag], conn, sel, c);
      TallyKept(subs, tags - {tag}, conn, sel, c);
    }
  }

  lemma TallyIgnoresMissing(subs: map<Tag, seq<Subscriber>>, tags: set<Tag>, c: nat)
    requires subs.Keys <= tags
    ensures Tally(subs, tags, c, None) == Tally(subs, subs.Keys, c, None)
    decreases tags - subs.Keys
  {
    if tags - subs.Keys != {} {
      var tag :| tag in tags - subs.Keys;
      TallySplit(subs, tags, tag, c, None);
      TallyIgnoresMissing(subs, tags - {tag}, c);
    } else {
      forall tag | tag in tags ensures tag in subs.Keys {
        assert tag !in tags - subs.Keys;
      }
      assert tags == subs.Keys;
    }
  }

  // Removing subscriptions takes exactly the selected ones from their connection, none from others.
  lemma LiveAfterUnsubscribe(svc: Service, conn: nat, sel: Option<nat>, c: nat)
    ensures LiveOf(Unsubscribe(svc, conn, sel), c, None) + (if c == conn then LiveOf(svc, conn, sel) else 0)
            == LiveOf(svc, c, None)
  {
    TallyKept(svc.subs, svc.subs.Keys, conn, sel, c);
    TallyIgnoresMissing(Remaining(svc.subs, conn, sel), svc.subs.Keys, c);
  }

  lemma LiveAfterSubscribe(svc: Service, same: bool, conn: nat, tag: Tag, id: nat, c: nat)
    ensures LiveOf(Subscribe(svc, same, conn, tag, id), c, None) ==
            LiveOf(svc, c, None) + (if c == conn && !IsDuplicate(svc, same, conn, tag) then 1 else 0)
  {
    if !IsDuplicate(svc, same, conn, tag) {
      var after := Subscribe(svc, same, conn, tag, id).subs;
      var keys := svc.subs.Keys + {tag};
      assert after.Keys == keys;
      TallySplit(after, keys, tag, c, None);
      TallySplit(svc.subs, keys, tag, c, None);
      TallyAgrees(after, svc.subs, keys - {tag}, c, None);
      TallyIgnoresMissing(svc.subs, keys, c);
      var list := SubsOf(svc.subs, tag);
      assert (list + [Subscriber(conn, id)])[..|list|] == list;
    }
  }

  /******* The ledger *******/

  function InFlight(s: State, conn: nat): set<nat> {
    set r | r in s.pending && s.pending[r].conn == conn
  }

  function Uncounted(s: State, conn: nat): set<nat> {
    set r | r in s.pending && s.pending[r].conn == conn && s.pending[r].registered
  }

  function Counter(s: State, conn: nat): int {
    if conn in s.lim.sockets then s.lim.sockets[conn].subscriptions else 0
  }

  ghost predicate KnownConnections(s: State) {
    && s.open <= s.lim.sockets.Keys
    && (forall r :: r in s.pending ==> r < s.nextReq && s.pending[r].conn in s.lim.sockets)
  }

  ghost predicate Balanced(s: State, conn: nat) {
    Counter(s, conn) + |Uncounted(s, conn)|
    == LiveOf(s.svc, conn, None) + At(s.book.repeats, conn) + At(s.book.released, conn)
  }

  lemma SizeWithout<T>(a: set<T>, x: T)
    ensures |a - {x}| == |a| - (if x in a then 1 else 0)
  {
    if x in a {
      assert a == a - {x} + {x};
    } else {
      assert a - {x} == a;
    }
  }

  lemma UncountedChange(s: State, t: State, conn: nat, r: nat)
    requires r in s.pending
    requires forall q :: q != r ==>
      (q in s.pending <==> q in t.pending) && (q in s.pending ==> t.pending[q] == s.pending[q])
    ensures |Uncounted(t, conn)| - (if r in Uncounted(t, conn) then 1 else 0)
            == |Uncounted(s, conn)| - (if r in Uncounted(s, conn) then 1 else 0)
  {
    forall q ensures q in Uncounted(t, conn) - {r} <==> q in Uncounted(s, conn) - {r} {
      assert q != r ==> (q in s.pending <==> q in t.pending);
    }
    assert Uncounted(t, conn) - {r} == Uncounted(s, conn) - {r};
    SizeWithout(Uncounted(t, conn), r);
    SizeWithout(Uncounted(s, conn), r);
  }

  lemma KnownStep(cfg: Config, s: State, step: Step)
    requires KnownConnections(s)
    ensures KnownConnections(Next(cfg, s, step))
  {
    if Enabled(cfg, s, step) && step.ReadHead? {
      ReadHeadAdds(cfg, s, step.head);
    }
  }

  lemma BalancedFrame(s: State, t: State, conn: nat)
    requires Balanced(s, conn)
    requires Uncounted(t, conn) == Uncounted(s, conn) && Counter(t, conn) == Counter(s, conn)
    requires t.svc.subs == s.svc.subs
    requires At(t.book.repeats, conn) == At(s.book.repeats, conn)
    requires At(t.book.released, conn) == At(s.book.released, conn)
    ensures Balanced(t, conn)
  {
  }

  lemma BalancedClose(cfg: Config, s: State, c: nat, conn: nat)
    requires c in s.lim.sockets && Balanced(s, conn)
    ensures Balanced(Close(s, c), conn)
  {
    LiveAfterUnsubscribe(s.svc, c, None, conn);
    assert Uncounted(Close(s, c), conn) == Uncounted(s, conn);
  }

  lemma BalancedRegister(cfg: Config, s: State, c: nat, tag: Tag, conn: nat)
    ensures var t := Register(cfg, s, c, tag);
            LiveOf(t.svc, conn, None) + At(t.book.repeats, conn)
            == LiveOf(s.svc, conn, None) + At(s.book.repeats, conn) + (if c == conn then 1 else 0)
  {
    LiveAfterSubscribe(s.svc, cfg.sameSub, c, tag, s.nextId, conn);
  }

  lemma BalancedValidation(cfg: Config, s: State, r: nat, valid: bool, conn: nat)
    requires Enabled(cfg, s, FinishValidation(r, valid)) && Balanced(s, conn)
    ensures Balanced(Apply(cfg, s, FinishValidation(r, valid)), conn)
  {
    UncountedChange(s, Apply(cfg, s, FinishValidation(r, valid)), conn, r);
    if valid {
      BalancedRegister(cfg, s, s.pending[r].conn, s.pending[r].tag, conn);
    }
  }

  lemma BalancedHeads(cfg: Config, s: State, c: nat, filters: string, conn: nat)
    requires Enabled(cfg, s, RequestNewHeads(c, filters)) && Balanced(s, conn)
    ensures Balanced(Apply(cfg, s, RequestNewHeads(c, filters)), conn)
  {
    BalancedRegister(cfg, s, c, Tag(NewHeads, filters), conn);
    assert Uncounted(Apply(cfg, s, RequestNewHeads(c, filters)), conn) == Uncounted(s, conn);
  }

  lemma BalancedUnsubscribe(cfg: Config, s: State, c: nat, sel: Option<nat>, conn: nat)
    requires KnownConnections(s)
    requires Enabled(cfg, s, RequestUnsubscribe(c, sel)) && Balanced(s, conn)
    ensures Balanced(Apply(cfg, s, RequestUnsubscribe(c, sel)), conn)
  {
    LiveAfterUnsubscribe(s.svc, c, sel, conn);
    assert Uncounted(Apply(cfg, s, RequestUnsubscribe(c, sel)), conn) == Uncounted(s, conn);
  }

  lemma BalancedOther(cfg: Config, s: State, step: Step, conn: nat)
    requires KnownConnections(s) && Balanced(s, conn) && Enabled(cfg, s, step)
    requires !ChangesSubs(step) && !step.CountSubscription?
    ensures Balanced(Apply(cfg, s, step), conn)
  {
    if step.ReadHead? {
      ReadHeadAdds(cfg, s, step.head);
    }
    BalancedFrame(s, Apply(cfg, s, step), conn);
  }

  lemma BalancedStep(cfg: Config, s: State, step: Step, conn: nat)
    requires KnownConnections(s) && Balanced(s, conn)
    ensures Balanced(Next(cfg, s, step), conn)
  {
    if Enabled(cfg, s, step) {
      if step.CloseConnection? {
        BalancedClose(cfg, s, step.conn, conn);
      } else if step.FinishValidation? {
        BalancedValidation(cfg, s, step.req, step.valid, conn);
      } else if step.CountSubscription? {
        UncountedChange(s, Apply(cfg, s, step), conn, step.req);
      } else if step.RequestNewHeads? {
        BalancedHeads(cfg, s, step.conn, step.filters, conn);
      } else if step.RequestUnsubscribe? {
        BalancedUnsubscribe(cfg, s, step.conn, step.sel, conn);
      } else {
        BalancedOther(cfg, s, step, conn);
      }
    }
  }

  // Every run, every connection: counter + registered but not yet counted
  // = live subscriptions + repeated subscribes + subscriptions removed by closing.
  lemma {:induction false} LedgerAlways(cfg: Config, steps: seq<Step>, conn: nat)
    ensures KnownConnections(Run(cfg, steps))
    ensures Balanced(Run(cfg, steps), conn)
  {
    if steps != [] {
      var s := Run(cfg, steps[..|steps| - 1]);
      LedgerAlways(cfg, steps[..|steps| - 1], conn);
      KnownStep(cfg, s, steps[|steps| - 1]);
      BalancedStep(cfg, s, steps[|steps| - 1], conn);
    } else {
      assert Uncounted(Init(), conn) == {};
    }
  }

  // The ledger without its last term: the counter is exact, up to requests under way and repeats.
  ghost predicate CounterExact(s: State, conn: nat) {
    Counter(s, conn) + |Uncounted(s, conn)| == LiveOf(s.svc, conn, None) + At(s.book.repeats, conn)
  }

  // Only closed connections have had subscriptions removed by closing, and a closed one is not opened again.
  ghost predicate ReleasedClosed(s: State) {
    forall c :: c in s.book.released ==> c in s.lim.sockets && c !in s.open
  }

  lemma ReleasedStep(cfg: Config, s: State, step: Step)
    requires ReleasedClosed(s)
    ensures ReleasedClosed(Next(cfg, s, step))
  {
    if Enabled(cfg, s, step) && step.ReadHead? {
      ReadHeadAdds(cfg, s, step.head);
    }
  }

  lemma {:induction false} ReleasedAlways(cfg: Config, steps: seq<Step>)
    ensures ReleasedClosed(Run(cfg, steps))
  {
    if steps != [] {
      ReleasedAlways(cfg, steps[..|steps| - 1]);
      ReleasedStep(cfg, Run(cfg, steps[..|steps| - 1]), steps[|steps| - 1]);
    }
  }

  // Every run: the counter of an open connection is exact.
  lemma OpenCounterExact(cfg: Config, steps: seq<Step>, conn: nat)
    requires conn in Run(cfg, steps).open
    ensures CounterExact(Run(cfg, steps), conn)
  {
    LedgerAlways(cfg, steps, conn);
    ReleasedAlways(cfg, steps);
  }

  // Closing leaves it exact if and only if the connection has no live subscription: it does not touch the counter.
  lemma CloseKeepsExactIff(cfg: Config, steps: seq<Step>, conn: nat)
    requires Enabled(cfg, Run(cfg, steps), CloseConnection(conn))
    ensures CounterExact(Next(cfg, Run(cfg, steps), CloseConnection(conn)), conn) <==>
            LiveOf(Run(cfg, steps).svc, conn, None) == 0
  {
    var s := Run(cfg, steps);
    LedgerAlways(cfg, steps, conn);
    ReleasedAlways(cfg, steps);
    BalancedClose(cfg, s, conn, conn);
  }

  // Every time the connection was closed it had no live subscription.
  ghost predicate ClosedIdle(cfg: Config, steps: seq<Step>, conn: nat) {
    steps != [] ==>
      var s, step := Run(cfg, steps[..|steps| - 1]), steps[|steps| - 1];
      && ClosedIdle(cfg, steps[..|steps| - 1], conn)
      && (step == CloseConnection(conn) && Enabled(cfg, s, step) ==> LiveOf(s.svc, conn, None) == 0)
  }

  lemma ReleasedKept(cfg: Config, s: State, step: Step, conn: nat)
    ensures At(Next(cfg, s, step).book.released, conn) == At(s.book.released, conn) +
            if step == CloseConnection(conn) && Enabled(cfg, s, step) then LiveOf(s.svc, conn, None) else 0
  {
    if Enabled(cfg, s, step) && step.ReadHead? {
      ReadHeadAdds(cfg, s, step.head);
    }
  }

  lemma {:induction false} ReleasedNothing(cfg: Config, steps: seq<Step>, conn: nat)
    ensures At(Run(cfg, steps).book.released, conn) == 0 <==> ClosedIdle(cfg, steps, conn)
  {
    if steps != [] {
      ReleasedNothing(cfg, steps[..|steps| - 1], conn);
      ReleasedKept(cfg, Run(cfg, steps[..|steps| - 1]), steps[|steps| - 1], conn);
    }
  }

  // Every run, every connection, open or closed: the counter is exact if and only if the connection was not closed
  // with live subscriptions.
  lemma CounterExactIff(cfg: Config, steps: seq<Step>, conn: nat)
    ensures CounterExact(Run(cfg, steps), conn) <==> ClosedIdle(cfg, steps, conn)
  {
    LedgerAlways(cfg, steps, conn);
    ReleasedNothing(cfg, steps, conn);
  }

  // The step registers a subscribe of the connection that repeats one it has.
  ghost predicate RegistersRepeat(cfg: Config, s: State, step: Step, conn: nat) {
    Enabled(cfg, s, step) &&
      match step
      case FinishValidation(req, valid) =>
        valid && s.pending[req].conn == conn && IsDuplicate(s.svc, cfg.sameSub, conn, s.pending[req].tag)
      case RequestNewHeads(c, filters) => c == conn && IsDuplicate(s.svc, cfg.sameSub, conn, Tag(NewHeads, filters))
      case _ => false
  }

  ghost predicate NeverRepeated(cfg: Config, steps: seq<Step>, conn: nat) {
    steps != [] ==>
      && NeverRepeated(cfg, steps[..|steps| - 1], conn)
      && !RegistersRepeat(cfg, Run(cfg, steps[..|steps| - 1]), steps[|steps| - 1], conn)
  }

  lemma RepeatsKept(cfg: Config, s: State, step: Step, conn: nat)
    ensures At(Next(cfg, s, step).book.repeats, conn) ==
            At(s.book.repeats, conn) + if RegistersRepeat(cfg, s, step, conn) then 1 else 0
  {
    if Enabled(cfg, s, step) && step.ReadHead? {
      ReadHeadAdds(cfg, s, step.head);
    }
  }

  lemma {:induction false} RepeatsNothing(cfg: Config, steps: seq<Step>, conn: nat)
    ensures At(Run(cfg, steps).book.repeats, conn) == 0 <==> NeverRepeated(cfg, steps, conn)
  {
    if steps != [] {
      RepeatsNothing(cfg, steps[..|steps| - 1], conn);
      RepeatsKept(cfg, Run(cfg, steps[..|steps| - 1]), steps[|steps| - 1], conn);
    }
  }

  // Every run, every connection: what is counted or about to be is what is live if and only if the connection never
  // registered a repeat and was never closed with live subscriptions; for an open one the former is enough.
  lemma CountedIsLiveIff(cfg: Config, steps: seq<Step>, conn: nat)
    ensures var s := Run(cfg, steps);
      && (Counter(s, conn) + |Uncounted(s, conn)| == LiveOf(s.svc, conn, None) <==>
            NeverRepeated(cfg, steps, conn) && ClosedIdle(cfg, steps, conn))
      && (conn in s.open ==> ClosedIdle(cfg, steps, conn))
  {
    LedgerAlways(cfg, steps, conn);
    ReleasedNothing(cfg, steps, conn);
    RepeatsNothing(cfg, steps, conn);
    ReleasedAlways(cfg, steps);
  }

  /******* The quota *******/

  // How many subscribes of the connection are between the check and the count at most, during a step.
  ghost function Overlap(cfg: Config, s: State, step: Step, conn: nat): nat {
    if Enabled(cfg, s, step) && step.RequestNewHeads? && step.conn == conn then |InFlight(s, conn)| + 1
    else |InFlight(Next(cfg, s, step), conn)|
  }

  ghost predicate OverlapAtMost(cfg: Config, steps: seq<Step>, conn: nat, k: nat) {
    steps != [] ==>
      && OverlapAtMost(cfg, steps[..|steps| - 1], conn, k)
      && Overlap(cfg, Run(cfg, steps[..|steps| - 1]), steps[|steps| - 1], conn) <= k
  }

  ghost predicate WithinQuota(cfg: Config, s: State, conn: nat, k: nat) {
    Counter(s, conn) + |InFlight(s, conn)| <= cfg.subLimit - 1 + k
  }

  lemma InFlightChange(s: State, t: State, conn: nat, r: nat)
    requires forall q :: q != r ==>
      (q in s.pending <==> q in t.pending) && (q in s.pending ==> t.pending[q] == s.pending[q])
    ensures |InFlight(t, conn)| - (if r in InFlight(t, conn) then 1 else 0)
            == |InFlight(s, conn)| - (if r in InFlight(s, conn) then 1 else 0)
  {
    forall q ensures q in InFlight(t, conn) - {r} <==> q in InFlight(s, conn) - {r} {
      assert q != r ==> (q in s.pending <==> q in t.pending);
    }
    assert InFlight(t, conn) - {r} == InFlight(s, conn) - {r};
    SizeWithout(InFlight(t, conn), r);
    SizeWithout(InFlight(s, conn), r);
  }

  lemma QuotaFrame(cfg: Config, s: State, t: State, conn: nat, k: nat)
    requires WithinQuota(cfg, s, conn, k)
    requires t.pending == s.pending && Counter(t, conn) <= Counter(s, conn)
    ensures WithinQuota(cfg, t, conn, k)
  {
    assert InFlight(t, conn) == InFlight(s, conn);
  }

  lemma QuotaRequest(cfg: Config, s: State, c: nat, filters: string, conn: nat, k: nat)
    requires Enabled(cfg, s, RequestLogs(c, filters)) && WithinQuota(cfg, s, conn, k)
    requires |InFlight(Next(cfg, s, RequestLogs(c, filters)), conn)| <= k
    requires forall r :: r in s.pending ==> r < s.nextReq
    ensures WithinQuota(cfg, Next(cfg, s, RequestLogs(c, filters)), conn, k)
  {
    InFlightChange(s, Next(cfg, s, RequestLogs(c, filters)), conn, s.nextReq);
  }

  lemma QuotaValidated(cfg: Config, s: State, r: nat, valid: bool, conn: nat, k: nat)
    requires Enabled(cfg, s, FinishValidation(r, valid)) && WithinQuota(cfg, s, conn, k)
    ensures WithinQuota(cfg, Next(cfg, s, FinishValidation(r, valid)), conn, k)
  {
    InFlightChange(s, Next(cfg, s, FinishValidation(r, valid)), conn, r);
  }

  lemma QuotaCounted(cfg: Config, s: State, r: nat, conn: nat, k: nat)
    requires Enabled(cfg, s, CountSubscription(r)) && WithinQuota(cfg, s, conn, k)
    requires s.pending[r].conn in s.lim.sockets
    ensures WithinQuota(cfg, Next(cfg, s, CountSubscription(r)), conn, k)
  {
    InFlightChange(s, Next(cfg, s, CountSubscription(r)), conn, r);
  }

  lemma QuotaHeads(cfg: Config, s: State, c: nat, filters: string, conn: nat, k: nat)
    requires Enabled(cfg, s, RequestNewHeads(c, filters)) && WithinQuota(cfg, s, conn, k)
    requires c == conn ==> |InFlight(s, conn)| + 1 <= k
    ensures WithinQuota(cfg, Next(cfg, s, RequestNewHeads(c, filters)), conn, k)
  {
    assert InFlight(Next(cfg, s, RequestNewHeads(c, filters)), conn) == InFlight(s, conn);
  }

  lemma QuotaStep(cfg: Config, s: State, step: Step, conn: nat, k: nat)
    requires KnownConnections(s) && WithinQuota(cfg, s, conn, k)
    requires Overlap(cfg, s, step, conn) <= k
    ensures WithinQuota(cfg, Next(cfg, s, step), conn, k)
  {
    if Enabled(cfg, s, step) {
      match step
      case RequestLogs(c, filters) => QuotaRequest(cfg, s, c, filters, conn, k);
      case FinishValidation(r, valid) => QuotaValidated(cfg, s, r, valid, conn, k);
      case CountSubscription(r) => QuotaCounted(cfg, s, r, conn, k);
      case RequestNewHeads(c, filters) => QuotaHeads(cfg, s, c, filters, conn, k);
      case ReadHead(head) =>
        ReadHeadAdds(cfg, s, head);
        QuotaFrame(cfg, s, Next(cfg, s, step), conn, k);
      case _ => QuotaFrame(cfg, s, Next(cfg, s, step), conn, k);
    }
  }

  // Every run in which at most k subscribes of the connection ever overlap between check and
  // count: the connection never has more than limit - 1 + k subscriptions.
  lemma {:induction false} QuotaAlways(cfg: Config, steps: seq<Step>, conn: nat, k: nat)
    requires k >= 1 && cfg.subLimit >= 0
    requires OverlapAtMost(cfg, steps, conn, k)
    ensures WithinQuota(cfg, Run(cfg, steps), conn, k)
    ensures LiveOf(Run(cfg, steps).svc, conn, None) <= cfg.subLimit - 1 + k
  {
    var s := Run(cfg, steps);
    if steps != [] {
      QuotaAlways(cfg, steps[..|steps| - 1], conn, k);
      LedgerAlways(cfg, steps[..|steps| - 1], conn);
      QuotaStep(cfg, Run(cfg, steps[..|steps| - 1]), steps[|steps| - 1], conn, k);
    } else {
      assert InFlight(Init(), conn) == {};
    }
    LedgerAlways(cfg, steps, conn);
    assert Uncounted(s, conn) <= InFlight(s, conn);
    SubsetSize(Uncounted(s, conn), InFlight(s, conn));
  }

  lemma SubsetSize<T>(a: set<T>, b: set<T>)
    requires a <= b
    ensures |a| <= |b|
  {
    assert b == a + (b - a);
  }

  /******* The bound is reached *******/

  // Distinct filters.
  function Name(i: nat): (r: string)
    ensures |r| == i
  {
    if i == 0 then "" else Name(i - 1) + "x"
  }

  function TagOf(i: nat): Tag {
    Tag(Logs, Name(i))
  }

  // Requests number lo to hi - 1 of connection 0, registered up to number done - 1.
  function Waiting(lo: nat, hi: nat, done: nat): map<nat, Pending> {
    map r | lo <= r < hi :: Pending(0, TagOf(r), r < done)
  }

  // Connection 0 has made `hi` requests, of which `done` are registered and the first n counted.
  ghost predicate Staged(s: State, n: nat, done: nat, hi: nat) {
    && n <= done <= hi
    && 0 in s.open && 0 in s.lim.sockets && s.lim.sockets[0].subscriptions == n
    && s.nextReq == hi && s.pending == Waiting(n, hi, done)
    && At(s.book.repeats, 0) == 0 && At(s.book.released, 0) == 0
    && forall i: nat :: done <= i ==> TagOf(i) !in s.svc.subs
  }

  function Numbers(lo: nat, hi: nat): (r: set<nat>)
    requires lo <= hi
    ensures forall i :: i in r <==> lo <= i < hi
    ensures |r| == hi - lo
  {
    if lo == hi then {} else Numbers(lo, hi - 1) + {hi - 1}
  }

  lemma StagedOverlap(s: State, n: nat, done: nat, hi: nat)
    requires Staged(s, n, done, hi)
    ensures |InFlight(s, 0)| == hi - n
  {
    assert InFlight(s, 0) == Numbers(n, hi);
  }

  lemma StagedRequest(cfg: Config, s: State, n: nat, done: nat, hi: nat)
    requires Staged(s, n, done, hi) && cfg.enabled && n < cfg.subLimit
    ensures Staged(Next(cfg, s, RequestLogs(0, Name(hi))), n, done, hi + 1)
  {
    assert Waiting(n, hi, done)[hi := Pending(0, TagOf(hi), false)] == Waiting(n, hi + 1, done);
  }

  lemma StagedRegister(cfg: Config, s: State, n: nat, done: nat, hi: nat)
    requires Staged(s, n, done, hi) && done < hi
    ensures Staged(Next(cfg, s, FinishValidation(done, true)), n, done + 1, hi)
  {
    assert Waiting(n, hi, done)[done := Pending(0, TagOf(done), true)] == Waiting(n, hi, done + 1);
    forall i: nat | done < i ensures TagOf(i) != TagOf(done) {
      assert |Name(i)| != |Name(done)|;
    }
  }

  lemma StagedCount(cfg: Config, s: State, n: nat, done: nat, hi: nat)
    requires Staged(s, n, done, hi) && n < done
    ensures Staged(Next(cfg, s, CountSubscription(n)), n + 1, done, hi)
  {
    assert Waiting(n, hi, done) - {n} == Waiting(n + 1, hi, done);
  }

  ghost predicate Reached(cfg: Config, steps: seq<Step>, k: nat, n: nat, done: nat, hi: nat) {
    OverlapAtMost(cfg, steps, 0, k) && Staged(Run(cfg, steps), n, done, hi)
  }

  lemma ReachStep(cfg: Config, steps: seq<Step>, step: Step, k: nat, n: nat, done: nat, hi: nat)
    requires OverlapAtMost(cfg, steps, 0, k) && !step.RequestNewHeads?
    requires Staged(Next(cfg, Run(cfg, steps), step), n, done, hi) && hi - n <= k
    ensures Reached(cfg, steps + [step], k, n, done, hi)
  {
    assert (steps + [step])[..|steps|] == steps;
    StagedOverlap(Next(cfg, Run(cfg, steps), step), n, done, hi);
  }

  lemma ReachOpen(cfg: Config, k: nat) returns (steps: seq<Step>)
    ensures Reached(cfg, steps, k, 0, 0, 0)
  {
    assert OverlapAtMost(cfg, [], 0, k) && Run(cfg, []) == Init();
    var t := Next(cfg, Init(), OpenConnection(0, "", 0));
    assert Waiting(0, 0, 0) == map[];
    ReachStep(cfg, [], OpenConnection(0, "", 0), k, 0, 0, 0);
    steps := [] + [OpenConnection(0, "", 0)];
  }

  lemma ReachRequest(cfg: Config, steps: seq<Step>, k: nat, n: nat, done: nat, hi: nat) returns (more: seq<Step>)
    requires Reached(cfg, steps, k, n, done, hi) && cfg.enabled && n < cfg.subLimit && hi < n + k
    ensures Reached(cfg, more, k, n, done, hi + 1)
  {
    var step := RequestLogs(0, Name(hi));
    StagedRequest(cfg, Run(cfg, steps), n, done, hi);
    ReachStep(cfg, steps, step, k, n, done, hi + 1);
    more := steps + [step];
  }

  // n subscribes, one after the other.
  lemma {:induction false} ReachCounted(cfg: Config, k: nat, n: nat) returns (steps: seq<Step>)
    requires cfg.enabled && n <= cfg.subLimit && k >= 1
    ensures Reached(cfg, steps, k, n, n, n)
  {
    if n == 0 {
      steps := ReachOpen(cfg, k);
    } else {
      var m := n - 1;
      steps := ReachCounted(cfg, k, m);
      steps := ReachRequest(cfg, steps, k, m, m, m);
      StagedRegister(cfg, Run(cfg, steps), m, m, n);
      ReachStep(cfg, steps, FinishValidation(m, true), k, m, n, n);
      steps := steps + [FinishValidation(m, true)];
      StagedCount(cfg, Run(cfg, steps), m, n, n);
      ReachStep(cfg, steps, CountSubscription(m), k, n, n, n);
      steps := steps + [CountSubscription(m)];
    }
  }

  // After them r more, none of which is validated yet.
  lemma {:induction false} ReachRequested(cfg: Config, k: nat, n: nat, r: nat) returns (steps: seq<Step>)
    requires cfg.enabled && n < cfg.subLimit && r <= k && k >= 1
    ensures Reached(cfg, steps, k, n, n, n + r)
  {
    if r == 0 {
      steps := ReachCounted(cfg, k, n);
    } else {
      steps := ReachRequested(cfg, k, n, r - 1);
      steps := ReachRequest(cfg, steps, k, n, n, n + r - 1);
    }
  }

  // Of k such requests r are registered, and none is counted.
  lemma {:induction false} ReachRegistered(cfg: Config, k: nat, n: nat, r: nat) returns (steps: seq<Step>)
    requires cfg.enabled && n < cfg.subLimit && r <= k && k >= 1
    ensures Reached(cfg, steps, k, n, n + r, n + k)
  {
    if r == 0 {
      steps := ReachRequested(cfg, k, n, k);
    } else {
      steps := ReachRegistered(cfg, k, n, r - 1);
      StagedRegister(cfg, Run(cfg, steps), n, n + r - 1, n + k);
      ReachStep(cfg, steps, FinishValidation(n + r - 1, true), k, n, n + r, n + k);
      steps := steps + [FinishValidation(n + r - 1, true)];
    }
  }

  // Every limit and every k: some run in which at most k subscribes overlap ends with limit - 1 + k subscriptions.
  lemma QuotaTight(cfg: Config, k: nat) returns (steps: seq<Step>)
    requires cfg.enabled && cfg.subLimit >= 1 && k >= 1
    ensures OverlapAtMost(cfg, steps, 0, k)
    ensures LiveOf(Run(cfg, steps).svc, 0, None) == cfg.subLimit - 1 + k
  {
    var n := cfg.subLimit - 1;
    steps := ReachRegistered(cfg, k, n, k);
    var s := Run(cfg, steps);
    assert Uncounted(s, 0) == InFlight(s, 0);
    StagedOverlap(s, n, n + k, n + k);
    LedgerAlways(cfg, steps, 0);
  }

  lemma {:induction false} OverlapFewer(cfg: Config, steps: seq<Step>, conn: nat, k: nat, m: nat)
    requires OverlapAtMost(cfg, steps, conn, k) && k <= m
    ensures OverlapAtMost(cfg, steps, conn, m)
  {
    if steps != [] {
      OverlapFewer(cfg, steps[..|steps| - 1], conn, k, m);
    }
  }

  // The limit is kept in all runs in which at most k subscribes of a connection overlap, exactly if k is at most one.
  lemma LimitKeptIff(cfg: Config, k: nat)
    requires cfg.enabled && cfg.subLimit >= 1
    ensures (forall steps, conn :: OverlapAtMost(cfg, steps, conn, k) ==>
               LiveOf(Run(cfg, steps).svc, conn, None) <= cfg.subLimit) <==> k <= 1
  {
    if k <= 1 {
      forall steps, conn | OverlapAtMost(cfg, steps, conn, k)
        ensures LiveOf(Run(cfg, steps).svc, conn, None) <= cfg.subLimit
      {
        OverlapFewer(cfg, steps, conn, k, 1);
        QuotaAlways(cfg, steps, conn, 1);
      }
    } else {
      var steps := QuotaTight(cfg, k);
      assert OverlapAtMost(cfg, steps, 0, k);
    }
  }

  /******* Connections per address *******/

  function OpenFrom(s: State, ip: string): set<nat> {
    set c | c in s.open && c in s.lim.sockets && s.lim.sockets[c].ip == ip
  }

  function PassedFrom(s: State, ip: string): set<nat> {
    set c | c in s.passed && c in s.lim.sockets && s.lim.sockets[c].ip == ip
  }

  ghost predicate IpsCounted(s: State, ip: string) {
    && s.passed <= s.open <= s.lim.sockets.Keys
    && (forall c :: c in s.open ==> s.lim.sockets[c].ipCounted)
    && IpCount(s.lim, ip) == |OpenFrom(s, ip)|
    && (ip in s.lim.ips <==> |OpenFrom(s, ip)| > 0)
  }

  ghost predicate IpLimited(cfg: Config, s: State, ip: string) {
    PassedFrom(s, ip) != {} ==> |PassedFrom(s, ip)| <= cfg.ipLimit
  }

  lemma IpOpen(cfg: Config, s: State, c: nat, from: string, total: int, ip: string)
    requires KnownConnections(s) && IpsCounted(s, ip) && IpLimited(cfg, s, ip) && c !in s.lim.sockets
    ensures IpsCounted(Open(cfg, s, c, from, total), ip) && IpLimited(cfg, Open(cfg, s, c, from, total), ip)
  {
    var t := Open(cfg, s, c, from, total);
    assert OpenFrom(t, ip) == if from == ip then OpenFrom(s, ip) + {c} else OpenFrom(s, ip);
    if from == ip && c in t.passed {
      assert PassedFrom(t, ip) <= OpenFrom(t, ip);
      SubsetSize(PassedFrom(t, ip), OpenFrom(t, ip));
    } else {
      assert PassedFrom(t, ip) == PassedFrom(s, ip);
    }
  }

  lemma CloseFrees(s: State, c: nat, ip: string)
    requires c in s.open && c in s.lim.sockets
    ensures OpenFrom(Close(s, c), ip) == OpenFrom(s, ip) - {c}
    ensures PassedFrom(Close(s, c), ip) == PassedFrom(s, ip) - {c}
  {
  }

  lemma IpClose(cfg: Config, s: State, c: nat, ip: string)
    requires IpsCounted(s, ip) && IpLimited(cfg, s, ip) && c in s.open
    ensures IpsCounted(Close(s, c), ip) && IpLimited(cfg, Close(s, c), ip)
  {
    CloseFrees(s, c, ip);
    SizeWithout(OpenFrom(s, ip), c);
    SubsetSize(PassedFrom(s, ip) - {c}, PassedFrom(s, ip));
  }

  lemma IpFrame(cfg: Config, s: State, t: State, ip: string)
    requires IpsCounted(s, ip) && IpLimited(cfg, s, ip) && SameLimits(s, t)
    ensures IpsCounted(t, ip) && IpLimited(cfg, t, ip)
  {
    assert OpenFrom(t, ip) == OpenFrom(s, ip) && PassedFrom(t, ip) == PassedFrom(s, ip);
  }

  lemma IpStep(cfg: Config, s: State, step: Step, ip: string)
    requires KnownConnections(s) && IpsCounted(s, ip) && IpLimited(cfg, s, ip)
    ensures IpsCounted(Next(cfg, s, step), ip) && IpLimited(cfg, Next(cfg, s, step), ip)
  {
    if Enabled(cfg, s, step) {
      if step.OpenConnection? {
        IpOpen(cfg, s, step.conn, step.ip, step.total, ip);
      } else if step.CloseConnection? {
        IpClose(cfg, s, step.conn, ip);
      } else {
        LimitsStep(cfg, s, step);
        IpFrame(cfg, s, Apply(cfg, s, step), ip);
      }
    }
  }

  // Every run: the count kept for an address is the number of open connections from it, it is
  // stored exactly when positive, and those let through never exceed the limit.
  lemma {:induction false} IpsAlways(cfg: Config, steps: seq<Step>, ip: string)
    ensures IpsCounted(Run(cfg, steps), ip)
    ensures IpLimited(cfg, Run(cfg, steps), ip)
  {
    if steps != [] {
      IpsAlways(cfg, steps[..|steps| - 1], ip);
      LedgerAlways(cfg, steps[..|steps| - 1], 0);
      IpStep(cfg, Run(cfg, steps[..|steps| - 1]), steps[|steps| - 1], ip);
    } else {
      assert OpenFrom(Init(), ip) == {} && PassedFrom(Init(), ip) == {};
    }
  }

  // Every run: a new connection is let through exactly if all connections are within the total limit and those open
  // from its address, itself included, are within the limit of an address.
  lemma LetThroughIff(cfg: Config, steps: seq<Step>, conn: nat, ip: string, total: int)
    requires conn !in Run(cfg, steps).lim.sockets
    ensures var s, t := Run(cfg, steps), Next(cfg, Run(cfg, steps), OpenConnection(conn, ip, total));
      && t.open == s.open + {conn}
      && (conn in t.passed <==>
            && total <= cfg.totalLimit
            && |set c | c in s.open && c in s.lim.sockets && s.lim.sockets[c].ip == ip| + 1 <= cfg.ipLimit)
  {
    IpsAlways(cfg, steps, ip);
    var s := Run(cfg, steps);
    assert OpenFrom(s, ip) == set c | c in s.open && c in s.lim.sockets && s.lim.sockets[c].ip == ip;
  }
}
