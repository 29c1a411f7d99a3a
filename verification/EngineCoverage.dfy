/** Gap-free log delivery, and the schedules under which it holds. */
module EngineCoverage {
  import opened Wrappers
  import opened Subscriptions
  import opened PollerServiceModel
  import opened Engine
  import opened EngineCoupling
  import opened EngineDelivery

  /******* Ranges without gaps *******/

  function Top(ranges: seq<Range>): nat {
    if ranges == [] then 0
    else
      var most := Top(ranges[..|ranges| - 1]);
      if ranges[|ranges| - 1].hi > most then ranges[|ranges| - 1].hi else most
  }

  ghost predicate Connected(ranges: seq<Range>) {
    forall i :: 0 < i < |ranges| ==> ranges[i].lo <= Top(ranges[..i]) + 1
  }

  ghost predicate Covered(ranges: seq<Range>, b: nat) {
    exists i :: 0 <= i < |ranges| && ranges[i].lo <= b <= ranges[i].hi
  }

  lemma {:induction false} ConnectedHasNoGap(ranges: seq<Range>, b: nat)
    requires ranges != [] && Connected(ranges)
    requires ranges[0].lo <= b <= Top(ranges)
    ensures Covered(ranges, b)
  {
    var most, last := ranges[..|ranges| - 1], ranges[|ranges| - 1];
    if most == [] {
      assert most == [];
      assert ranges[0].lo <= b <= ranges[0].hi;
    } else if b <= Top(most) {
      assert forall i :: 0 < i < |most| ==> most[..i] == ranges[..i];
      ConnectedHasNoGap(most, b);
      var i :| 0 <= i < |most| && most[i].lo <= b <= most[i].hi;
      assert ranges[i] == most[i];
    } else {
      assert last.lo <= b <= last.hi;
    }
  }

  lemma ConnectedExtend(ranges: seq<Range>, r: Range)
    requires Connected(ranges)
    requires ranges != [] ==> r.lo <= Top(ranges) + 1
    ensures Connected(ranges + [r])
    ensures Top(ranges + [r]) == if r.hi > Top(ranges) then r.hi else Top(ranges)
  {
    var more := ranges + [r];
    assert more[..|ranges|] == ranges;
    forall i | 0 < i < |more| ensures more[i].lo <= Top(more[..i]) + 1 {
      if i < |ranges| {
        assert more[..i] == ranges[..i];
      }
    }
  }

  lemma CoveredMore(done: seq<Range>, r: Range, g: nat)
    ensures Covered(done + [r], g) <==> Covered(done, g) || r.lo <= g <= r.hi
  {
    var more := done + [r];
    if Covered(done, g) {
      var i :| 0 <= i < |done| && done[i].lo <= g <= done[i].hi;
      assert more[i] == done[i];
    }
    assert more[|done|] == r;
  }

  /******* Schedules *******/

  ghost predicate LivePoll(s: State, pid: nat, tag: Tag) {
    exists i :: 0 <= i < |s.svc.poller.polls| && s.svc.poller.polls[i].pid == pid && s.svc.poller.polls[i].tag == tag
  }

  ghost predicate IsLiveLogQuery(s: State, q: nat) {
    && q in s.flight
    && s.flight[q].request.tag.event == Logs
    && LivePoll(s, s.flight[q].request.pid, s.flight[q].request.tag)
  }

  // The last block a query's poll has been answered for, once that query finishes.
  function AnsweredTo(s: State, q: nat): nat
    requires q in s.flight && s.flight[q].served.Some?
  {
    Top(DoneBy(s, s.flight[q].request.pid) + [s.flight[q].served.value])
  }

  // The head read by the timer does not go back, and when a query of this log poll finishes while the poll is listed,
  // the head on record is at most one past the last block the poll has been answered for.
  ghost predicate TimelyStep(cfg: Config, s: State, step: Step, pid: nat) {
    Enabled(cfg, s, step) ==>
      match step
      case ReadHead(head) =>
        head.Some? && s.svc.poller.latest.Some? ==> s.svc.poller.latest.value <= head.value
      case FinishQuery(q) =>
        pid == s.flight[q].request.pid && IsLiveLogQuery(s, q) ==>
          s.svc.poller.latest.Some? && s.svc.poller.latest.value <= AnsweredTo(s, q) + 1
      case _ => true
  }

  // Every answer to the poll is in time; other polls may be as late as they like.
  ghost predicate Timely(cfg: Config, steps: seq<Step>, pid: nat) {
    steps != [] ==>
      && Timely(cfg, steps[..|steps| - 1], pid)
      && TimelyStep(cfg, Run(cfg, steps[..|steps| - 1]), steps[|steps| - 1], pid)
  }

  /******* The coverage invariant *******/

  // Poll identities are never reused, a query carries the tag of the poll it was issued for, and
  // the head on record is a produced block.
  ghost predicate Identified(s: State) {
    && (forall pid :: pid in s.book.done ==> pid < s.svc.poller.nextPid)
    && (forall q :: q in s.flight ==> s.flight[q].request.pid < s.svc.poller.nextPid)
    && (forall q, p :: q in s.flight && p in s.svc.poller.polls && p.pid == s.flight[q].request.pid ==>
          p.tag == s.flight[q].request.tag)
    && (s.svc.poller.latest.Some? ==> s.svc.poller.latest.value < |s.blocks|)
  }

  // A poll has moved on exactly when it has completed a range; it never starts past what is covered.
  ghost predicate PollCovered(s: State, p: Poll) {
    var done := DoneBy(s, p.pid);
    && (p.lastPolled.Some? <==> done != [])
    && Connected(done)
    && (done != [] ==>
          && s.svc.poller.latest.Some?
          && p.lastPolled.value <= s.svc.poller.latest.value
          && p.lastPolled.value <= Top(done) + 1
          && Top(done) < |s.blocks|)
  }

  // A query under way starts at a recorded head, and where its poll has ranges, within or next to them.
  ghost predicate QueryConnects(s: State, query: Query) {
    var request, served := query.request, query.served;
    && request.from.Some?
    && s.svc.poller.latest.Some?
    && request.from.value <= s.svc.poller.latest.value
    && (served.Some? ==> served.value.lo == request.from.value && served.value.hi < |s.blocks|)
    && (DoneBy(s, request.pid) != [] ==> request.from.value <= Top(DoneBy(s, request.pid)) + 1)
  }

  ghost predicate IsLogPoll(s: State, p: Poll) {
    p in s.svc.poller.polls && p.tag.event == Logs
  }

  // The poll with this identity, as long as it is a listed log poll, and its queries.
  ghost predicate PidCovered(s: State, pid: nat) {
    && (forall p :: IsLogPoll(s, p) && p.pid == pid ==> PollCovered(s, p))
    && (forall q :: IsLiveLogQuery(s, q) && s.flight[q].request.pid == pid ==> QueryConnects(s, s.flight[q]))
  }

  lemma RequestsOf(polls: seq<Poll>, latest: Option<nat>)
    ensures forall r :: r in Requests(polls, latest) ==>
              exists p :: p in polls && r == Request(p.pid, p.tag, if p.lastPolled.Some? then p.lastPolled else latest)
  {
    if polls != [] {
      RequestsOf(polls[..|polls| - 1], latest);
      forall r | r in Requests(polls, latest)
        ensures exists p ::
          p in polls && r == Request(p.pid, p.tag, if p.lastPolled.Some? then p.lastPolled else latest)
      {
        if r in Requests(polls[..|polls| - 1], latest) {
          var p :| p in polls[..|polls| - 1] &&
            r == Request(p.pid, p.tag, if p.lastPolled.Some? then p.lastPolled else latest);
          assert p in polls;
        } else {
          assert polls[|polls| - 1] in polls;
        }
      }
    }
  }

  // What a step may do to the list of polls: add one with a new identity, drop some, move one on.
  ghost predicate PollsEvolve(s: State, t: State) {
    && s.svc.poller.nextPid <= t.svc.poller.nextPid
    && (forall p :: p in t.svc.poller.polls ==>
          || p in s.svc.poller.polls
          || (p.pid == s.svc.poller.nextPid < t.svc.poller.nextPid && p.lastPolled == None))
  }

  lemma UnsubscribeEvolves(s: State, t: State, conn: nat, sel: Option<nat>)
    requires t.svc == Unsubscribe(s.svc, conn, sel)
    ensures PollsEvolve(s, t)
  {
    WithoutKeepsOrder(s.svc.poller.polls, Emptied(s.svc.subs, conn, sel));
  }

  lemma StepEvolves(cfg: Config, s: State, step: Step)
    requires !step.FinishQuery?
    ensures PollsEvolve(s, Next(cfg, s, step))
  {
    if Enabled(cfg, s, step) {
      match step
      case CloseConnection(conn) => UnsubscribeEvolves(s, Next(cfg, s, step), conn, None);
      case RequestUnsubscribe(conn, sel) => UnsubscribeEvolves(s, Next(cfg, s, step), conn, sel);
      case ReadHead(head) => ReadHeadAdds(cfg, s, head);
      case _ =>
    }
  }

  lemma MarkedPolls(polls: seq<Poll>, pid: nat, latest: Option<nat>)
    ensures forall p :: p in MarkPolled(polls, pid, latest) ==>
              exists p0 :: p0 in polls && p == if p0.pid == pid then p0.(lastPolled := latest) else p0
  {
    forall p | p in MarkPolled(polls, pid, latest)
      ensures exists p0 :: p0 in polls && p == if p0.pid == pid then p0.(lastPolled := latest) else p0
    {
      var i :| 0 <= i < |polls| && MarkPolled(polls, pid, latest)[i] == p;
      assert polls[i] in polls;
    }
  }

  lemma SamePoll(p: Poller, a: Poll, b: Poll)
    requires SoundPoller(p) && a in p.polls && b in p.polls && a.pid == b.pid
    ensures a == b
  {
    var i :| 0 <= i < |p.polls| && p.polls[i] == a;
    var j :| 0 <= j < |p.polls| && p.polls[j] == b;
  }

  lemma IdentifiedReadHead(cfg: Config, s: State, head: Option<nat>)
    requires Coupled(s.svc) && Identified(s)
    ensures Identified(Next(cfg, s, ReadHead(head)))
  {
    if Enabled(cfg, s, ReadHead(head)) {
      var t := Next(cfg, s, ReadHead(head));
      ReadHeadAdds(cfg, s, head);
      RequestsOf(s.svc.poller.polls, head);
      forall q | q in t.flight && !(q in s.flight && t.flight[q] == s.flight[q])
        ensures t.flight[q].request.pid < t.svc.poller.nextPid
        ensures forall p :: p in t.svc.poller.polls && p.pid == t.flight[q].request.pid ==>
          p.tag == t.flight[q].request.tag
      {
        var p0 :| p0 in s.svc.poller.polls && p0.pid == t.flight[q].request.pid && p0.tag == t.flight[q].request.tag;
        forall p | p in t.svc.poller.polls && p.pid == t.flight[q].request.pid
          ensures p.tag == t.flight[q].request.tag
        {
          SamePoll(s.svc.poller, p, p0);
        }
      }
    }
  }

  lemma IdentifiedFinish(s: State, q: nat)
    requires Identified(s)
    requires q in s.flight && s.flight[q].served.Some? && s.flight[q].served.value.hi < |s.blocks|
    ensures Identified(Finish(s, q))
  {
    MarkedPolls(s.svc.poller.polls, s.flight[q].request.pid, s.svc.poller.latest);
  }

  lemma IdentifiedOther(cfg: Config, s: State, step: Step)
    requires Identified(s) && Enabled(cfg, s, step) && !step.ReadHead? && !step.FinishQuery?
    ensures Identified(Apply(cfg, s, step))
  {
    StepEvolves(cfg, s, step);
  }

  lemma IdentifiedStep(cfg: Config, s: State, step: Step)
    requires Coupled(s.svc) && Identified(s)
    ensures Identified(Next(cfg, s, step))
  {
    if Enabled(cfg, s, step) {
      if step.ReadHead? {
        IdentifiedReadHead(cfg, s, step.head);
      } else if step.FinishQuery? {
        IdentifiedFinish(s, step.q);
      } else {
        IdentifiedOther(cfg, s, step);
      }
    }
  }

  /******* Each step keeps the coverage *******/

  lemma LiveBefore(s: State, t: State, pid: nat, tag: Tag)
    requires PollsEvolve(s, t) && LivePoll(t, pid, tag) && pid < s.svc.poller.nextPid
    ensures LivePoll(s, pid, tag)
  {
    var i :| 0 <= i < |t.svc.poller.polls| && t.svc.poller.polls[i].pid == pid && t.svc.poller.polls[i].tag == tag;
    assert t.svc.poller.polls[i] in s.svc.poller.polls;
  }

  // Steps that leave the queries, the ranges and the recorded head alone.
  lemma CoverageFrame(s: State, t: State, pid: nat)
    requires Identified(s) && PidCovered(s, pid) && PollsEvolve(s, t)
    requires t.svc.poller.latest == s.svc.poller.latest && t.book.done == s.book.done && |t.blocks| >= |s.blocks|
    requires forall q :: q in t.flight ==> q in s.flight && t.flight[q] == s.flight[q]
    ensures PidCovered(t, pid)
  {
    forall p | IsLogPoll(t, p) && p.pid == pid ensures PollCovered(t, p) {
      if p in s.svc.poller.polls {
        assert IsLogPoll(s, p);
      }
    }
    forall q | IsLiveLogQuery(t, q) && t.flight[q].request.pid == pid ensures QueryConnects(t, t.flight[q]) {
      LiveBefore(s, t, t.flight[q].request.pid, t.flight[q].request.tag);
      assert IsLiveLogQuery(s, q);
    }
  }

  lemma CoverageServe(cfg: Config, s: State, q: nat, hi: nat, pid: nat)
    requires PidCovered(s, pid) && Enabled(cfg, s, ServeQuery(q, hi))
    ensures PidCovered(Next(cfg, s, ServeQuery(q, hi)), pid)
  {
    var t := Next(cfg, s, ServeQuery(q, hi));
    forall p | IsLogPoll(t, p) && p.pid == pid ensures PollCovered(t, p) {
      assert IsLogPoll(s, p);
    }
    forall r | IsLiveLogQuery(t, r) && t.flight[r].request.pid == pid ensures QueryConnects(t, t.flight[r]) {
      assert IsLiveLogQuery(s, r);
    }
  }

  lemma CoverageReadHead(cfg: Config, s: State, head: Option<nat>, pid: nat)
    requires PidCovered(s, pid) && TimelyStep(cfg, s, ReadHead(head), pid) && Enabled(cfg, s, ReadHead(head))
    ensures PidCovered(Next(cfg, s, ReadHead(head)), pid)
  {
    var t := Next(cfg, s, ReadHead(head));
    ReadHeadAdds(cfg, s, head);
    RequestsOf(s.svc.poller.polls, head);
    forall p | IsLogPoll(t, p) && p.pid == pid ensures PollCovered(t, p) {
      assert IsLogPoll(s, p);
    }
    forall q | IsLiveLogQuery(t, q) && t.flight[q].request.pid == pid ensures QueryConnects(t, t.flight[q]) {
      if q in s.flight && t.flight[q] == s.flight[q] {
        assert IsLiveLogQuery(s, q);
      } else {
        var p :| p in s.svc.poller.polls && t.flight[q].request ==
          Request(p.pid, p.tag, if p.lastPolled.Some? then p.lastPolled else head);
        assert IsLogPoll(s, p);
      }
    }
  }

  // The ranges of a poll after one of its live queries has finished.
  lemma DoneAfterFinish(s: State, q: nat)
    requires IsLiveLogQuery(s, q) && PidCovered(s, s.flight[q].request.pid)
    requires s.flight[q].served.Some? && s.flight[q].served.value.hi < |s.blocks|
    ensures var done, r := DoneBy(s, s.flight[q].request.pid), s.flight[q].served.value;
            && Connected(done + [r])
            && Top(done + [r]) == (if r.hi > Top(done) then r.hi else Top(done))
            && Top(done + [r]) < |s.blocks|
  {
    var request := s.flight[q].request;
    var i :| 0 <= i < |s.svc.poller.polls| &&
        s.svc.poller.polls[i].pid == request.pid && s.svc.poller.polls[i].tag == request.tag;
    assert IsLogPoll(s, s.svc.poller.polls[i]);
    ConnectedExtend(DoneBy(s, request.pid), s.flight[q].served.value);
  }

  lemma FinishPolls(cfg: Config, s: State, q: nat, pid: nat)
    requires Identified(s) && PidCovered(s, pid)
    requires TimelyStep(cfg, s, FinishQuery(q), pid) && Enabled(cfg, s, FinishQuery(q))
    ensures forall p :: IsLogPoll(Finish(s, q), p) && p.pid == pid ==> PollCovered(Finish(s, q), p)
  {
    var t := Finish(s, q);
    var of, tag := s.flight[q].request.pid, s.flight[q].request.tag;
    MarkedPolls(s.svc.poller.polls, of, s.svc.poller.latest);
    forall p | IsLogPoll(t, p) && p.pid == pid ensures PollCovered(t, p) {
      var p0 :| p0 in s.svc.poller.polls && p == if p0.pid == of then p0.(lastPolled := s.svc.poller.latest) else p0;
      assert IsLogPoll(s, p0);
      if p0.pid == of {
        assert LivePoll(s, of, tag);
        assert IsLiveLogQuery(s, q);
        DoneAfterFinish(s, q);
      }
    }
  }

  lemma FinishQueries(cfg: Config, s: State, q: nat, pid: nat)
    requires Identified(s) && PidCovered(s, pid)
    requires TimelyStep(cfg, s, FinishQuery(q), pid) && Enabled(cfg, s, FinishQuery(q))
    ensures var t := Finish(s, q);
      forall x :: IsLiveLogQuery(t, x) && t.flight[x].request.pid == pid ==> QueryConnects(t, t.flight[x])
  {
    var t := Finish(s, q);
    forall x | IsLiveLogQuery(t, x) && t.flight[x].request.pid == pid ensures QueryConnects(t, t.flight[x]) {
      var rx := t.flight[x].request;
      var i :| 0 <= i < |t.svc.poller.polls| &&
          t.svc.poller.polls[i].pid == rx.pid && t.svc.poller.polls[i].tag == rx.tag;
      var p0 := s.svc.poller.polls[i];
      assert p0.pid == rx.pid && p0.tag == rx.tag;
      assert IsLiveLogQuery(s, x);
      if rx.pid == s.flight[q].request.pid {
        assert p0.tag == s.flight[q].request.tag;
        assert IsLiveLogQuery(s, q);
        DoneAfterFinish(s, q);
      }
    }
  }

  lemma CoverageOther(cfg: Config, s: State, step: Step, pid: nat)
    requires Identified(s) && PidCovered(s, pid) && Enabled(cfg, s, step)
    requires !step.ServeQuery? && !step.ReadHead? && !step.FinishQuery?
    ensures PidCovered(Apply(cfg, s, step), pid)
  {
    StepEvolves(cfg, s, step);
    CoverageFrame(s, Apply(cfg, s, step), pid);
  }

  lemma CoverageFinish(cfg: Config, s: State, q: nat, pid: nat)
    requires Identified(s) && PidCovered(s, pid)
    requires TimelyStep(cfg, s, FinishQuery(q), pid) && Enabled(cfg, s, FinishQuery(q))
    ensures PidCovered(Finish(s, q), pid)
  {
    FinishPolls(cfg, s, q, pid);
    FinishQueries(cfg, s, q, pid);
  }

  lemma CoverageStep(cfg: Config, s: State, step: Step, pid: nat)
    requires Identified(s) && PidCovered(s, pid) && TimelyStep(cfg, s, step, pid)
    ensures PidCovered(Next(cfg, s, step), pid)
  {
    if Enabled(cfg, s, step) {
      if step.ServeQuery? {
        CoverageServe(cfg, s, step.q, step.hi, pid);
      } else if step.ReadHead? {
        CoverageReadHead(cfg, s, step.head, pid);
      } else if step.FinishQuery? {
        CoverageFinish(cfg, s, step.q, pid);
      } else {
        CoverageOther(cfg, s, step, pid);
      }
    }
  }

  lemma {:induction false} IdentifiedAlways(cfg: Config, steps: seq<Step>)
    ensures Identified(Run(cfg, steps))
  {
    if steps != [] {
      IdentifiedAlways(cfg, steps[..|steps| - 1]);
      CoupledAlways(cfg, steps[..|steps| - 1]);
      IdentifiedStep(cfg, Run(cfg, steps[..|steps| - 1]), steps[|steps| - 1]);
    }
  }

  // A log poll that is answered in time, and each of its queries, connects to what it was answered before.
  lemma {:induction false} CoverageAlways(cfg: Config, steps: seq<Step>, pid: nat)
    requires Timely(cfg, steps, pid)
    ensures PidCovered(Run(cfg, steps), pid)
  {
    if steps != [] {
      CoverageAlways(cfg, steps[..|steps| - 1], pid);
      IdentifiedAlways(cfg, steps[..|steps| - 1]);
      CoverageStep(cfg, Run(cfg, steps[..|steps| - 1]), steps[|steps| - 1], pid);
    }
  }

  // Runs in which the answers to a log poll are timely: between its first completed range and the end of any later
  // one, every block lies in a completed range. Failed queries lose nothing.
  lemma NoGap(cfg: Config, steps: seq<Step>, p: Poll, k: nat, b: nat)
    requires Timely(cfg, steps, p.pid)
    requires var s := Run(cfg, steps); IsLogPoll(s, p) && k < |DoneBy(s, p.pid)|
    requires DoneBy(Run(cfg, steps), p.pid)[0].lo <= b <= DoneBy(Run(cfg, steps), p.pid)[k].hi
    ensures Covered(DoneBy(Run(cfg, steps), p.pid), b)
  {
    var done := DoneBy(Run(cfg, steps), p.pid);
    CoverageAlways(cfg, steps, p.pid);
    TopBounds(done, k);
    ConnectedHasNoGap(done, b);
  }

  lemma TopBounds(ranges: seq<Range>, k: nat)
    requires k < |ranges|
    ensures ranges[k].hi <= Top(ranges)
  {
    if k < |ranges| - 1 {
      TopBounds(ranges[..|ranges| - 1], k);
    }
  }
}
