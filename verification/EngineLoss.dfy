/** Which blocks a poll will never ask for again, and when an answer that comes late loses one. */
module EngineLoss {
  import opened Wrappers
  import opened Subscriptions
  import opened PollerServiceModel
  import opened Engine
  import opened EngineCoupling
  import opened EngineDelivery
  import opened EngineCoverage
  import opened EngineExactlyOnce

  /******* Heads that do not go back *******/

  ghost predicate HeadAdvances(cfg: Config, s: State, step: Step) {
    Enabled(cfg, s, step) && step.ReadHead? && step.head.Some? && s.svc.poller.latest.Some? ==>
      s.svc.poller.latest.value <= step.head.value
  }

  ghost predicate HeadsAdvance(cfg: Config, s: State, later: seq<Step>) {
    later != [] ==>
      && HeadsAdvance(cfg, s, later[..|later| - 1])
      && HeadAdvances(cfg, Exec(cfg, s, later[..|later| - 1]), later[|later| - 1])
  }

  lemma {:induction false} TimelyAdvances(cfg: Config, steps: seq<Step>, pid: nat)
    requires Timely(cfg, steps, pid)
    ensures HeadsAdvance(cfg, Init(), steps)
  {
    if steps != [] {
      TimelyAdvances(cfg, steps[..|steps| - 1], pid);
    }
  }

  // No poll is ahead of the head on record, and answers are about produced blocks.
  ghost predicate Paced(s: State) {
    && |s.blocks| > 0
    && (forall p :: p in s.svc.poller.polls && p.lastPolled.Some? ==>
          s.svc.poller.latest.Some? && p.lastPolled.value <= s.svc.poller.latest.value)
    && (forall q :: q in s.flight && s.flight[q].served.Some? ==> s.flight[q].served.value.hi < |s.blocks|)
  }

  lemma PacedFinish(s: State, q: nat)
    requires Paced(s) && q in s.flight && s.flight[q].served.Some? && s.flight[q].served.value.hi < |s.blocks|
    ensures Paced(Finish(s, q))
  {
    MarkedPolls(s.svc.poller.polls, s.flight[q].request.pid, s.svc.poller.latest);
  }

  lemma PacedReadHead(cfg: Config, s: State, head: Option<nat>)
    requires Paced(s) && Enabled(cfg, s, ReadHead(head)) && HeadAdvances(cfg, s, ReadHead(head))
    ensures Paced(Next(cfg, s, ReadHead(head)))
  {
    ReadHeadAdds(cfg, s, head);
  }

  lemma PacedOther(cfg: Config, s: State, step: Step)
    requires Paced(s) && Enabled(cfg, s, step) && !step.FinishQuery? && !step.ReadHead?
    ensures Paced(Apply(cfg, s, step))
  {
    StepEvolves(cfg, s, step);
  }

  lemma PacedStep(cfg: Config, s: State, step: Step)
    requires Paced(s) && HeadAdvances(cfg, s, step)
    ensures Paced(Next(cfg, s, step))
  {
    if Enabled(cfg, s, step) {
      if step.FinishQuery? {
        PacedFinish(s, step.q);
      } else if step.ReadHead? {
        PacedReadHead(cfg, s, step.head);
      } else {
        PacedOther(cfg, s, step);
      }
    }
  }

  lemma {:induction false} PacedAlways(cfg: Config, steps: seq<Step>)
    requires HeadsAdvance(cfg, Init(), steps)
    ensures Paced(Run(cfg, steps))
  {
    if steps != [] {
      PacedAlways(cfg, steps[..|steps| - 1]);
      PacedStep(cfg, Run(cfg, steps[..|steps| - 1]), steps[|steps| - 1]);
    }
  }

  /******* Blocks that are lost *******/

  // Whatever the query is still answered for, it is not this block.
  predicate Misses(query: Query, g: nat) {
    match query.served
    case None => query.request.from.Some? && g < query.request.from.value
    case Some(r) => !(r.lo <= g <= r.hi)
  }

  // The poll's next query starts after the block: at its last polled head, or else at the next head.
  ghost predicate StartsPast(p: Poll, latest: Option<nat>, g: nat) {
    if p.lastPolled.Some? then g < p.lastPolled.value else latest.Some? && g < latest.value
  }

  // The block is in no completed range of the poll, in none it is being asked for and in none it will be asked for.
  ghost predicate Lost(s: State, pid: nat, g: nat) {
    && !Covered(DoneBy(s, pid), g)
    && (forall p :: p in s.svc.poller.polls && p.pid == pid ==> StartsPast(p, s.svc.poller.latest, g))
    && (forall q :: q in s.flight && s.flight[q].request.pid == pid ==> Misses(s.flight[q], g))
  }

  lemma LostFinish(s: State, q: nat, pid: nat, g: nat)
    requires Paced(s) && Lost(s, pid, g)
    requires q in s.flight && s.flight[q].served.Some? && s.flight[q].served.value.hi < |s.blocks|
    ensures Lost(Finish(s, q), pid, g)
  {
    MarkedPolls(s.svc.poller.polls, s.flight[q].request.pid, s.svc.poller.latest);
    FinishDone(s, q, pid);
    CoveredMore(DoneBy(s, pid), s.flight[q].served.value, g);
  }

  lemma LostReadHead(cfg: Config, s: State, head: Option<nat>, pid: nat, g: nat)
    requires Lost(s, pid, g) && HeadAdvances(cfg, s, ReadHead(head)) && Enabled(cfg, s, ReadHead(head))
    ensures Lost(Next(cfg, s, ReadHead(head)), pid, g)
  {
    ReadHeadAdds(cfg, s, head);
    RequestsOf(s.svc.poller.polls, head);
  }

  lemma LostOther(cfg: Config, s: State, step: Step, pid: nat, g: nat)
    requires pid < s.svc.poller.nextPid && Lost(s, pid, g)
    requires Enabled(cfg, s, step) && !step.FinishQuery? && !step.ReadHead?
    ensures Lost(Apply(cfg, s, step), pid, g)
  {
    StepEvolves(cfg, s, step);
  }

  lemma LostStep(cfg: Config, s: State, step: Step, pid: nat, g: nat)
    requires pid < s.svc.poller.nextPid && Paced(s) && Lost(s, pid, g) && HeadAdvances(cfg, s, step)
    ensures Lost(Next(cfg, s, step), pid, g)
  {
    if Enabled(cfg, s, step) {
      if step.FinishQuery? {
        LostFinish(s, step.q, pid, g);
      } else if step.ReadHead? {
        LostReadHead(cfg, s, step.head, pid, g);
      } else {
        LostOther(cfg, s, step, pid, g);
      }
    }
  }

  lemma PidsGrow(cfg: Config, s: State, step: Step)
    ensures s.svc.poller.nextPid <= Next(cfg, s, step).svc.poller.nextPid
  {
    if !step.FinishQuery? {
      StepEvolves(cfg, s, step);
    }
  }

  lemma {:induction false} LostForGood(cfg: Config, s: State, later: seq<Step>, pid: nat, g: nat)
    requires pid < s.svc.poller.nextPid && Paced(s) && Lost(s, pid, g) && HeadsAdvance(cfg, s, later)
    ensures var t := Exec(cfg, s, later); pid < t.svc.poller.nextPid && Paced(t) && Lost(t, pid, g)
  {
    if later != [] {
      var t, step := Exec(cfg, s, later[..|later| - 1]), later[|later| - 1];
      LostForGood(cfg, s, later[..|later| - 1], pid, g);
      PacedStep(cfg, t, step);
      LostStep(cfg, t, step, pid, g);
      PidsGrow(cfg, t, step);
    }
  }

  /******* Blocks that can still be asked for *******/

  ghost predicate Coverable(cfg: Config, s: State, pid: nat, g: nat) {
    exists later :: HeadsAdvance(cfg, s, later) && Covered(DoneBy(Exec(cfg, s, later), pid), g)
  }

  lemma CoverableNow(cfg: Config, s: State, pid: nat, g: nat)
    requires Covered(DoneBy(s, pid), g)
    ensures Coverable(cfg, s, pid, g)
  {
    assert HeadsAdvance(cfg, s, []) && Exec(cfg, s, []) == s;
  }

  lemma {:induction false} AdvanceFirst(cfg: Config, s: State, step: Step, later: seq<Step>)
    requires HeadAdvances(cfg, s, step) && HeadsAdvance(cfg, Next(cfg, s, step), later)
    ensures HeadsAdvance(cfg, s, [step] + later) && Exec(cfg, s, [step] + later) == Exec(cfg, Next(cfg, s, step), later)
  {
    var whole := [step] + later;
    if later == [] {
      assert whole == [step] && whole[..0] == [];
    } else {
      AdvanceFirst(cfg, s, step, later[..|later| - 1]);
      assert whole[..|whole| - 1] == [step] + later[..|later| - 1];
    }
  }

  lemma CoverableStep(cfg: Config, s: State, step: Step, pid: nat, g: nat)
    requires HeadAdvances(cfg, s, step) && Coverable(cfg, Next(cfg, s, step), pid, g)
    ensures Coverable(cfg, s, pid, g)
  {
    var later :| HeadsAdvance(cfg, Next(cfg, s, step), later)
              && Covered(DoneBy(Exec(cfg, Next(cfg, s, step), later), pid), g);
    AdvanceFirst(cfg, s, step, later);
  }

  // An answer that has the block only has to arrive.
  lemma AnsweredCoverable(cfg: Config, s: State, q: nat, g: nat)
    requires q in s.flight && s.flight[q].served.Some? && s.flight[q].served.value.hi < |s.blocks|
    requires s.flight[q].served.value.lo <= g <= s.flight[q].served.value.hi
    ensures Coverable(cfg, s, s.flight[q].request.pid, g)
  {
    var pid := s.flight[q].request.pid;
    FinishDone(s, q, pid);
    CoveredMore(DoneBy(s, pid), s.flight[q].served.value, g);
    CoverableNow(cfg, Finish(s, q), pid, g);
    CoverableStep(cfg, s, FinishQuery(q), pid, g);
  }

  // A query that starts early enough can be answered up to the block once it is produced.
  lemma {:induction false} AskedCoverable(cfg: Config, s: State, q: nat, g: nat)
    requires q in s.flight && s.flight[q].served.None? && !Misses(s.flight[q], g)
    ensures Coverable(cfg, s, s.flight[q].request.pid, g)
    decreases g + 1 - |s.blocks|
  {
    var pid := s.flight[q].request.pid;
    if g < |s.blocks| {
      AnsweredCoverable(cfg, Next(cfg, s, ServeQuery(q, g)), q, g);
      CoverableStep(cfg, s, ServeQuery(q, g), pid, g);
    } else {
      AskedCoverable(cfg, Next(cfg, s, ProduceBlock([])), q, g);
      CoverableStep(cfg, s, ProduceBlock([]), pid, g);
    }
  }

  lemma {:induction false} PollRequested(polls: seq<Poll>, latest: Option<nat>, p: Poll) returns (i: nat)
    requires p in polls
    ensures i < |Requests(polls, latest)|
    ensures Requests(polls, latest)[i] == Request(p.pid, p.tag, if p.lastPolled.Some? then p.lastPolled else latest)
  {
    var most := polls[..|polls| - 1];
    if p == polls[|polls| - 1] {
      i := |Requests(most, latest)|;
    } else {
      assert polls == most + [polls[|polls| - 1]];
      i := PollRequested(most, latest, p);
    }
  }

  // The head to read next: the one on record again, or the first block.
  function NextHead(s: State): nat {
    s.svc.poller.latest.GetOr(0)
  }

  lemma PollAsks(cfg: Config, s: State, p: Poll, g: nat) returns (q: nat)
    requires p in s.svc.poller.polls && s.ticks > 0 && NextHead(s) < |s.blocks|
    requires !StartsPast(p, s.svc.poller.latest, g)
    ensures var t := Next(cfg, s, ReadHead(Some(NextHead(s))));
      && q in t.flight && t.flight[q].served.None? && t.flight[q].request.pid == p.pid && !Misses(t.flight[q], g)
  {
    var head := Some(NextHead(s));
    var i := PollRequested(s.svc.poller.polls, head, p);
    var u := s.(ticks := s.ticks - 1, svc := s.svc.(poller := s.svc.poller.(latest := head)));
    q := EnqueueSends(u, Requests(s.svc.poller.polls, head), i);
  }

  // A listed poll that does not start past the block asks for it at the next tick.
  lemma PolledCoverable(cfg: Config, s: State, p: Poll, g: nat)
    requires Coupled(s.svc) && Identified(s) && Paced(s)
    requires p in s.svc.poller.polls && !StartsPast(p, s.svc.poller.latest, g)
    ensures Coverable(cfg, s, p.pid, g)
  {
    var t := Next(cfg, s, FireTimer);
    var read := ReadHead(Some(NextHead(s)));
    var q := PollAsks(cfg, t, p, g);
    AskedCoverable(cfg, Next(cfg, t, read), q, g);
    CoverableStep(cfg, t, read, p.pid, g);
    CoverableStep(cfg, s, FireTimer, p.pid, g);
  }

  lemma NotLostCoverable(cfg: Config, s: State, pid: nat, g: nat)
    requires Coupled(s.svc) && Identified(s) && Paced(s) && !Lost(s, pid, g)
    ensures Coverable(cfg, s, pid, g)
  {
    if Covered(DoneBy(s, pid), g) {
      CoverableNow(cfg, s, pid, g);
    } else if q :| q in s.flight && s.flight[q].request.pid == pid && !Misses(s.flight[q], g) {
      if s.flight[q].served.Some? {
        AnsweredCoverable(cfg, s, q, g);
      } else {
        AskedCoverable(cfg, s, q, g);
      }
    } else {
      var p :| p in s.svc.poller.polls && p.pid == pid && !StartsPast(p, s.svc.poller.latest, g);
      PolledCoverable(cfg, s, p, g);
    }
  }

  lemma LostIffAt(cfg: Config, s: State, pid: nat, g: nat)
    requires Coupled(s.svc) && Identified(s) && Paced(s) && pid < s.svc.poller.nextPid
    ensures !Coverable(cfg, s, pid, g) <==> Lost(s, pid, g)
  {
    if Lost(s, pid, g) {
      forall later | HeadsAdvance(cfg, s, later) ensures !Covered(DoneBy(Exec(cfg, s, later), pid), g) {
        LostForGood(cfg, s, later, pid, g);
      }
    } else {
      NotLostCoverable(cfg, s, pid, g);
    }
  }

  // Every run with advancing heads, every poll ever listed, every block: the poll never completes a range with the
  // block, however the server goes on, exactly if the block is lost.
  lemma LostIff(cfg: Config, steps: seq<Step>, pid: nat, g: nat)
    requires HeadsAdvance(cfg, Init(), steps) && pid < Run(cfg, steps).svc.poller.nextPid
    ensures !Coverable(cfg, Run(cfg, steps), pid, g) <==> Lost(Run(cfg, steps), pid, g)
  {
    PacedAlways(cfg, steps);
    IdentifiedAlways(cfg, steps);
    CoupledAlways(cfg, steps);
    LostIffAt(cfg, Run(cfg, steps), pid, g);
  }

  /******* Answers that come late *******/

  // The head has passed the first block the poll is not answered for, and no other query of it brings that block.
  ghost predicate AnswersLate(s: State, q: nat)
    requires q in s.flight && s.flight[q].served.Some?
  {
    var pid, g := s.flight[q].request.pid, AnsweredTo(s, q) + 1;
    && s.svc.poller.latest.Some? && g < s.svc.poller.latest.value
    && forall x :: x in s.flight && x != q && s.flight[x].request.pid == pid ==> Misses(s.flight[x], g)
  }

  lemma UncoveredPastTop(ranges: seq<Range>, g: nat)
    requires Top(ranges) < g
    ensures !Covered(ranges, g)
  {
    forall i | 0 <= i < |ranges| ensures ranges[i].hi < g {
      TopBounds(ranges, i);
    }
  }

  lemma FinishMovesPoll(s: State, q: nat, p: Poll)
    requires p in s.svc.poller.polls
    requires q in s.flight && s.flight[q].served.Some? && s.flight[q].served.value.hi < |s.blocks|
    requires p.pid == s.flight[q].request.pid
    ensures var polls := Finish(s, q).svc.poller.polls;
      && p.(lastPolled := s.svc.poller.latest) in polls
      && forall p' :: p' in polls && p'.pid == p.pid ==> p'.lastPolled == s.svc.poller.latest
  {
    MarkedPolls(s.svc.poller.polls, p.pid, s.svc.poller.latest);
    var i :| 0 <= i < |s.svc.poller.polls| && s.svc.poller.polls[i] == p;
    assert MarkPolled(s.svc.poller.polls, p.pid, s.svc.poller.latest)[i] == p.(lastPolled := s.svc.poller.latest);
  }

  lemma LateIsLost(s: State, q: nat, p: Poll)
    requires p in s.svc.poller.polls
    requires q in s.flight && s.flight[q].served.Some? && s.flight[q].served.value.hi < |s.blocks|
    requires p.pid == s.flight[q].request.pid
    ensures Lost(Finish(s, q), p.pid, AnsweredTo(s, q) + 1) <==> AnswersLate(s, q)
  {
    var g, t := AnsweredTo(s, q) + 1, Finish(s, q);
    FinishDone(s, q, p.pid);
    UncoveredPastTop(DoneBy(t, p.pid), g);
    FinishMovesPoll(s, q, p);
    var moved := p.(lastPolled := s.svc.poller.latest);
    assert moved in t.svc.poller.polls && moved.pid == p.pid;
    assert StartsPast(moved, t.svc.poller.latest, g) <==>
           s.svc.poller.latest.Some? && g < s.svc.poller.latest.value;
    OthersMiss(s, q, p.pid, g);
  }

  // The queries under way after one has finished are the others.
  lemma OthersMiss(s: State, q: nat, pid: nat, g: nat)
    requires q in s.flight && s.flight[q].served.Some? && s.flight[q].served.value.hi < |s.blocks|
    ensures var t := Finish(s, q);
      (forall x :: x in t.flight && t.flight[x].request.pid == pid ==> Misses(t.flight[x], g)) <==>
      (forall x :: x in s.flight && x != q && s.flight[x].request.pid == pid ==> Misses(s.flight[x], g))
  {
    var t := Finish(s, q);
    assert forall x :: x in t.flight ==> x in s.flight && x != q && t.flight[x] == s.flight[x];
    assert forall x :: x in s.flight && x != q ==> x in t.flight && t.flight[x] == s.flight[x];
  }

  lemma LateAt(cfg: Config, s: State, q: nat, p: Poll)
    requires Coupled(s.svc) && Identified(s) && Paced(s) && Enabled(cfg, s, FinishQuery(q))
    requires p in s.svc.poller.polls && p.pid == s.flight[q].request.pid
    ensures !Coverable(cfg, Finish(s, q), p.pid, AnsweredTo(s, q) + 1) <==> AnswersLate(s, q)
  {
    CoupledStep(cfg, s, FinishQuery(q));
    IdentifiedFinish(s, q);
    PacedFinish(s, q);
    LostIffAt(cfg, Finish(s, q), p.pid, AnsweredTo(s, q) + 1);
    LateIsLost(s, q, p);
  }

  // Every run with advancing heads, however late its answers were: when a query of a listed poll finishes next, the
  // first block past its poll's answers is never asked for again, however the server goes on with advancing heads,
  // exactly if the head on record is past that block and no other query of the poll brings it.
  lemma LateAnswerLosesIff(cfg: Config, steps: seq<Step>, q: nat, p: Poll)
    requires HeadsAdvance(cfg, Init(), steps) && Enabled(cfg, Run(cfg, steps), FinishQuery(q))
    requires p in Run(cfg, steps).svc.poller.polls && p.pid == Run(cfg, steps).flight[q].request.pid
    ensures var s := Run(cfg, steps);
      !Coverable(cfg, Finish(s, q), p.pid, AnsweredTo(s, q) + 1) <==> AnswersLate(s, q)
  {
    PacedAlways(cfg, steps);
    IdentifiedAlways(cfg, steps);
    CoupledAlways(cfg, steps);
    LateAt(cfg, Run(cfg, steps), q, p);
  }

  /******* Where a poll begins *******/

  ghost predicate StartedBy(done: seq<Range>, p: Poll) {
    forall i :: 0 <= i < |done| ==> p.lastPolled.Some? && done[i].lo <= p.lastPolled.value
  }

  // No completed range of the poll, while it is a listed log poll, starts past the head it has moved to.
  ghost predicate Begun(s: State, pid: nat) {
    forall p :: IsLogPoll(s, p) && p.pid == pid ==> StartedBy(DoneBy(s, pid), p)
  }

  lemma BegunFinish(s: State, q: nat, pid: nat)
    requires Identified(s) && PidCovered(s, pid) && Paced(s) && Begun(s, pid)
    requires q in s.flight && s.flight[q].served.Some? && s.flight[q].served.value.hi < |s.blocks|
    ensures Begun(Finish(s, q), pid)
  {
    var t, of := Finish(s, q), s.flight[q].request.pid;
    MarkedPolls(s.svc.poller.polls, of, s.svc.poller.latest);
    forall p | IsLogPoll(t, p) && p.pid == pid ensures StartedBy(DoneBy(t, pid), p) {
      var p0 :| p0 in s.svc.poller.polls && p == if p0.pid == of then p0.(lastPolled := s.svc.poller.latest) else p0;
      assert StartedBy(DoneBy(s, pid), p0) by { assert IsLogPoll(s, p0); }
      FinishDone(s, q, pid);
      if pid == of {
        QueryStartsInTime(s, q, p0);
      }
    }
  }

  lemma QueryStartsInTime(s: State, q: nat, p: Poll)
    requires Identified(s) && PidCovered(s, p.pid) && IsLogPoll(s, p)
    requires q in s.flight && s.flight[q].served.Some? && p.pid == s.flight[q].request.pid
    ensures s.svc.poller.latest.Some? && s.flight[q].served.value.lo <= s.svc.poller.latest.value
  {
    InPollOrder(s, p);
    assert IsLiveLogQuery(s, q);
    assert QueryConnects(s, s.flight[q]);
  }

  lemma BegunOther(cfg: Config, s: State, step: Step, pid: nat)
    requires Identified(s) && Begun(s, pid) && !step.FinishQuery?
    ensures Begun(Next(cfg, s, step), pid)
  {
    var t := Next(cfg, s, step);
    StepEvolves(cfg, s, step);
    QuietStep(cfg, s, step);
    forall p | IsLogPoll(t, p) && p.pid == pid ensures StartedBy(DoneBy(t, pid), p) {
      assert DoneBy(t, pid) == DoneBy(s, pid);
      if p in s.svc.poller.polls {
        assert IsLogPoll(s, p);
      } else {
        assert p.pid !in s.book.done;
      }
    }
  }

  lemma {:induction false} BegunAlways(cfg: Config, steps: seq<Step>, pid: nat)
    requires Timely(cfg, steps, pid)
    ensures Begun(Run(cfg, steps), pid)
  {
    if steps != [] {
      var most, step := steps[..|steps| - 1], steps[|steps| - 1];
      BegunAlways(cfg, most, pid);
      TimelyAdvances(cfg, most, pid);
      PacedAlways(cfg, most);
      IdentifiedAlways(cfg, most);
      CoverageAlways(cfg, most, pid);
      if !step.FinishQuery? {
        BegunOther(cfg, Run(cfg, most), step, pid);
      } else if Enabled(cfg, Run(cfg, most), step) {
        BegunFinish(Run(cfg, most), step.q, pid);
      }
    }
  }

  // Before a poll has completed a range, the head is past the block; afterwards, its first range starts after it
  // and no other has it. Nothing under way brings it.
  ghost predicate Skipped(s: State, pid: nat, b: nat) {
    var done := DoneBy(s, pid);
    && (if done == [] then s.svc.poller.latest.Some? && b < s.svc.poller.latest.value
        else b < done[0].lo && !Covered(done, b))
    && forall q :: q in s.flight && s.flight[q].request.pid == pid ==> Misses(s.flight[q], b)
  }

  lemma SkippedIsLost(s: State, p: Poll, b: nat)
    requires Coupled(s.svc) && PidCovered(s, p.pid) && Begun(s, p.pid) && IsLogPoll(s, p)
    ensures Lost(s, p.pid, b) <==> Skipped(s, p.pid, b)
  {
    var done := DoneBy(s, p.pid);
    assert PollCovered(s, p);
    forall p' | p' in s.svc.poller.polls && p'.pid == p.pid ensures p' == p {
      SamePoll(s.svc.poller, p', p);
    }
    if done != [] {
      assert StartedBy(done, p);
      assert done[0].lo <= p.lastPolled.value;
      if done[0].lo <= b <= Top(done) {
        ConnectedHasNoGap(done, b);
      }
    }
  }

  lemma NeverAskedAt(cfg: Config, s: State, p: Poll, b: nat)
    requires Coupled(s.svc) && Identified(s) && Paced(s) && IsLogPoll(s, p)
    requires PidCovered(s, p.pid) && Begun(s, p.pid)
    ensures !Coverable(cfg, s, p.pid, b) <==> Skipped(s, p.pid, b)
  {
    var i :| 0 <= i < |s.svc.poller.polls| && s.svc.poller.polls[i] == p;
    LostIffAt(cfg, s, p.pid, b);
    SkippedIsLost(s, p, b);
  }

  // Every listed log poll that has been answered in time, however late the answers to others: the blocks it never
  // asks for, among them those produced after a subscriber joined, are exactly those it skipped where it began.
  lemma NeverAskedIff(cfg: Config, steps: seq<Step>, p: Poll, b: nat)
    requires Timely(cfg, steps, p.pid) && IsLogPoll(Run(cfg, steps), p)
    ensures !Coverable(cfg, Run(cfg, steps), p.pid, b) <==> Skipped(Run(cfg, steps), p.pid, b)
  {
    TimelyAdvances(cfg, steps, p.pid);
    PacedAlways(cfg, steps);
    IdentifiedAlways(cfg, steps);
    CoupledAlways(cfg, steps);
    CoverageAlways(cfg, steps, p.pid);
    BegunAlways(cfg, steps, p.pid);
    NeverAskedAt(cfg, Run(cfg, steps), p, b);
  }

  /******* Two runs that lose a block *******/

  lemma RunOne(cfg: Config, steps: seq<Step>, step: Step)
    ensures Run(cfg, steps + [step]) == Next(cfg, Run(cfg, steps), step)
    ensures Timely(cfg, steps + [step], 0) <==> Timely(cfg, steps, 0) && TimelyStep(cfg, Run(cfg, steps), step, 0)
  {
    assert (steps + [step])[..|steps|] == steps;
  }

  lemma RequestsOne(p: Poll, latest: Option<nat>)
    ensures Requests([p], latest) == [Request(p.pid, p.tag, if p.lastPolled.Some? then p.lastPolled else latest)]
  {
    assert [p][..0] == [];
  }

  lemma EnqueueOne(s: State, r: Request)
    ensures Enqueue(s, [r]) == s.(flight := s.flight[s.nextQuery := Query(r, None)], nextQuery := s.nextQuery + 1)
  {
    assert [r][..0] == [];
    assert Enqueue(s, []) == s;
  }

  lemma AskOne(cfg: Config, s: State, p: Poll, head: nat)
    requires s.svc.poller.polls == [p] && s.ticks > 0 && head < |s.blocks|
    ensures Next(cfg, s, ReadHead(Some(head))) ==
            s.(ticks := s.ticks - 1,
               svc := s.svc.(poller := s.svc.poller.(latest := Some(head))),
               flight := s.flight[s.nextQuery := Query(
                 Request(p.pid, p.tag, if p.lastPolled.Some? then p.lastPolled else Some(head)), None)],
               nextQuery := s.nextQuery + 1)
  {
    RequestsOne(p, Some(head));
    EnqueueOne(s.(ticks := s.ticks - 1, svc := s.svc.(poller := s.svc.poller.(latest := Some(head)))),
               Request(p.pid, p.tag, if p.lastPolled.Some? then p.lastPolled else Some(head)));
  }

  // One log subscription, and the timer fired twice.
  lemma OneLogPoll(cfg: Config) returns (steps: seq<Step>)
    requires cfg.enabled && cfg.subLimit > 0
    ensures Timely(cfg, steps, 0)
    ensures var s := Run(cfg, steps);
            && s.svc.poller.polls == [Poll(0, Tag(Logs, ""), None)] && s.svc.poller.latest == None
            && s.ticks == 2 && s.flight == map[] && s.nextQuery == 0 && |s.blocks| == 1 && s.book.done == map[]
            && s.svc.subs == map[Tag(Logs, "") := [Subscriber(0, 0)]]
            && s.book.born == map[0 := Birth(0, Tag(Logs, ""), 1)]
  {
    RunOne(cfg, [], OpenConnection(0, "", 0));
    var s1 := [] + [OpenConnection(0, "", 0)];
    RunOne(cfg, s1, RequestLogs(0, ""));
    var s2 := s1 + [RequestLogs(0, "")];
    assert Run(cfg, s2).pending == map[0 := Pending(0, Tag(Logs, ""), false)];
    RunOne(cfg, s2, FinishValidation(0, true));
    var s3 := s2 + [FinishValidation(0, true)];
    assert Run(cfg, s3).svc.poller.polls == [Poll(0, Tag(Logs, ""), None)];
    assert [] + [Subscriber(0, 0)] == [Subscriber(0, 0)];
    assert Run(cfg, s3).svc.subs == map[Tag(Logs, "") := [Subscriber(0, 0)]];
    RunOne(cfg, s3, FireTimer);
    RunOne(cfg, s3 + [FireTimer], FireTimer);
    steps := s3 + [FireTimer] + [FireTimer];
  }

  // Its first query asked for block 0.
  lemma OneAsked(cfg: Config) returns (steps: seq<Step>)
    requires cfg.enabled && cfg.subLimit > 0
    ensures Timely(cfg, steps, 0)
    ensures var s := Run(cfg, steps);
            && s.svc.poller.polls == [Poll(0, Tag(Logs, ""), None)] && s.svc.poller.latest == Some(0)
            && s.ticks == 1 && s.nextQuery == 1 && |s.blocks| == 1 && s.book.done == map[]
            && s.flight == map[0 := Query(Request(0, Tag(Logs, ""), Some(0)), None)]
  {
    var before := OneLogPoll(cfg);
    RunOne(cfg, before, ReadHead(Some(0)));
    AskOne(cfg, Run(cfg, before), Poll(0, Tag(Logs, ""), None), 0);
    steps := before + [ReadHead(Some(0))];
  }

  lemma LateShape(s: State, p: Poll)
    requires p == Poll(0, Tag(Logs, ""), None)
    requires s.svc.poller.polls == [p] && s.svc.poller.latest == Some(2) && |s.blocks| == 3 && s.book.done == map[]
    requires s.flight == map[0 := Query(Request(0, p.tag, Some(0)), Some(Range(0, 0))),
                             1 := Query(Request(0, p.tag, Some(2)), None)]
    ensures IsLogPoll(s, p) && AnswersLate(s, 0) && AnsweredTo(s, 0) == 0
  {
    assert DoneBy(s, 0) == [] && [] + [Range(0, 0)] == [Range(0, 0)];
    assert [Range(0, 0)][..0] == [];
    assert Top([Range(0, 0)]) == 0;
    assert p in s.svc.poller.polls by { assert s.svc.poller.polls[0] == p; }
  }

  // The query is answered up to block 0, and two blocks are produced.
  lemma OneServed(cfg: Config) returns (steps: seq<Step>)
    requires cfg.enabled && cfg.subLimit > 0
    ensures Timely(cfg, steps, 0)
    ensures var s := Run(cfg, steps);
            && s.svc.poller.polls == [Poll(0, Tag(Logs, ""), None)] && s.svc.poller.latest == Some(0)
            && s.ticks == 1 && s.nextQuery == 1 && |s.blocks| == 3 && s.book.done == map[]
            && s.flight == map[0 := Query(Request(0, Tag(Logs, ""), Some(0)), Some(Range(0, 0)))]
  {
    var s0 := OneAsked(cfg);
    RunOne(cfg, s0, ServeQuery(0, 0));
    var s1 := s0 + [ServeQuery(0, 0)];
    RunOne(cfg, s1, ProduceBlock([]));
    var s2 := s1 + [ProduceBlock([])];
    RunOne(cfg, s2, ProduceBlock([]));
    steps := s2 + [ProduceBlock([])];
  }

  // It does happen: a subscription's first query is answered at block 0, two blocks are produced,
  // the timer reads the head again, and only then does the first query finish. Block 1 is lost.
  lemma LateFinishHappens(cfg: Config) returns (steps: seq<Step>, p: Poll)
    requires cfg.enabled && cfg.subLimit > 0
    ensures Timely(cfg, steps, p.pid) && Enabled(cfg, Run(cfg, steps), FinishQuery(0))
    ensures var s := Run(cfg, steps);
      IsLogPoll(s, p) && p.pid == s.flight[0].request.pid && AnswersLate(s, 0) && AnsweredTo(s, 0) == 0
  {
    var before := OneServed(cfg);
    p := Poll(0, Tag(Logs, ""), None);
    RunOne(cfg, before, ReadHead(Some(2)));
    AskOne(cfg, Run(cfg, before), p, 2);
    steps := before + [ReadHead(Some(2))];
    LateShape(Run(cfg, steps), p);
  }

  // A subscriber joins at height 1, blocks 1 and 2 are produced, and only then does the timer read its first head.
  // Its poll starts at block 2: block 1 is never asked for.
  lemma JoinedBlockSkipped(cfg: Config) returns (steps: seq<Step>, p: Poll, sub: Subscriber)
    requires cfg.enabled && cfg.subLimit > 0
    ensures Timely(cfg, steps, p.pid)
    ensures var s := Run(cfg, steps);
      && IsLogPoll(s, p) && Listed(s.svc, p.tag, sub)
      && sub.id in s.book.born && s.book.born[sub.id].height <= 1 < |s.blocks| && Skipped(s, p.pid, 1)
  {
    var before := OneLogPoll(cfg);
    p, sub := Poll(0, Tag(Logs, ""), None), Subscriber(0, 0);
    RunOne(cfg, before, ProduceBlock([]));
    var s1 := before + [ProduceBlock([])];
    RunOne(cfg, s1, ProduceBlock([]));
    var s2 := s1 + [ProduceBlock([])];
    RunOne(cfg, s2, ReadHead(Some(2)));
    AskOne(cfg, Run(cfg, s2), p, 2);
    steps := s2 + [ReadHead(Some(2))];
  }
}
