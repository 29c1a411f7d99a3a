/** Every log of a covered block reaches every subscriber that was there before it, exactly once. */
module EngineExactlyOnce {
  import opened Wrappers
  import opened Subscriptions
  import opened PollerServiceModel
  import opened Engine
  import opened EngineCoupling
  import opened EngineDelivery
  import opened EngineCoverage

  // A matching log of block b, produced after the subscriber joined.
  ghost predicate Awaited(s: State, p: Poll, sub: Subscriber, log: Log, b: nat) {
    && IsLogPoll(s, p)
    && Listed(s.svc, p.tag, sub)
    && b < |s.blocks| && log in s.blocks[b] && p.tag in log.matches
    && sub.id in s.book.born && s.book.born[sub.id].height <= b
  }

  // One that lies in a completed range of its poll.
  ghost predicate Due(s: State, p: Poll, sub: Subscriber, log: Log, b: nat) {
    Awaited(s, p, sub, log, b) && Covered(DoneBy(s, p.pid), b)
  }

  ghost predicate Delivered(s: State) {
    forall p, sub, log, b :: Due(s, p, sub, log, b) ==> Sends(s.svc.channel.wire, Key(LogData(log), sub.id)) >= 1
  }

  // Completed ranges are about produced blocks.
  ghost predicate RangesProduced(s: State) {
    forall pid, i :: 0 <= i < |DoneBy(s, pid)| ==> DoneBy(s, pid)[i].hi < |s.blocks|
  }

  ghost predicate Accounted(s: State) {
    forall key :: SentOncePerEntry(s, key)
  }

  // A subscriber listed after a step was listed before it, or has just been given its id.
  lemma ListedEvolves(cfg: Config, s: State, step: Step)
    requires Registered(s)
    ensures var t := Next(cfg, s, step);
            && (forall id :: id in s.book.born ==> id in t.book.born && t.book.born[id] == s.book.born[id])
            && (forall tag, sub :: Listed(t.svc, tag, sub) ==>
                  Listed(s.svc, tag, sub) || (sub.id in t.book.born && t.book.born[sub.id].height == |s.blocks|))
  {
    if Enabled(cfg, s, step) {
      ListedStep(cfg, s, step);
      BornStep(cfg, s, step);
    }
  }

  // Other steps make nothing newly due: what would be has no completed range, or joined too late.
  lemma DueBefore(cfg: Config, s: State, step: Step, p: Poll, sub: Subscriber, log: Log, b: nat)
    requires !step.FinishQuery?
    requires Identified(s) && Registered(s) && RangesProduced(s)
    requires Due(Next(cfg, s, step), p, sub, log, b)
    ensures Due(s, p, sub, log, b)
  {
    QuietStep(cfg, s, step);
    StepEvolves(cfg, s, step);
    ListedEvolves(cfg, s, step);
    var i :| 0 <= i < |DoneBy(s, p.pid)| && DoneBy(s, p.pid)[i].lo <= b <= DoneBy(s, p.pid)[i].hi;
    assert DoneBy(s, p.pid)[i].hi < |s.blocks|;
    assert IsLogPoll(s, p);
  }

  // A log in the answer of a live query is in the cache of every subscriber once the query has finished.
  lemma AnsweredIsCached(s: State, q: nat, sub: Subscriber, log: Log)
    requires q in s.flight && s.flight[q].served.Some? && s.flight[q].served.value.hi < |s.blocks|
    requires LogData(log) in Answer(s.blocks, s.flight[q].served.value, s.flight[q].request.tag)
    requires sub in SubsOf(s.svc.subs, s.flight[q].request.tag)
    ensures Key(LogData(log), sub.id) in Finish(s, q).svc.channel.cache
  {
    var request, served := s.flight[q].request, s.flight[q].served;
    SendBatchLedger(s.svc.channel, SubsOf(s.svc.subs, request.tag), Answer(s.blocks, served.value, request.tag),
                    Key(LogData(log), sub.id));
  }

  lemma SendsKept(s: State, q: nat, key: Key)
    requires q in s.flight && s.flight[q].served.Some? && s.flight[q].served.value.hi < |s.blocks|
    ensures Sends(Finish(s, q).svc.channel.wire, key) >= Sends(s.svc.channel.wire, key)
  {
    var request, served := s.flight[q].request, s.flight[q].served;
    SendBatchLedger(s.svc.channel, SubsOf(s.svc.subs, request.tag), Answer(s.blocks, served.value, request.tag), key);
  }

  lemma FinishDone(s: State, q: nat, pid: nat)
    requires q in s.flight && s.flight[q].served.Some? && s.flight[q].served.value.hi < |s.blocks|
    ensures DoneBy(Finish(s, q), pid) ==
            if pid == s.flight[q].request.pid then DoneBy(s, pid) + [s.flight[q].served.value] else DoneBy(s, pid)
  {
  }

  lemma AwaitedBefore(s: State, q: nat, p: Poll, sub: Subscriber, log: Log, b: nat) returns (p0: Poll)
    requires q in s.flight && s.flight[q].served.Some? && s.flight[q].served.value.hi < |s.blocks|
    requires Awaited(Finish(s, q), p, sub, log, b)
    ensures p0.pid == p.pid && Awaited(s, p0, sub, log, b)
  {
    MarkedPolls(s.svc.poller.polls, s.flight[q].request.pid, s.svc.poller.latest);
    p0 :| p0 in s.svc.poller.polls &&
          p == if p0.pid == s.flight[q].request.pid then p0.(lastPolled := s.svc.poller.latest) else p0;
    assert Listed(s.svc, p0.tag, sub) by { assert Finish(s, q).svc.subs == s.svc.subs; }
  }

  // What is due after a query has finished was due before, or is in its answer.
  lemma DueWasAnswered(cfg: Config, s: State, q: nat, p: Poll, sub: Subscriber, log: Log, b: nat)
      returns (p0: Poll)
    requires Enabled(cfg, s, FinishQuery(q))
    requires Identified(s) && Due(Finish(s, q), p, sub, log, b)
    ensures Due(s, p0, sub, log, b)
            || (LogData(log) in Answer(s.blocks, s.flight[q].served.value, s.flight[q].request.tag)
                && sub in SubsOf(s.svc.subs, s.flight[q].request.tag))
  {
    p0 := AwaitedBefore(s, q, p, sub, log, b);
    FinishDone(s, q, p.pid);
    CoveredMore(DoneBy(s, p.pid), s.flight[q].served.value, b);
  }

  lemma DueOnFinish(cfg: Config, s: State, q: nat, p: Poll, sub: Subscriber, log: Log, b: nat)
    requires Enabled(cfg, s, FinishQuery(q))
    requires Identified(s) && Delivered(s) && Accounted(s) && Accounted(Finish(s, q))
    requires Due(Finish(s, q), p, sub, log, b)
    ensures Sends(Finish(s, q).svc.channel.wire, Key(LogData(log), sub.id)) >= 1
  {
    var key := Key(LogData(log), sub.id);
    var p0 := DueWasAnswered(cfg, s, q, p, sub, log, b);
    if Due(s, p0, sub, log, b) {
      SendsKept(s, q, key);
    } else {
      AnsweredIsCached(s, q, sub, log);
      assert SentOncePerEntry(Finish(s, q), key);
    }
  }

  lemma InPollOrder(s: State, p: Poll)
    requires p in s.svc.poller.polls
    ensures LivePoll(s, p.pid, p.tag)
  {
    var i :| 0 <= i < |s.svc.poller.polls| && s.svc.poller.polls[i] == p;
  }

  lemma DeliveredStep(cfg: Config, s: State, step: Step)
    requires Identified(s) && Registered(s) && RangesProduced(s) && Delivered(s)
    requires Accounted(s) && Accounted(Next(cfg, s, step))
    ensures Delivered(Next(cfg, s, step))
  {
    var t := Next(cfg, s, step);
    forall p, sub, log, b | Due(t, p, sub, log, b)
      ensures Sends(t.svc.channel.wire, Key(LogData(log), sub.id)) >= 1
    {
      if step.FinishQuery? && Enabled(cfg, s, step) {
        DueOnFinish(cfg, s, step.q, p, sub, log, b);
      } else if !step.FinishQuery? {
        QuietStep(cfg, s, step);
        DueBefore(cfg, s, step, p, sub, log, b);
      } else {
        assert Due(s, p, sub, log, b);
      }
    }
  }

  lemma AccountedAlways(cfg: Config, steps: seq<Step>)
    ensures Accounted(Run(cfg, steps))
  {
    forall key ensures SentOncePerEntry(Run(cfg, steps), key) {
      SentAlways(cfg, steps, key);
    }
  }

  lemma ProducedStep(cfg: Config, s: State, step: Step)
    requires RangesProduced(s)
    ensures RangesProduced(Next(cfg, s, step))
  {
    var t := Next(cfg, s, step);
    if !step.FinishQuery? {
      QuietStep(cfg, s, step);
      assert forall pid :: DoneBy(t, pid) == DoneBy(s, pid);
    } else if Enabled(cfg, s, step) {
      forall pid, i | 0 <= i < |DoneBy(t, pid)| ensures DoneBy(t, pid)[i].hi < |t.blocks| {
        FinishDone(s, step.q, pid);
        assert i < |DoneBy(s, pid)| ==> DoneBy(s, pid)[i].hi < |s.blocks|;
      }
    }
  }

  lemma {:induction false} ProducedAlways(cfg: Config, steps: seq<Step>)
    ensures RangesProduced(Run(cfg, steps))
  {
    if steps != [] {
      ProducedAlways(cfg, steps[..|steps| - 1]);
      ProducedStep(cfg, Run(cfg, steps[..|steps| - 1]), steps[|steps| - 1]);
    }
  }

  lemma {:induction false} DeliveredAlways(cfg: Config, steps: seq<Step>)
    ensures Delivered(Run(cfg, steps))
  {
    if steps != [] {
      var most := steps[..|steps| - 1];
      DeliveredAlways(cfg, most);
      IdentifiedAlways(cfg, most);
      AddressedAlways(cfg, most);
      ProducedAlways(cfg, most);
      AccountedAlways(cfg, most);
      AccountedAlways(cfg, steps);
      DeliveredStep(cfg, Run(cfg, most), steps[|steps| - 1]);
    }
  }

  // Every run, whatever the heads and however late the answers: a matching log of a block that lies in a completed
  // range of the poll and was produced after the subscriber joined has been sent to that subscriber, exactly once
  // when its cache entry was never lost.
  lemma ExactlyOnce(cfg: Config, steps: seq<Step>, p: Poll, sub: Subscriber, log: Log, b: nat)
    requires Awaited(Run(cfg, steps), p, sub, log, b) && Covered(DoneBy(Run(cfg, steps), p.pid), b)
    ensures var s, key := Run(cfg, steps), Key(LogData(log), sub.id);
      1 <= Sends(s.svc.channel.wire, key) <= 1 + s.book.evicted[key]
  {
    var s, key := Run(cfg, steps), Key(LogData(log), sub.id);
    DeliveredAlways(cfg, steps);
    assert Due(s, p, sub, log, b);
    SentAlways(cfg, steps, key);
    assert SentOncePerEntry(s, key);
  }

  // If the answers to the poll are timely, that holds of every block from the start of its first completed range to
  // the end of any later one.
  lemma TimelyExactlyOnce(cfg: Config, steps: seq<Step>, p: Poll, sub: Subscriber, log: Log, b: nat, k: nat)
    requires Timely(cfg, steps, p.pid)
    requires Awaited(Run(cfg, steps), p, sub, log, b) && k < |DoneBy(Run(cfg, steps), p.pid)|
    requires DoneBy(Run(cfg, steps), p.pid)[0].lo <= b <= DoneBy(Run(cfg, steps), p.pid)[k].hi
    ensures var s, key := Run(cfg, steps), Key(LogData(log), sub.id);
      1 <= Sends(s.svc.channel.wire, key) <= 1 + s.book.evicted[key]
  {
    NoGap(cfg, steps, p, k, b);
    ExactlyOnce(cfg, steps, p, sub, log, b);
  }
}
