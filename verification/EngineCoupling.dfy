/** Subscriptions, polls, timer and gauges agree in every reachable state. */
module EngineCoupling {
  import opened Wrappers
  import opened Subscriptions
  import opened PollerServiceModel
  import opened Engine

  ghost predicate DistinctPolls(polls: seq<Poll>, bound: nat) {
    && (forall i, j :: 0 <= i < j < |polls| ==> polls[i].tag != polls[j].tag && polls[i].pid != polls[j].pid)
    && (forall i :: 0 <= i < |polls| ==> polls[i].pid < bound)
  }

  ghost predicate SoundPoller(p: Poller) {
    && DistinctPolls(p.polls, p.nextPid)
    && (p.active <==> p.polls != [])
    && p.headPolls == CountPolls(p.polls, NewHeads)
    && p.otherPolls == CountPolls(p.polls, Logs)
  }

  ghost predicate Coupled(svc: Service) {
    && (forall tag :: tag in svc.subs ==> svc.subs[tag] != [])
    && (forall tag :: tag in svc.subs <==> HasPoll(svc.poller.polls, tag))
    && SoundPoller(svc.poller)
  }

  lemma HasPollAfterAdd(polls: seq<Poll>, p: Poll, tag: Tag)
    ensures HasPoll(polls + [p], tag) <==> HasPoll(polls, tag) || tag == p.tag
  {
    var more := polls + [p];
    if HasPoll(polls, tag) {
      var i :| 0 <= i < |polls| && polls[i].tag == tag;
      assert more[i].tag == tag;
    }
    if tag == p.tag {
      assert more[|polls|].tag == tag;
    }
  }

  lemma DistinctAfterAdd(polls: seq<Poll>, p: Poll, bound: nat)
    requires DistinctPolls(polls, bound) && p.pid < bound
    requires forall q :: q in polls ==> q.tag != p.tag && q.pid != p.pid
    ensures DistinctPolls(polls + [p], bound)
  {
    var more := polls + [p];
    forall i, j | 0 <= i < j < |more|
      ensures more[i].tag != more[j].tag && more[i].pid != more[j].pid
    {
      assert more[i] == polls[i] && polls[i] in polls;
    }
  }

  lemma SoundAdd(p: Poller, tag: Tag)
    requires SoundPoller(p)
    ensures SoundPoller(AddPoll(p, tag))
  {
    if !HasPoll(p.polls, tag) {
      var added := Poll(p.nextPid, tag, None);
      assert DistinctPolls(p.polls, p.nextPid + 1);
      DistinctAfterAdd(p.polls, added, p.nextPid + 1);
      assert (p.polls + [added])[..|p.polls|] == p.polls;
    }
  }

  lemma TagsAfterAdd(p: Poller, tag: Tag)
    ensures forall t :: HasPoll(AddPoll(p, tag).polls, t) <==> HasPoll(p.polls, t) || t == tag
  {
    forall t ensures HasPoll(AddPoll(p, tag).polls, t) <==> HasPoll(p.polls, t) || t == tag {
      HasPollAfterAdd(p.polls, Poll(p.nextPid, tag, None), t);
    }
  }

  lemma CoupledSubscribe(svc: Service, same: bool, conn: nat, tag: Tag, id: nat)
    requires Coupled(svc)
    ensures Coupled(Subscribe(svc, same, conn, tag, id))
  {
    SoundAdd(svc.poller, tag);
    TagsAfterAdd(svc.poller, tag);
  }

  lemma WithoutDistinct(polls: seq<Poll>, tags: set<Tag>, bound: nat)
    requires DistinctPolls(polls, bound)
    ensures DistinctPolls(Without(polls, tags), bound)
  {
    if polls != [] {
      var most, last := polls[..|polls| - 1], polls[|polls| - 1];
      assert DistinctPolls(most, bound);
      WithoutDistinct(most, tags, bound);
      if last.tag !in tags {
        var rest := Without(most, tags);
        forall q | q in rest ensures q.tag != last.tag && q.pid != last.pid {
          WithoutKeepsOrder(most, tags);
          var i :| 0 <= i < |most| && most[i] == q;
          assert polls[i] == q;
        }
        DistinctAfterAdd(rest, last, bound);
      }
    }
  }

  // Dropping nothing but a list that is empty already, or dropping something of it, keeps the timer right.
  lemma ActiveAfterDrop(polls: seq<Poll>, tags: set<Tag>)
    ensures Without(polls, tags) != [] ==> polls != []
    ensures tags == {} ==> Without(polls, tags) == polls
  {
    if tags == {} {
      WithoutNothing(polls);
    }
  }

  lemma SoundDrop(p: Poller, tags: set<Tag>)
    requires SoundPoller(p)
    ensures SoundPoller(DropTags(p, tags))
  {
    WithoutDistinct(p.polls, tags, p.nextPid);
    ActiveAfterDrop(p.polls, tags);
  }

  lemma CoupledUnsubscribe(svc: Service, conn: nat, sel: Option<nat>)
    requires Coupled(svc)
    ensures Coupled(Unsubscribe(svc, conn, sel))
  {
    SoundDrop(svc.poller, Emptied(svc.subs, conn, sel));
    WithoutKeepsOrder(svc.poller.polls, Emptied(svc.subs, conn, sel));
  }

  lemma CountMarked(polls: seq<Poll>, pid: nat, latest: Option<nat>, event: Event)
    ensures CountPolls(MarkPolled(polls, pid, latest), event) == CountPolls(polls, event)
  {
    if polls != [] {
      var marked := MarkPolled(polls, pid, latest);
      assert marked[..|polls| - 1] == MarkPolled(polls[..|polls| - 1], pid, latest);
      CountMarked(polls[..|polls| - 1], pid, latest, event);
    }
  }

  lemma CoupledMark(svc: Service, pid: nat, latest: Option<nat>)
    requires Coupled(svc)
    ensures Coupled(svc.(poller := svc.poller.(polls := MarkPolled(svc.poller.polls, pid, latest))))
  {
    var marked := MarkPolled(svc.poller.polls, pid, latest);
    CountMarked(svc.poller.polls, pid, latest, NewHeads);
    CountMarked(svc.poller.polls, pid, latest, Logs);
    forall tag ensures HasPoll(marked, tag) <==> HasPoll(svc.poller.polls, tag) {
      if HasPoll(svc.poller.polls, tag) {
        var i :| 0 <= i < |svc.poller.polls| && svc.poller.polls[i].tag == tag;
        assert marked[i].tag == tag;
      }
      if HasPoll(marked, tag) {
        var i :| 0 <= i < |marked| && marked[i].tag == tag;
        assert svc.poller.polls[i].tag == tag;
      }
    }
  }

  lemma CoupledStep(cfg: Config, s: State, step: Step)
    requires Coupled(s.svc)
    ensures Coupled(Next(cfg, s, step).svc)
  {
    if Enabled(cfg, s, step) {
      match step
      case CloseConnection(conn) => CoupledUnsubscribe(s.svc, conn, None);
      case FinishValidation(req, _) =>
        CoupledSubscribe(s.svc, cfg.sameSub, s.pending[req].conn, s.pending[req].tag, s.nextId);
      case RequestNewHeads(conn, filters) =>
        CoupledSubscribe(s.svc, cfg.sameSub, conn, Tag(NewHeads, filters), s.nextId);
      case RequestUnsubscribe(conn, sel) => CoupledUnsubscribe(s.svc, conn, sel);
      case ReadHead(head) => ReadHeadAdds(cfg, s, head);
      case FinishQuery(q) => CoupledMark(s.svc, s.flight[q].request.pid, s.svc.poller.latest);
      case _ =>
    }
  }

  // Every run: the subscribed tags are exactly the polled ones, each once; no subscriber list is
  // empty; the timer runs exactly when something is polled; the gauges count the polls by kind.
  lemma {:induction false} CoupledAlways(cfg: Config, steps: seq<Step>)
    ensures Coupled(Run(cfg, steps).svc)
  {
    if steps != [] {
      CoupledAlways(cfg, steps[..|steps| - 1]);
      CoupledStep(cfg, Run(cfg, steps[..|steps| - 1]), steps[|steps| - 1]);
    }
  }

  ghost predicate LogsOnly(s: State) {
    && (forall p :: p in s.svc.poller.polls ==> p.tag.event == Logs)
    && (forall r :: r in s.pending ==> s.pending[r].tag.event == Logs)
  }

  lemma LogsOnlyDrop(s: State, t: State, tags: set<Tag>)
    requires LogsOnly(s) && t.svc.poller.polls == Without(s.svc.poller.polls, tags) && t.pending == s.pending
    ensures LogsOnly(t)
  {
    WithoutKeepsOrder(s.svc.poller.polls, tags);
  }

  lemma LogsOnlyStep(cfg: Config, s: State, step: Step)
    requires !cfg.newHeads && LogsOnly(s) && Enabled(cfg, s, step)
    ensures LogsOnly(Apply(cfg, s, step))
  {
    if step.CloseConnection? {
      LogsOnlyDrop(s, Apply(cfg, s, step), Emptied(s.svc.subs, step.conn, None));
    } else if step.RequestUnsubscribe? {
      LogsOnlyDrop(s, Apply(cfg, s, step), Emptied(s.svc.subs, step.conn, step.sel));
    } else if step.ReadHead? {
      ReadHeadAdds(cfg, s, step.head);
    }
  }

  // With new-head subscriptions switched off, nothing ever polls for them, so the branch of
  // `poll` for unsupported events is never entered.
  lemma {:induction false} OnlyEnabledEvents(cfg: Config, steps: seq<Step>)
    requires !cfg.newHeads
    ensures LogsOnly(Run(cfg, steps))
  {
    if steps != [] {
      var s, step := Run(cfg, steps[..|steps| - 1]), steps[|steps| - 1];
      OnlyEnabledEvents(cfg, steps[..|steps| - 1]);
      if Enabled(cfg, s, step) {
        LogsOnlyStep(cfg, s, step);
      }
    }
  }

  lemma NothingStep(cfg: Config, s: State, step: Step)
    requires !cfg.enabled && s.svc.subs == map[] && s.pending == map[] && s.svc.channel.wire == []
    requires Enabled(cfg, s, step)
    ensures var t := Apply(cfg, s, step); t.svc.subs == map[] && t.pending == map[] && t.svc.channel.wire == []
  {
    if step.ReadHead? {
      ReadHeadAdds(cfg, s, step.head);
    } else if step.FinishQuery? {
      var request, served := s.flight[step.q].request, s.flight[step.q].served;
      SendNobody(s.svc.channel, Answer(s.blocks, served.value, request.tag));
    }
  }

  lemma {:induction false} SendNobody(ch: Channel, payloads: seq<Payload>)
    ensures SendBatch(ch, [], payloads) == ch
  {
    if payloads != [] {
      SendNobody(ch, payloads[..|payloads| - 1]);
    }
  }

  // With subscriptions switched off, nobody is ever subscribed and nothing is ever sent.
  lemma {:induction false} NothingWhenDisabled(cfg: Config, steps: seq<Step>)
    requires !cfg.enabled
    ensures var s := Run(cfg, steps); s.svc.subs == map[] && s.pending == map[] && s.svc.channel.wire == []
  {
    if steps != [] {
      var s, step := Run(cfg, steps[..|steps| - 1]), steps[|steps| - 1];
      NothingWhenDisabled(cfg, steps[..|steps| - 1]);
      if Enabled(cfg, s, step) {
        NothingStep(cfg, s, step);
      }
    }
  }
}
