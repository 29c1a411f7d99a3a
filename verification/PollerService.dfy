/** The poller: the list of polls, the interval timer, the last seen head and two gauges. */
module PollerServiceModel {
  import opened Wrappers
  import opened Subscriptions

  // A getLogs or getBlockByNumber call that has been issued for a poll.
  datatype Request = Request(pid: nat, tag: Tag, from: Option<nat>)

  // One request for each poll: a log poll asks from where it last stopped, or from the head.
  function Requests(polls: seq<Poll>, latest: Option<nat>): (r: seq<Request>)
    ensures |r| == |polls|
  {
    if polls == [] then []
    else
      var p := polls[|polls| - 1];
      Requests(polls[..|polls| - 1], latest)
        + [Request(p.pid, p.tag, if p.lastPolled.Some? then p.lastPolled else latest)]
  }

  class PollerService {
    var polls: seq<Poll>
    var interval: bool
    var latestBlock: Option<nat>
    var activePolls: int
    var activeNewHeadsPolls: int
    var nextPid: nat

    ghost function View(): Poller
      reads this
    {
      Poller(polls, interval, latestBlock, activeNewHeadsPolls, activePolls, nextPid)
    }

    constructor ()
      ensures View() == EmptyPoller
    {
      polls := [];
      interval := false;
      latestBlock := None;
      activePolls, activeNewHeadsPolls := 0, 0;
      nextPid := 0;
    }

    predicate IsPolling()
      reads this
    {
      interval
    }

    method Start()
      modifies this
      ensures View() == old(View()).(active := true)
    {
      interval := true;
    }

    method Stop()
      modifies this
      ensures View() == old(View()).(active := false)
    {
      if IsPolling() {
        interval := false;
      }
    }

    method Add(tag: Tag)
      modifies this
      ensures View() == AddPoll(old(View()), tag)
    {
      if !HasPoll(polls, tag) {
        polls := polls + [Poll(nextPid, tag, None)];
        nextPid := nextPid + 1;
        if tag.event == NewHeads {
          activeNewHeadsPolls := activeNewHeadsPolls + 1;
        } else {
          activePolls := activePolls + 1;
        }
      }
      if !IsPolling() {
        Start();
      }
    }

    method Remove(tag: Tag)
      modifies this
      ensures View() == DropTags(old(View()), {tag})
    {
      var pollsAtStart := |polls|;
      DropCounts(polls, tag);
      polls := Without(polls, {tag});
      var pollsRemoved := pollsAtStart - |polls|;
      if pollsRemoved > 0 {
        if tag.event == NewHeads {
          activeNewHeadsPolls := activeNewHeadsPolls - pollsRemoved;
        } else {
          activePolls := activePolls - pollsRemoved;
        }
      }
      if |polls| == 0 {
        Stop();
      }
    }

    // The part of `poll` before its awaits, entered once the timer has read the head.
    method Tick(head: nat) returns (requests: seq<Request>)
      modifies this
      ensures View() == old(View()).(latest := Some(head))
      ensures requests == Requests(old(polls), Some(head))
    {
      latestBlock := Some(head);
      requests := [];
      for i := 0 to |polls|
        invariant View() == old(View()).(latest := Some(head))
        invariant requests == Requests(polls[..i], Some(head))
      {
        var p := polls[i];
        assert polls[..i + 1][..i] == polls[..i];
        requests := requests + [Request(p.pid, p.tag, if p.lastPolled.Some? then p.lastPolled else latestBlock)];
      }
      assert polls[..|polls|] == polls;
    }

    // The write after a poll's await; it finds nothing to change once the poll has been removed.
    method Polled(pid: nat)
      modifies this
      ensures View() == old(View()).(polls := MarkPolled(old(polls), pid, old(latestBlock)))
    {
      polls := MarkPolled(polls, pid, latestBlock);
    }
  }
}
