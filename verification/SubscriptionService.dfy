/** The subscription service: subscribers grouped by tag, the de-duplication cache, the sockets. */
module SubscriptionServiceModel {
  import opened Wrappers
  import opened Subscriptions
  import opened PollerServiceModel

  class SubscriptionService {
    const poller: PollerService
    var subscriptions: map<Tag, seq<Subscriber>>
    var cache: set<Key>
    var wire: seq<Message>

    ghost function View(): Service
      reads this, poller
    {
      Service(subscriptions, poller.View(), Channel(cache, wire))
    }

    constructor ()
      ensures fresh(poller)
      ensures View() == Service(map[], EmptyPoller, Channel({}, []))
    {
      poller := new PollerService();
      subscriptions := map[];
      cache := {};
      wire := [];
    }

    // `freshId` is the identifier drawn at random by the source.
    method Subscribe(same: bool, conn: nat, tag: Tag, freshId: nat) returns (id: nat)
      modifies this, poller
      ensures View() == Subscriptions.Subscribe(old(View()), same, conn, tag, freshId)
      ensures IsDuplicate(old(View()), same, conn, tag) ==>
                exists i :: 0 <= i < |old(subscriptions[tag])| && old(subscriptions[tag])[i] == Subscriber(conn, id)
      ensures !IsDuplicate(old(View()), same, conn, tag) ==> id == freshId
    {
      if tag !in subscriptions {
        subscriptions := subscriptions[tag := []];
      }
      if same {
        var i := 0;
        while i < |subscriptions[tag]|
          invariant 0 <= i <= |subscriptions[tag]|
          invariant Existing(subscriptions[tag], conn) == Existing(subscriptions[tag][i..], conn)
        {
          if subscriptions[tag][i].conn == conn {
            assert View() == old(View());
            return subscriptions[tag][i].id;
          }
          i := i + 1;
        }
      }
      subscriptions := subscriptions[tag := subscriptions[tag] + [Subscriber(conn, freshId)]];
      poller.Add(tag);
      return freshId;
    }

    method Unsubscribe(conn: nat, sel: Option<nat>) returns (subCount: nat)
      modifies this, poller
      ensures View() == Subscriptions.Unsubscribe(old(View()), conn, sel)
      ensures subCount == Tally(old(subscriptions), old(subscriptions).Keys, conn, sel)
    {
      ghost var was := View();
      var snapshot := subscriptions;
      var todo := snapshot.Keys;
      ghost var seen: set<Tag> := {};
      subCount := 0;
      SweepEnds(was, conn, sel);
      while todo != {}
        invariant seen + todo == snapshot.Keys && seen !! todo
        invariant subCount == Tally(snapshot, seen, conn, sel)
        invariant subscriptions == Swept(snapshot, seen, conn, sel)
        invariant poller.View() == DropTags(was.poller, Emptied(snapshot, conn, sel) * seen)
        invariant cache == was.channel.cache && wire == was.channel.wire
        decreases todo
      {
        var tag :| tag in todo;
        SweepOneMoreTally(snapshot, seen, tag, conn, sel);
        var matched := SweepTag(snapshot, tag, conn, sel, was.poller, seen);
        subCount := subCount + matched;
        todo := todo - {tag};
        seen := seen + {tag};
      }
      assert seen == snapshot.Keys;
    }

    // One round of the loop of `unsubscribe`, after those for the tags in `seen`.
    method SweepTag(snapshot: map<Tag, seq<Subscriber>>, tag: Tag, conn: nat, sel: Option<nat>,
                    ghost before: Poller, ghost seen: set<Tag>)
        returns (matched: nat)
      requires seen <= snapshot.Keys && tag in snapshot && tag !in seen
      requires subscriptions == Swept(snapshot, seen, conn, sel)
      requires poller.View() == DropTags(before, Emptied(snapshot, conn, sel) * seen)
      modifies this, poller
      ensures subscriptions == Swept(snapshot, seen + {tag}, conn, sel)
      ensures poller.View() == DropTags(before, Emptied(snapshot, conn, sel) * (seen + {tag}))
      ensures matched == CountSelected(snapshot[tag], conn, sel)
      ensures cache == old(cache) && wire == old(wire)
    {
      SweepOneMoreMap(snapshot, seen, tag, conn, sel);
      SweepOneMorePoller(before, Emptied(snapshot, conn, sel), seen, tag);
      var kept;
      kept, matched := Partition(snapshot[tag], conn, sel);
      subscriptions := subscriptions[tag := kept];
      if |subscriptions[tag]| == 0 {
        assert subscriptions - {tag} == Swept(snapshot, seen, conn, sel) - {tag};
        subscriptions := subscriptions - {tag};
        poller.Remove(tag);
      }
    }

    // The filter callback of `unsubscribe`, which counts the subscriptions it rejects.
    static method Partition(subs: seq<Subscriber>, conn: nat, sel: Option<nat>)
        returns (kept: seq<Subscriber>, matched: nat)
      ensures kept == Keep(subs, conn, sel)
      ensures matched == CountSelected(subs, conn, sel)
    {
      kept, matched := [], 0;
      for i := 0 to |subs|
        invariant kept == Keep(subs[..i], conn, sel)
        invariant matched == CountSelected(subs[..i], conn, sel)
      {
        assert subs[..i + 1][..i] == subs[..i];
        if Selected(subs[i], conn, sel) {
          matched := matched + 1;
        } else {
          kept := kept + [subs[i]];
        }
      }
      assert subs[..|subs|] == subs;
    }

    method NotifySubscribers(tag: Tag, data: Payload)
      modifies this
      ensures View() == old(View()).(channel := SendAll(old(View()).channel, SubsOf(old(subscriptions), tag), data))
    {
      ghost var was := View();
      if tag in subscriptions && |subscriptions[tag]| > 0 {
        var subs := subscriptions[tag];
        for i := 0 to |subs|
          invariant View() == was.(channel := SendAll(was.channel, subs[..i], data))
        {
          assert subs[..i + 1][..i] == subs[..i];
          var sub := subs[i];
          var hash := Key(data, sub.id);
          if hash !in cache {
            cache := cache + {hash};
            wire := wire + [Message(sub.conn, hash)];
          }
        }
        assert subs[..|subs|] == subs;
      }
    }

    // The part of `poll` after its await: move the poll on, then hand over every result.
    method Deliver(pid: nat, tag: Tag, results: seq<Payload>)
      modifies this, poller
      ensures View() ==
              var was := old(View());
              Notify(was.(poller := was.poller.(
                polls := MarkPolled(was.poller.polls, pid, was.poller.latest))), tag, results)
    {
      poller.Polled(pid);
      ghost var was := View();
      for i := 0 to |results|
        invariant View() == Notify(was, tag, results[..i])
      {
        assert results[..i + 1][..i] == results[..i];
        NotifySubscribers(tag, results[i]);
      }
      assert results[..|results|] == results;
    }

    // An entry may leave the cache at any time: it is bounded and its entries expire.
    method Evict(keys: set<Key>)
      modifies this
      ensures View() == old(View()).(channel := Channel(old(cache) - keys, old(wire)))
    {
      cache := cache - keys;
    }
  }
}
