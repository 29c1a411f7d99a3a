// The values held by the poller and the subscription service of the WebSocket server, and what
// each of their operations does to those values. The classes in PollerService.dfy and
// SubscriptionService.dfy are proved to compute these functions.
module Subscriptions {
  import opened Wrappers

  datatype Event = Logs | NewHeads

  // The JSON text {event, filters} under which subscribers are grouped.
  datatype Tag = Tag(event: Event, filters: string)

  datatype Subscriber = Subscriber(conn: nat, id: nat)

  // A log carries the tags whose filter it matches; (block, index) identifies it.
  datatype Log = Log(block: nat, index: nat, matches: set<Tag>)

  datatype Payload = LogData(log: Log) | HeadData(number: nat, filters: string)

  // What is hashed for de-duplication: the result together with the subscription it is sent to.
  datatype Key = Key(payload: Payload, id: nat)

  datatype Message = Message(conn: nat, key: Key)

  // `pid` stands for the identity of the poll object.
  datatype Poll = Poll(pid: nat, tag: Tag, lastPolled: Option<nat>)

  datatype Poller = Poller(
    polls: seq<Poll>,
    active: bool,
    latest: Option<nat>,
    headPolls: int,
    otherPolls: int,
    nextPid: nat)

  // The de-duplication cache and everything written to sockets so far.
  datatype Channel = Channel(cache: set<Key>, wire: seq<Message>)

  datatype Service = Service(subs: map<Tag, seq<Subscriber>>, poller: Poller, channel: Channel)

  const EmptyPoller := Poller([], false, None, 0, 0, 0)

  /******* Poller *******/

  predicate HasPoll(polls: seq<Poll>, tag: Tag) {
    exists i :: 0 <= i < |polls| && polls[i].tag == tag
  }

  function AddPoll(p: Poller, tag: Tag): Poller {
    var q :=
      if HasPoll(p.polls, tag) then p
      else if tag.event == NewHeads then
        p.(polls := p.polls + [Poll(p.nextPid, tag, None)], nextPid := p.nextPid + 1, headPolls := p.headPolls + 1)
      else
        p.(polls := p.polls + [Poll(p.nextPid, tag, None)], nextPid := p.nextPid + 1, otherPolls := p.otherPolls + 1);
    q.(active := true)
  }

  function Without(polls: seq<Poll>, tags: set<Tag>): seq<Poll> {
    if polls == [] then []
    else
      var rest := Without(polls[..|polls| - 1], tags);
      var last := polls[|polls| - 1];
      if last.tag in tags then rest else rest + [last]
  }

  function CountPolls(polls: seq<Poll>, event: Event): nat {
    if polls == [] then 0
    else CountPolls(polls[..|polls| - 1], event) + (if polls[|polls| - 1].tag.event == event then 1 else 0)
  }

  // The poller after `remove` has been called once for each tag of the set.
  function DropTags(p: Poller, tags: set<Tag>): Poller {
    var kept := Without(p.polls, tags);
    p.(polls := kept,
       headPolls := p.headPolls - (CountPolls(p.polls, NewHeads) - CountPolls(kept, NewHeads)),
       otherPolls := p.otherPolls - (CountPolls(p.polls, Logs) - CountPolls(kept, Logs)),
       active := p.active && (tags == {} || kept != []))
  }

  function MarkPolled(polls: seq<Poll>, pid: nat, latest: Option<nat>): (r: seq<Poll>)
    ensures |r| == |polls|
    ensures forall i :: 0 <= i < |polls| ==> r[i].pid == polls[i].pid && r[i].tag == polls[i].tag
    ensures forall i :: 0 <= i < |polls| ==>
              r[i].lastPolled == if polls[i].pid == pid then latest else polls[i].lastPolled
  {
    seq(|polls|, i requires 0 <= i < |polls| =>
      if polls[i].pid == pid then polls[i].(lastPolled := latest) else polls[i])
  }

  lemma WithoutKeepsOrder(polls: seq<Poll>, tags: set<Tag>)
    ensures forall p :: p in Without(polls, tags) <==> p in polls && p.tag !in tags
    ensures |Without(polls, tags)| <= |polls|
    ensures forall tag :: HasPoll(Without(polls, tags), tag) <==> HasPoll(polls, tag) && tag !in tags
  {
    if polls != [] {
      WithoutKeepsOrder(polls[..|polls| - 1], tags);
      assert polls == polls[..|polls| - 1] + [polls[|polls| - 1]];
    }
    forall tag
      ensures HasPoll(Without(polls, tags), tag) <==> HasPoll(polls, tag) && tag !in tags
    {
      if HasPoll(polls, tag) && tag !in tags {
        var i :| 0 <= i < |polls| && polls[i].tag == tag;
        assert polls[i] in Without(polls, tags);
      }
      if HasPoll(Without(polls, tags), tag) {
        var i :| 0 <= i < |Without(polls, tags)| && Without(polls, tags)[i].tag == tag;
        assert Without(polls, tags)[i] in polls;
      }
    }
  }

  lemma WithoutTwice(polls: seq<Poll>, tags: set<Tag>, tag: Tag)
    ensures Without(Without(polls, tags), {tag}) == Without(polls, tags + {tag})
  {
    if polls != [] {
      WithoutTwice(polls[..|polls| - 1], tags, tag);
      var rest := Without(polls[..|polls| - 1], tags);
      var last := polls[|polls| - 1];
      if last.tag !in tags {
        assert (rest + [last])[..|rest|] == rest;
      }
    }
  }

  lemma WithoutNothing(polls: seq<Poll>)
    ensures Without(polls, {}) == polls
  {
    if polls != [] {
      WithoutNothing(polls[..|polls| - 1]);
      assert polls == polls[..|polls| - 1] + [polls[|polls| - 1]];
    }
  }

  lemma DropNothing(p: Poller)
    ensures DropTags(p, {}) == p
  {
    WithoutNothing(p.polls);
  }

  lemma DropOneMore(p: Poller, tags: set<Tag>, tag: Tag)
    ensures DropTags(DropTags(p, tags), {tag}) == DropTags(p, tags + {tag})
  {
    WithoutTwice(p.polls, tags, tag);
    WithoutKeepsOrder(Without(p.polls, tags), {tag});
  }

  // Dropping one tag removes polls of that tag's event only.
  lemma DropCounts(polls: seq<Poll>, tag: Tag)
    ensures var kept := Without(polls, {tag});
            && |kept| <= |polls|
            && CountPolls(polls, tag.event) - CountPolls(kept, tag.event) == |polls| - |kept|
            && var other := if tag.event == Logs then NewHeads else Logs;
               CountPolls(polls, other) == CountPolls(kept, other)
  {
    if polls != [] {
      DropCounts(polls[..|polls| - 1], tag);
      var rest := Without(polls[..|polls| - 1], {tag});
      var last := polls[|polls| - 1];
      assert (rest + [last])[..|rest|] == rest;
    }
  }

  /******* Subscriptions *******/

  predicate Selected(s: Subscriber, conn: nat, sel: Option<nat>) {
    s.conn == conn && (sel.None? || sel.value == s.id)
  }

  function Keep(subs: seq<Subscriber>, conn: nat, sel: Option<nat>): seq<Subscriber> {
    if subs == [] then []
    else
      var rest := Keep(subs[..|subs| - 1], conn, sel);
      var last := subs[|subs| - 1];
      if Selected(last, conn, sel) then rest else rest + [last]
  }

  function CountSelected(subs: seq<Subscriber>, conn: nat, sel: Option<nat>): nat {
    if subs == [] then 0
    else CountSelected(subs[..|subs| - 1], conn, sel) + (if Selected(subs[|subs| - 1], conn, sel) then 1 else 0)
  }

  function SubsOf(subs: map<Tag, seq<Subscriber>>, tag: Tag): seq<Subscriber> {
    if tag in subs then subs[tag] else []
  }

  function Existing(subs: seq<Subscriber>, conn: nat): Option<Subscriber> {
    if subs == [] then None
    else if subs[0].conn == conn then Some(subs[0])
    else Existing(subs[1..], conn)
  }

  predicate IsDuplicate(svc: Service, same: bool, conn: nat, tag: Tag) {
    same && Existing(SubsOf(svc.subs, tag), conn).Some?
  }

  function Subscribe(svc: Service, same: bool, conn: nat, tag: Tag, id: nat): Service {
    if IsDuplicate(svc, same, conn, tag) then svc
    else
      svc.(subs := svc.subs[tag := SubsOf(svc.subs, tag) + [Subscriber(conn, id)]],
           poller := AddPoll(svc.poller, tag))
  }

  // The tags left without any subscriber once the selected subscriptions are gone.
  function Emptied(subs: map<Tag, seq<Subscriber>>, conn: nat, sel: Option<nat>): set<Tag> {
    set tag | tag in subs && Keep(subs[tag], conn, sel) == []
  }

  function Remaining(subs: map<Tag, seq<Subscriber>>, conn: nat, sel: Option<nat>): map<Tag, seq<Subscriber>> {
    map tag | tag in subs && Keep(subs[tag], conn, sel) != [] :: Keep(subs[tag], conn, sel)
  }

  function Unsubscribe(svc: Service, conn: nat, sel: Option<nat>): Service {
    svc.(subs := Remaining(svc.subs, conn, sel),
         poller := DropTags(svc.poller, Emptied(svc.subs, conn, sel)))
  }

  // The map midway through `unsubscribe`, when the tags in `seen` have been dealt with.
  function Swept(subs: map<Tag, seq<Subscriber>>, seen: set<Tag>, conn: nat, sel: Option<nat>):
      map<Tag, seq<Subscriber>> {
    map tag | tag in subs && (tag !in seen || Keep(subs[tag], conn, sel) != []) ::
      if tag in seen then Keep(subs[tag], conn, sel) else subs[tag]
  }

  lemma SweepOneMoreMap(subs: map<Tag, seq<Subscriber>>, seen: set<Tag>, tag: Tag, conn: nat, sel: Option<nat>)
    requires tag in subs && tag !in seen
    ensures var kept := Keep(subs[tag], conn, sel);
            var before := Swept(subs, seen, conn, sel);
            Swept(subs, seen + {tag}, conn, sel) == if kept == [] then before - {tag} else before[tag := kept]
  {
    var before, after := Swept(subs, seen, conn, sel), Swept(subs, seen + {tag}, conn, sel);
    if Keep(subs[tag], conn, sel) == [] {
      assert after.Keys == before.Keys - {tag};
      assert after == before - {tag};
    } else {
      assert after.Keys == before.Keys + {tag};
      assert after == before[tag := Keep(subs[tag], conn, sel)];
    }
  }

  lemma SweepOneMorePoller(p: Poller, emptied: set<Tag>, seen: set<Tag>, tag: Tag)
    ensures DropTags(p, emptied * (seen + {tag})) ==
            if tag in emptied then DropTags(DropTags(p, emptied * seen), {tag}) else DropTags(p, emptied * seen)
  {
    if tag in emptied {
      DropOneMore(p, emptied * seen, tag);
      assert emptied * seen + {tag} == emptied * (seen + {tag});
    } else {
      assert emptied * (seen + {tag}) == emptied * seen;
    }
  }

  lemma SweepOneMoreTally(subs: map<Tag, seq<Subscriber>>, seen: set<Tag>, tag: Tag, conn: nat, sel: Option<nat>)
    requires tag in subs && tag !in seen
    ensures Tally(subs, seen + {tag}, conn, sel) == Tally(subs, seen, conn, sel) + CountSelected(subs[tag], conn, sel)
  {
    TallySplit(subs, seen + {tag}, tag, conn, sel);
    assert seen + {tag} - {tag} == seen;
  }

  lemma SweepEnds(svc: Service, conn: nat, sel: Option<nat>)
    ensures Swept(svc.subs, {}, conn, sel) == svc.subs
    ensures DropTags(svc.poller, Emptied(svc.subs, conn, sel) * {}) == svc.poller
    ensures svc.(subs := Swept(svc.subs, svc.subs.Keys, conn, sel),
                 poller := DropTags(svc.poller, Emptied(svc.subs, conn, sel) * svc.subs.Keys))
            == Unsubscribe(svc, conn, sel)
  {
    DropNothing(svc.poller);
    assert Emptied(svc.subs, conn, sel) * {} == {};
    assert Emptied(svc.subs, conn, sel) * svc.subs.Keys == Emptied(svc.subs, conn, sel);
  }

  // How many of the subscriptions listed under the given tags are selected.
  ghost function Tally(subs: map<Tag, seq<Subscriber>>, tags: set<Tag>, conn: nat, sel: Option<nat>): nat {
    if tags == {} then 0
    else
      var tag :| tag in tags;
      CountSelected(SubsOf(subs, tag), conn, sel) + Tally(subs, tags - {tag}, conn, sel)
  }

  lemma TallySplit(subs: map<Tag, seq<Subscriber>>, tags: set<Tag>, tag: Tag, conn: nat, sel: Option<nat>)
    requires tag in tags
    ensures Tally(subs, tags, conn, sel) ==
            CountSelected(SubsOf(subs, tag), conn, sel) + Tally(subs, tags - {tag}, conn, sel)
  {
    var first :| first in tags &&
      Tally(subs, tags, conn, sel) ==
      CountSelected(SubsOf(subs, first), conn, sel) + Tally(subs, tags - {first}, conn, sel);
    if first != tag {
      TallySplit(subs, tags - {first}, tag, conn, sel);
      TallySplit(subs, tags - {tag}, first, conn, sel);
      assert tags - {first} - {tag} == tags - {tag} - {first};
    }
  }

  lemma TallyAgrees(a: map<Tag, seq<Subscriber>>, b: map<Tag, seq<Subscriber>>, tags: set<Tag>,
      conn: nat, sel: Option<nat>)
    requires forall tag :: tag in tags ==>
               CountSelected(SubsOf(a, tag), conn, sel) == CountSelected(SubsOf(b, tag), conn, sel)
    ensures Tally(a, tags, conn, sel) == Tally(b, tags, conn, sel)
  {
    if tags != {} {
      var tag :| tag in tags;
      TallySplit(a, tags, tag, conn, sel);
      TallySplit(b, tags, tag, conn, sel);
      TallyAgrees(a, b, tags - {tag}, conn, sel);
    }
  }

  /******* Notification *******/

  function SendOne(ch: Channel, sub: Subscriber, payload: Payload): Channel {
    var key := Key(payload, sub.id);
    if key in ch.cache then ch
    else Channel(ch.cache + {key}, ch.wire + [Message(sub.conn, key)])
  }

  function SendAll(ch: Channel, subs: seq<Subscriber>, payload: Payload): Channel {
    if subs == [] then ch
    else SendOne(SendAll(ch, subs[..|subs| - 1], payload), subs[|subs| - 1], payload)
  }

  function SendBatch(ch: Channel, subs: seq<Subscriber>, payloads: seq<Payload>): Channel {
    if payloads == [] then ch
    else SendAll(SendBatch(ch, subs, payloads[..|payloads| - 1]), subs, payloads[|payloads| - 1])
  }

  function Notify(svc: Service, tag: Tag, payloads: seq<Payload>): Service {
    svc.(channel := SendBatch(svc.channel, SubsOf(svc.subs, tag), payloads))
  }
}
