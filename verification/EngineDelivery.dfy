/** What is sent to whom: once per cache entry, matching data, to the owner, and nothing after unsubscribing. */
module EngineDelivery {
  import opened Wrappers
  import opened Subscriptions
  import opened PollerServiceModel
  import opened Engine
  import opened EngineCoupling

  /******* How often a message was sent *******/

  function Sends(wire: seq<Message>, key: Key): nat {
    if wire == [] then 0
    else Sends(wire[..|wire| - 1], key) + (if wire[|wire| - 1].key == key then 1 else 0)
  }

  lemma SendsAppend(wire: seq<Message>, m: Message, key: Key)
    ensures Sends(wire + [m], key) == Sends(wire, key) + (if m.key == key then 1 else 0)
  {
    assert (wire + [m])[..|wire|] == wire;
  }

  // The number of times a key was written, less its present cache entry.
  function Surplus(ch: Channel, key: Key): int {
    Sends(ch.wire, key) - (if key in ch.cache then 1 else 0)
  }

  ghost predicate Subscribed(subs: seq<Subscriber>, id: nat) {
    exists i :: 0 <= i < |subs| && subs[i].id == id
  }

  // Sending keeps the surplus, only adds entries, and adds exactly those of the data and subscribers.
  ghost predicate Extends(before: Channel, after: Channel, key: Key, offered: bool) {
    && Surplus(after, key) == Surplus(before, key)
    && Sends(before.wire, key) <= Sends(after.wire, key)
    && (key in after.cache <==> key in before.cache || offered)
  }

  lemma SubscribedSplit(subs: seq<Subscriber>, id: nat)
    requires subs != []
    ensures Subscribed(subs, id) <==> Subscribed(subs[..|subs| - 1], id) || subs[|subs| - 1].id == id
  {
    if Subscribed(subs[..|subs| - 1], id) {
      var i :| 0 <= i < |subs| - 1 && subs[..|subs| - 1][i].id == id;
      assert subs[i].id == id;
    }
    if Subscribed(subs, id) && subs[|subs| - 1].id != id {
      var i :| 0 <= i < |subs| && subs[i].id == id;
      assert subs[..|subs| - 1][i].id == id;
    }
  }

  lemma {:induction false} SendAllLedger(ch: Channel, subs: seq<Subscriber>, payload: Payload, key: Key)
    ensures Extends(ch, SendAll(ch, subs, payload), key, key.payload == payload && Subscribed(subs, key.id))
  {
    if subs != [] {
      var before := SendAll(ch, subs[..|subs| - 1], payload);
      SendAllLedger(ch, subs[..|subs| - 1], payload, key);
      var last := subs[|subs| - 1];
      SendsAppend(before.wire, Message(last.conn, Key(payload, last.id)), key);
      SubscribedSplit(subs, key.id);
    }
  }

  lemma {:induction false} SendBatchLedger(ch: Channel, subs: seq<Subscriber>, payloads: seq<Payload>, key: Key)
    ensures Extends(ch, SendBatch(ch, subs, payloads), key, key.payload in payloads && Subscribed(subs, key.id))
  {
    if payloads != [] {
      var most := payloads[..|payloads| - 1];
      SendBatchLedger(ch, subs, most, key);
      SendAllLedger(SendBatch(ch, subs, most), subs, payloads[|payloads| - 1], key);
      assert payloads == most + [payloads[|payloads| - 1]];
    }
  }

  ghost predicate SentOncePerEntry(s: State, key: Key) {
    Surplus(s.svc.channel, key) == s.book.evicted[key]
  }

  lemma SentStep(cfg: Config, s: State, step: Step, key: Key)
    requires SentOncePerEntry(s, key)
    ensures SentOncePerEntry(Next(cfg, s, step), key)
  {
    if Enabled(cfg, s, step) {
      match step
      case ReadHead(head) => ReadHeadAdds(cfg, s, head);
      case FinishQuery(q) =>
        var request, served := s.flight[q].request, s.flight[q].served;
        SendBatchLedger(s.svc.channel, SubsOf(s.svc.subs, request.tag),
                        Answer(s.blocks, served.value, request.tag), key);
      case _ =>
    }
  }

  // Every run, every result and subscription: the times it was sent are exactly the times its
  // cache entry was lost, plus one while the entry is still there. With no loss: at most once.
  lemma {:induction false} SentAlways(cfg: Config, steps: seq<Step>, key: Key)
    ensures SentOncePerEntry(Run(cfg, steps), key)
  {
    if steps != [] {
      SentAlways(cfg, steps[..|steps| - 1], key);
      SentStep(cfg, Run(cfg, steps[..|steps| - 1]), steps[|steps| - 1], key);
    }
  }

  /******* Who receives what *******/

  ghost predicate Suits(blocks: seq<seq<Log>>, payload: Payload, tag: Tag) {
    match payload
    case LogData(log) => tag.event == Logs && tag in log.matches && exists b :: 0 <= b < |blocks| && log in blocks[b]
    case HeadData(number, filters) => tag.event == NewHeads && number < |blocks| && filters == tag.filters
  }

  ghost predicate Listed(svc: Service, tag: Tag, sub: Subscriber) {
    sub in SubsOf(svc.subs, tag)
  }

  ghost predicate Registered(s: State) {
    && (forall id :: id in s.book.born ==> id < s.nextId && s.book.born[id].height <= |s.blocks|)
    && (forall tag, sub :: Listed(s.svc, tag, sub) ==>
          sub.id in s.book.born && s.book.born[sub.id].conn == sub.conn && s.book.born[sub.id].tag == tag)
  }

  ghost predicate Addressed(s: State) {
    forall m :: m in s.svc.channel.wire ==>
      && m.key.id in s.book.born
      && m.conn == s.book.born[m.key.id].conn
      && Suits(s.blocks, m.key.payload, s.book.born[m.key.id].tag)
  }

  lemma KeepMembers(subs: seq<Subscriber>, conn: nat, sel: Option<nat>)
    ensures forall sub :: sub in Keep(subs, conn, sel) <==> sub in subs && !Selected(sub, conn, sel)
  {
    if subs != [] {
      KeepMembers(subs[..|subs| - 1], conn, sel);
      assert subs == subs[..|subs| - 1] + [subs[|subs| - 1]];
    }
  }

  lemma ListedAfterUnsubscribe(svc: Service, conn: nat, sel: Option<nat>)
    ensures forall tag, sub :: Listed(Unsubscribe(svc, conn, sel), tag, sub) <==>
              Listed(svc, tag, sub) && !Selected(sub, conn, sel)
  {
    forall tag, sub
      ensures Listed(Unsubscribe(svc, conn, sel), tag, sub) <==> Listed(svc, tag, sub) && !Selected(sub, conn, sel)
    {
      KeepMembers(SubsOf(svc.subs, tag), conn, sel);
    }
  }

  lemma ListedAfterSubscribe(svc: Service, same: bool, conn: nat, tag: Tag, id: nat)
    ensures forall t, sub :: Listed(Subscribe(svc, same, conn, tag, id), t, sub) <==>
              Listed(svc, t, sub) || (!IsDuplicate(svc, same, conn, tag) && t == tag && sub == Subscriber(conn, id))
  {
  }

  // Whoever is listed after a step was listed before it, or is new and has just been given its id.
  ghost predicate ListedGrows(s: State, t: State) {
    && s.nextId <= t.nextId && |s.blocks| <= |t.blocks|
    && (forall id :: id in t.book.born ==>
          id in s.book.born || (id == s.nextId < t.nextId && t.book.born[id].height == |s.blocks|))
    && (forall tag, sub :: Listed(t.svc, tag, sub) ==>
          Listed(s.svc, tag, sub) || (sub.id == s.nextId < t.nextId && sub.id in t.book.born
                                      && t.book.born[sub.id] == Birth(sub.conn, tag, |s.blocks|)))
  }

  lemma ListedGrowsRegister(cfg: Config, s: State, conn: nat, tag: Tag)
    ensures ListedGrows(s, Register(cfg, s, conn, tag))
  {
    ListedAfterSubscribe(s.svc, cfg.sameSub, conn, tag, s.nextId);
  }

  lemma ListedGrowsQuiet(s: State, t: State)
    requires t.svc.subs == s.svc.subs && t.nextId == s.nextId && t.book.born == s.book.born && |t.blocks| >= |s.blocks|
    ensures ListedGrows(s, t)
  {
  }

  lemma ListedGrowsOn(s: State, t: State, u: State)
    requires ListedGrows(s, t)
    requires u.svc.subs == t.svc.subs && u.nextId == t.nextId && u.book.born == t.book.born && u.blocks == t.blocks
    ensures ListedGrows(s, u)
  {
  }

  lemma ListedShrinks(s: State, t: State, conn: nat, sel: Option<nat>)
    requires t.svc.subs == Unsubscribe(s.svc, conn, sel).subs
    requires t.nextId == s.nextId && t.book.born == s.book.born && t.blocks == s.blocks
    ensures ListedGrows(s, t)
  {
    ListedAfterUnsubscribe(s.svc, conn, sel);
  }

  lemma ListedStep(cfg: Config, s: State, step: Step)
    requires Enabled(cfg, s, step)
    ensures ListedGrows(s, Apply(cfg, s, step))
  {
    var t := Apply(cfg, s, step);
    match step
    case CloseConnection(conn) => ListedShrinks(s, t, conn, None);
    case RequestUnsubscribe(conn, sel) => ListedShrinks(s, t, conn, sel);
    case FinishValidation(r, valid) =>
      if valid {
        var u := Register(cfg, s, s.pending[r].conn, s.pending[r].tag);
        ListedGrowsRegister(cfg, s, s.pending[r].conn, s.pending[r].tag);
        ListedGrowsOn(s, u, t);
      } else {
        ListedGrowsQuiet(s, t);
      }
    case RequestNewHeads(conn, filters) =>
      var u := Register(cfg, s, conn, Tag(NewHeads, filters));
      ListedGrowsRegister(cfg, s, conn, Tag(NewHeads, filters));
      ListedGrowsOn(s, u, t);
    case _ =>
      SubsStep(cfg, s, step);
      ListedGrowsQuiet(s, t);
  }

  ghost predicate BornKept(s: State, t: State) {
    forall id :: id in s.book.born ==> id in t.book.born && t.book.born[id] == s.book.born[id]
  }

  lemma BornStep(cfg: Config, s: State, step: Step)
    requires (forall id :: id in s.book.born ==> id < s.nextId) && Enabled(cfg, s, step)
    ensures BornKept(s, Apply(cfg, s, step))
  {
    if !ChangesSubs(step) {
      SubsStep(cfg, s, step);
    }
  }

  lemma RegisteredGrows(s: State, t: State)
    requires Registered(s) && ListedGrows(s, t) && BornKept(s, t)
    ensures Registered(t)
  {
  }

  lemma RegisteredStep(cfg: Config, s: State, step: Step)
    requires Registered(s)
    ensures Registered(Next(cfg, s, step))
  {
    if Enabled(cfg, s, step) {
      ListedStep(cfg, s, step);
      BornStep(cfg, s, step);
      RegisteredGrows(s, Apply(cfg, s, step));
    }
  }

  lemma SendAllWire(ch: Channel, subs: seq<Subscriber>, payload: Payload)
    ensures forall m :: m in SendAll(ch, subs, payload).wire ==>
              m in ch.wire || (m.key.payload == payload && Subscriber(m.conn, m.key.id) in subs)
  {
    if subs != [] {
      SendAllWire(ch, subs[..|subs| - 1], payload);
      assert forall x :: x in subs[..|subs| - 1] ==> x in subs;
    }
  }

  lemma SendBatchWire(ch: Channel, subs: seq<Subscriber>, payloads: seq<Payload>)
    ensures forall m :: m in SendBatch(ch, subs, payloads).wire ==>
              m in ch.wire || (m.key.payload in payloads && Subscriber(m.conn, m.key.id) in subs)
  {
    if payloads != [] {
      var most := payloads[..|payloads| - 1];
      SendBatchWire(ch, subs, most);
      SendAllWire(SendBatch(ch, subs, most), subs, payloads[|payloads| - 1]);
      assert forall x :: x in most ==> x in payloads;
    }
  }

  lemma AddressedFinish(s: State, q: nat)
    requires q in s.flight && s.flight[q].served.Some? && s.flight[q].served.value.hi < |s.blocks|
    requires Registered(s) && Addressed(s)
    ensures Addressed(Finish(s, q))
  {
    var request, served := s.flight[q].request, s.flight[q].served;
    var subs, answer := SubsOf(s.svc.subs, request.tag), Answer(s.blocks, served.value, request.tag);
    SendBatchWire(s.svc.channel, subs, answer);
    forall m | m in Finish(s, q).svc.channel.wire && m !in s.svc.channel.wire
      ensures m.key.id in s.book.born && m.conn == s.book.born[m.key.id].conn
      ensures Suits(s.blocks, m.key.payload, s.book.born[m.key.id].tag)
    {
      assert Listed(s.svc, request.tag, Subscriber(m.conn, m.key.id));
      assert m.key.payload in answer;
    }
  }

  lemma SuitsLonger(blocks: seq<seq<Log>>, block: seq<Log>, payload: Payload, tag: Tag)
    requires Suits(blocks, payload, tag)
    ensures Suits(blocks + [block], payload, tag)
  {
    if payload.LogData? {
      var b :| 0 <= b < |blocks| && payload.log in blocks[b];
      assert payload.log in (blocks + [block])[b];
    }
  }

  lemma AddressedStep(cfg: Config, s: State, step: Step)
    requires Registered(s) && Addressed(s)
    ensures Addressed(Next(cfg, s, step))
  {
    if Enabled(cfg, s, step) {
      match step
      case FinishQuery(q) => AddressedFinish(s, q);
      case ReadHead(head) => ReadHeadAdds(cfg, s, head);
      case ProduceBlock(matches) =>
        forall m | m in s.svc.channel.wire
          ensures Suits(Next(cfg, s, step).blocks, m.key.payload, s.book.born[m.key.id].tag)
        {
          SuitsLonger(s.blocks, NewBlock(|s.blocks|, matches), m.key.payload, s.book.born[m.key.id].tag);
        }
      case _ =>
    }
  }

  // Every run: whatever is sent under a subscription id goes to the connection that was given that
  // id, and is a produced log matching its filter, or a produced head for a new-heads subscription.
  lemma {:induction false} AddressedAlways(cfg: Config, steps: seq<Step>)
    ensures Registered(Run(cfg, steps))
    ensures Addressed(Run(cfg, steps))
  {
    if steps != [] {
      var s := Run(cfg, steps[..|steps| - 1]);
      AddressedAlways(cfg, steps[..|steps| - 1]);
      RegisteredStep(cfg, s, steps[|steps| - 1]);
      AddressedStep(cfg, s, steps[|steps| - 1]);
    }
  }

  // Entries may be lost at any time: exactly they are forgotten, and each that was there is counted once more.
  lemma EvictForgets(cfg: Config, s: State, keys: set<Key>, key: Key)
    ensures var t := Next(cfg, s, Evict(keys));
      && (key in t.svc.channel.cache <==> key in s.svc.channel.cache && key !in keys)
      && t.book.evicted[key] == s.book.evicted[key] + (if key in keys && key in s.svc.channel.cache then 1 else 0)
      && t.svc.channel.wire == s.svc.channel.wire
  {
  }

  /******* What an answer sends *******/

  // The data an answer brings: the logs of the blocks it is about that the filter selects, or the last of those blocks.
  ghost predicate Brought(s: State, query: Query, payload: Payload)
    requires query.served.Some?
  {
    var tag, lo, hi := query.request.tag, query.served.value.lo, query.served.value.hi;
    match payload
    case LogData(log) =>
      tag.event == Logs && tag in log.matches && exists b :: lo <= b <= hi && b < |s.blocks| && log in s.blocks[b]
    case HeadData(number, filters) => tag.event == NewHeads && number == hi && filters == tag.filters
  }

  // A message is sent once more exactly if the answer brings its data, its subscription is listed, and it is not
  // remembered; nothing else is sent.
  lemma FinishSends(s: State, q: nat, key: Key)
    requires q in s.flight && s.flight[q].served.Some? && s.flight[q].served.value.hi < |s.blocks|
    ensures var offered := Brought(s, s.flight[q], key.payload)
                           && Subscribed(SubsOf(s.svc.subs, s.flight[q].request.tag), key.id);
      && Sends(Finish(s, q).svc.channel.wire, key) ==
         Sends(s.svc.channel.wire, key) + (if offered && key !in s.svc.channel.cache then 1 else 0)
      && (key in Finish(s, q).svc.channel.cache <==> key in s.svc.channel.cache || offered)
  {
    var request, served := s.flight[q].request, s.flight[q].served;
    SendBatchLedger(s.svc.channel, SubsOf(s.svc.subs, request.tag), Answer(s.blocks, served.value, request.tag), key);
  }

  // Every reachable state, every new-heads query answered with block hi, every subscriber listed by then: it has been
  // sent that head, once more at most than the entry was lost, and no other head is sent to anyone.
  lemma HeadDelivered(cfg: Config, steps: seq<Step>, q: nat, sub: Subscriber)
    requires Enabled(cfg, Run(cfg, steps), FinishQuery(q))
    requires Run(cfg, steps).flight[q].request.tag.event == NewHeads
    requires Listed(Run(cfg, steps).svc, Run(cfg, steps).flight[q].request.tag, sub)
    ensures var s, t := Run(cfg, steps), Next(cfg, Run(cfg, steps), FinishQuery(q));
      var head := HeadData(s.flight[q].served.value.hi, s.flight[q].request.tag.filters);
      && 1 <= Sends(t.svc.channel.wire, Key(head, sub.id)) <= 1 + t.book.evicted[Key(head, sub.id)]
      && forall key: Key :: key.payload != head ==> Sends(t.svc.channel.wire, key) == Sends(s.svc.channel.wire, key)
  {
    var s, t := Run(cfg, steps), Next(cfg, Run(cfg, steps), FinishQuery(q));
    var tag := s.flight[q].request.tag;
    var head := HeadData(s.flight[q].served.value.hi, tag.filters);
    var key := Key(head, sub.id);
    var i :| 0 <= i < |SubsOf(s.svc.subs, tag)| && SubsOf(s.svc.subs, tag)[i] == sub;
    FinishSends(s, q, key);
    SentAlways(cfg, steps, key);
    SentStep(cfg, s, FinishQuery(q), key);
    forall other: Key | other.payload != head
      ensures Sends(t.svc.channel.wire, other) == Sends(s.svc.channel.wire, other)
    {
      FinishSends(s, q, other);
    }
  }

  /******* Silence *******/

  ghost predicate Retired(s: State, id: nat) {
    id < s.nextId && forall tag, sub :: Listed(s.svc, tag, sub) ==> sub.id != id
  }

  lemma RetiredFinish(s: State, q: nat, key: Key)
    requires Retired(s, key.id)
    requires q in s.flight && s.flight[q].served.Some? && s.flight[q].served.value.hi < |s.blocks|
    ensures Sends(Finish(s, q).svc.channel.wire, key) == Sends(s.svc.channel.wire, key)
  {
    var request, served := s.flight[q].request, s.flight[q].served;
    var subs := SubsOf(s.svc.subs, request.tag);
    SendBatchLedger(s.svc.channel, subs, Answer(s.blocks, served.value, request.tag), key);
    assert forall i :: 0 <= i < |subs| ==> Listed(s.svc, request.tag, subs[i]);
  }

  lemma RetiredStep(cfg: Config, s: State, step: Step, key: Key)
    requires Retired(s, key.id)
    ensures Retired(Next(cfg, s, step), key.id)
    ensures Sends(Next(cfg, s, step).svc.channel.wire, key) == Sends(s.svc.channel.wire, key)
  {
    if Enabled(cfg, s, step) {
      ListedStep(cfg, s, step);
      if step.FinishQuery? {
        RetiredFinish(s, step.q, key);
      } else {
        QuietStep(cfg, s, step);
      }
    }
  }

  lemma {:induction false} RetiredForGood(cfg: Config, s: State, later: seq<Step>, key: Key)
    requires Retired(s, key.id)
    ensures Retired(Exec(cfg, s, later), key.id)
    ensures Sends(Exec(cfg, s, later).svc.channel.wire, key) == Sends(s.svc.channel.wire, key)
  {
    if later != [] {
      RetiredForGood(cfg, s, later[..|later| - 1], key);
      RetiredStep(cfg, Exec(cfg, s, later[..|later| - 1]), later[|later| - 1], key);
    }
  }

  // Once its owner has unsubscribed it, an id is never sent anything again, whatever was already
  // in flight: not by a poll under way, not by a later subscriber of the same tag.
  lemma SilentAfterUnsubscribe(cfg: Config, steps: seq<Step>, conn: nat, sel: Option<nat>, later: seq<Step>, key: Key)
    requires var s := Run(cfg, steps);
             && Enabled(cfg, s, RequestUnsubscribe(conn, sel))
             && key.id in s.book.born && s.book.born[key.id].conn == conn
             && (sel == None || sel == Some(key.id))
    ensures Sends(Run(cfg, steps + [RequestUnsubscribe(conn, sel)] + later).svc.channel.wire, key)
            == Sends(Run(cfg, steps).svc.channel.wire, key)
  {
    var s := Run(cfg, steps);
    var step := RequestUnsubscribe(conn, sel);
    AddressedAlways(cfg, steps);
    ListedAfterUnsubscribe(s.svc, conn, sel);
    var most := steps + [step];
    assert most[..|most| - 1] == steps;
    assert Run(cfg, most) == Next(cfg, s, step);
    RetiredForGood(cfg, Run(cfg, most), later, key);
    ExecSplit(cfg, Init(), most, later);
  }

  /******* Closing *******/

  function MessagesTo(wire: seq<Message>, conn: nat): seq<Message> {
    if wire == [] then []
    else
      var rest := MessagesTo(wire[..|wire| - 1], conn);
      if wire[|wire| - 1].conn == conn then rest + [wire[|wire| - 1]] else rest
  }

  ghost predicate NoneLive(s: State, conn: nat) {
    forall tag, sub :: Listed(s.svc, tag, sub) ==> sub.conn != conn
  }

  ghost predicate NothingPending(s: State, conn: nat) {
    forall r :: r in s.pending && s.pending[r].conn == conn ==> s.pending[r].registered
  }

  ghost predicate Closed(s: State, conn: nat) {
    conn in s.lim.sockets && conn !in s.open && NoneLive(s, conn)
  }

  lemma SendAllQuiet(ch: Channel, subs: seq<Subscriber>, payload: Payload, conn: nat)
    requires forall sub :: sub in subs ==> sub.conn != conn
    ensures MessagesTo(SendAll(ch, subs, payload).wire, conn) == MessagesTo(ch.wire, conn)
  {
    if subs != [] {
      var before := SendAll(ch, subs[..|subs| - 1], payload);
      assert forall x :: x in subs[..|subs| - 1] ==> x in subs;
      SendAllQuiet(ch, subs[..|subs| - 1], payload, conn);
      var m := Message(subs[|subs| - 1].conn, Key(payload, subs[|subs| - 1].id));
      assert (before.wire + [m])[..|before.wire|] == before.wire;
    }
  }

  lemma SendBatchQuiet(ch: Channel, subs: seq<Subscriber>, payloads: seq<Payload>, conn: nat)
    requires forall sub :: sub in subs ==> sub.conn != conn
    ensures MessagesTo(SendBatch(ch, subs, payloads).wire, conn) == MessagesTo(ch.wire, conn)
  {
    if payloads != [] {
      var most := payloads[..|payloads| - 1];
      SendBatchQuiet(ch, subs, most, conn);
      SendAllQuiet(SendBatch(ch, subs, most), subs, payloads[|payloads| - 1], conn);
    }
  }

  lemma ClosedFinish(s: State, q: nat, conn: nat)
    requires NoneLive(s, conn)
    requires q in s.flight && s.flight[q].served.Some? && s.flight[q].served.value.hi < |s.blocks|
    ensures MessagesTo(Finish(s, q).svc.channel.wire, conn) == MessagesTo(s.svc.channel.wire, conn)
  {
    var request, served := s.flight[q].request, s.flight[q].served;
    assert forall sub :: sub in SubsOf(s.svc.subs, request.tag) ==> Listed(s.svc, request.tag, sub);
    SendBatchQuiet(s.svc.channel, SubsOf(s.svc.subs, request.tag), Answer(s.blocks, served.value, request.tag), conn);
  }

  // Only an open connection, or a validation under way, gains a subscription.
  lemma NoneLiveStep(cfg: Config, s: State, step: Step, conn: nat)
    requires Enabled(cfg, s, step) && Closed(s, conn) && NothingPending(s, conn)
    ensures NoneLive(Apply(cfg, s, step), conn)
  {
    match step
    case CloseConnection(c) => ListedAfterUnsubscribe(s.svc, c, None);
    case RequestUnsubscribe(c, sel) => ListedAfterUnsubscribe(s.svc, c, sel);
    case FinishValidation(r, _) =>
      ListedAfterSubscribe(s.svc, cfg.sameSub, s.pending[r].conn, s.pending[r].tag, s.nextId);
    case RequestNewHeads(c, filters) =>
      ListedAfterSubscribe(s.svc, cfg.sameSub, c, Tag(NewHeads, filters), s.nextId);
    case _ =>
      SubsStep(cfg, s, step);
      assert forall tag, sub :: Listed(Apply(cfg, s, step).svc, tag, sub) ==> Listed(s.svc, tag, sub);
  }

  lemma StaysShut(cfg: Config, s: State, step: Step, conn: nat)
    requires Enabled(cfg, s, step) && Closed(s, conn) && NothingPending(s, conn)
    ensures var t := Apply(cfg, s, step);
      conn in t.lim.sockets && conn !in t.open && NothingPending(t, conn)
  {
    if step.ReadHead? {
      ReadHeadAdds(cfg, s, step.head);
    }
  }

  lemma ClosedStep(cfg: Config, s: State, step: Step, conn: nat)
    requires Closed(s, conn) && NothingPending(s, conn)
    ensures Closed(Next(cfg, s, step), conn) && NothingPending(Next(cfg, s, step), conn)
    ensures MessagesTo(Next(cfg, s, step).svc.channel.wire, conn) == MessagesTo(s.svc.channel.wire, conn)
  {
    if Enabled(cfg, s, step) {
      NoneLiveStep(cfg, s, step, conn);
      StaysShut(cfg, s, step, conn);
      if step.FinishQuery? {
        ClosedFinish(s, step.q, conn);
      } else {
        QuietStep(cfg, s, step);
      }
    }
  }

  // A closed connection with nothing left to validate stays without subscriptions and is sent nothing.
  lemma {:induction false} SilentAfterClose(cfg: Config, s: State, later: seq<Step>, conn: nat)
    requires Closed(s, conn) && NothingPending(s, conn)
    ensures Closed(Exec(cfg, s, later), conn) && NothingPending(Exec(cfg, s, later), conn)
    ensures MessagesTo(Exec(cfg, s, later).svc.channel.wire, conn) == MessagesTo(s.svc.channel.wire, conn)
  {
    if later != [] {
      SilentAfterClose(cfg, s, later[..|later| - 1], conn);
      ClosedStep(cfg, Exec(cfg, s, later[..|later| - 1]), later[|later| - 1], conn);
    }
  }

  lemma CloseCloses(cfg: Config, s: State, conn: nat)
    requires Enabled(cfg, s, CloseConnection(conn))
    ensures Closed(Next(cfg, s, CloseConnection(conn)), conn)
  {
    ListedAfterUnsubscribe(s.svc, conn, None);
  }

  // Exactly when: a closed connection stays without subscriptions in every continuation if and
  // only if no log subscription of it was still being validated.
  lemma ClosedStaysEmptyIff(cfg: Config, s: State, conn: nat)
    requires Closed(s, conn)
    ensures (forall later :: NoneLive(Exec(cfg, s, later), conn)) <==> NothingPending(s, conn)
  {
    if NothingPending(s, conn) {
      forall later ensures NoneLive(Exec(cfg, s, later), conn) {
        SilentAfterClose(cfg, s, later, conn);
      }
    } else {
      var r :| r in s.pending && s.pending[r].conn == conn && !s.pending[r].registered;
      var step := FinishValidation(r, true);
      var tag := s.pending[r].tag;
      assert [step][..0] == [];
      assert Exec(cfg, s, [step]) == Next(cfg, s, step);
      ExistingListed(SubsOf(s.svc.subs, tag), conn);
      assert IsDuplicate(s.svc, cfg.sameSub, conn, tag) ==> exists sub :: Listed(s.svc, tag, sub) && sub.conn == conn;
      ListedAfterSubscribe(s.svc, cfg.sameSub, conn, tag, s.nextId);
      assert Listed(Exec(cfg, s, [step]).svc, tag, Subscriber(conn, s.nextId));
    }
  }

  lemma ExistingListed(subs: seq<Subscriber>, conn: nat)
    ensures Existing(subs, conn).Some? ==> Existing(subs, conn).value in subs && Existing(subs, conn).value.conn == conn
  {
    if subs != [] && subs[0].conn != conn {
      ExistingListed(subs[1..], conn);
    }
  }

  /******* The subscriptions of one connection *******/

  // In order.
  function OfConnection(subs: seq<Subscriber>, conn: nat): seq<Subscriber> {
    if subs == [] then []
    else
      var rest := OfConnection(subs[..|subs| - 1], conn);
      if subs[|subs| - 1].conn == conn then rest + [subs[|subs| - 1]] else rest
  }

  lemma {:induction false} NoneOfConnection(subs: seq<Subscriber>, conn: nat)
    ensures Existing(subs, conn).None? <==> |OfConnection(subs, conn)| == 0
    decreases |subs|
  {
    if subs != [] {
      var most, last := subs[..|subs| - 1], subs[|subs| - 1];
      NoneOfConnection(most, conn);
      ExistingAppend(most, last, conn);
      assert most + [last] == subs;
    }
  }

  lemma {:induction false} ExistingAppend(subs: seq<Subscriber>, last: Subscriber, conn: nat)
    ensures Existing(subs + [last], conn) ==
            if Existing(subs, conn).Some? then Existing(subs, conn) else if last.conn == conn then Some(last) else None
  {
    if subs == [] {
      assert ([] + [last])[1..] == [];
    } else {
      assert (subs + [last])[1..] == subs[1..] + [last];
      ExistingAppend(subs[1..], last, conn);
    }
  }

  // Unsubscribing takes away exactly the connection's subscriptions, or the one of them that is named.
  lemma UnsubscribeExact(svc: Service, conn: nat, sel: Option<nat>, tag: Tag, sub: Subscriber)
    ensures sub in SubsOf(Unsubscribe(svc, conn, sel).subs, tag) <==>
            sub in SubsOf(svc.subs, tag) && !(sub.conn == conn && (sel == None || sel == Some(sub.id)))
  {
    KeepMembers(SubsOf(svc.subs, tag), conn, sel);
  }

  // A subscribe adds a subscription to the connection's under the tag, unless repeats are to be the same one and there
  // is one already.
  lemma OneMoreOfConnection(svc: Service, same: bool, conn: nat, tag: Tag, id: nat)
    ensures var before := |OfConnection(SubsOf(svc.subs, tag), conn)|;
      |OfConnection(SubsOf(Subscribe(svc, same, conn, tag, id).subs, tag), conn)| ==
      if same && before > 0 then before else before + 1
  {
    var subs := SubsOf(svc.subs, tag);
    NoneOfConnection(subs, conn);
    assert (subs + [Subscriber(conn, id)])[..|subs|] == subs;
  }

  // So two subscribes of a connection that has none under the tag leave one or two, as the flag says.
  lemma SubscribeTwice(svc: Service, same: bool, conn: nat, tag: Tag, id: nat, next: nat)
    requires forall sub :: Listed(svc, tag, sub) ==> sub.conn != conn
    ensures var twice := Subscribe(Subscribe(svc, same, conn, tag, id), same, conn, tag, next);
      |OfConnection(SubsOf(twice.subs, tag), conn)| == if same then 1 else 2
  {
    ExistingListed(SubsOf(svc.subs, tag), conn);
    NoneOfConnection(SubsOf(svc.subs, tag), conn);
    OneMoreOfConnection(svc, same, conn, tag, id);
    OneMoreOfConnection(Subscribe(svc, same, conn, tag, id), same, conn, tag, next);
  }

  // Unsubscribing leaves every other connection's subscriptions as they were.
  lemma OthersKept(svc: Service, conn: nat, sel: Option<nat>, other: nat, tag: Tag)
    requires other != conn
    ensures OfConnection(SubsOf(Unsubscribe(svc, conn, sel).subs, tag), other) ==
      OfConnection(SubsOf(svc.subs, tag), other)
  {
    OthersKeptIn(SubsOf(svc.subs, tag), conn, sel, other);
  }

  lemma OthersKeptIn(subs: seq<Subscriber>, conn: nat, sel: Option<nat>, other: nat)
    requires other != conn
    ensures OfConnection(Keep(subs, conn, sel), other) == OfConnection(subs, other)
  {
    if subs != [] {
      var rest := Keep(subs[..|subs| - 1], conn, sel);
      OthersKeptIn(subs[..|subs| - 1], conn, sel, other);
      assert (rest + [subs[|subs| - 1]])[..|rest|] == rest;
    }
  }
}
