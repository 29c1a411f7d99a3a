/** The WebSocket subscription engine as a state machine. */
module Engine {
  import opened Wrappers
  import opened Subscriptions
  import opened PollerServiceModel

  // Each step is one segment of code that runs without an await, or one move of the environment (a new
  // block, an answer to a query, a cache entry lost). A run is any finite sequence of steps; a step that
  // is not enabled changes nothing.

  datatype Config = Config(
    sameSub: bool,        // WS_SAME_SUB_FOR_SAME_EVENT
    newHeads: bool,       // WS_NEW_HEADS_ENABLED
    enabled: bool,        // SUBSCRIPTIONS_ENABLED
    subLimit: int,        // WS_SUBSCRIPTION_LIMIT
    ipLimit: int,         // WS_CONNECTION_LIMIT_PER_IP
    totalLimit: int)      // WS_CONNECTION_LIMIT

  // The fields the limiter keeps on a websocket.
  datatype Socket = Socket(ip: string, subscriptions: int, ipCounted: bool)

  datatype Limiter = Limiter(connected: int, ips: map<string, int>, sockets: map<nat, Socket>)

  // A log subscription that has passed the quota check: first its filter is validated, then it
  // is registered, and only then counted.
  datatype Pending = Pending(conn: nat, tag: Tag, registered: bool)

  // The blocks lo..hi a query was answered for: up to the block that was the latest to whoever answered it,
  // and none at all if that was behind the start.
  datatype Range = Range(lo: nat, hi: nat)

  datatype Query = Query(request: Request, served: Option<Range>)

  datatype Birth = Birth(conn: nat, tag: Tag, height: nat)

  // History, read by no step: who was given each subscription id and at which chain height, the
  // ranges each poll has completed, repeated subscribes, subscriptions removed by closing, and
  // the cache entries lost.
  datatype Book = Book(
    born: map<nat, Birth>,
    done: map<nat, seq<Range>>,
    repeats: map<nat, nat>,
    released: map<nat, nat>,
    evicted: multiset<Key>)

  datatype State = State(
    svc: Service,
    lim: Limiter,
    open: set<nat>,
    passed: set<nat>,
    pending: map<nat, Pending>,
    nextReq: nat,
    nextId: nat,
    ticks: nat,
    flight: map<nat, Query>,
    nextQuery: nat,
    blocks: seq<seq<Log>>,
    book: Book)

  datatype Step =
    | OpenConnection(conn: nat, ip: string, total: int)
    | CloseConnection(conn: nat)
    | RequestLogs(conn: nat, filters: string)
    | FinishValidation(req: nat, valid: bool)
    | CountSubscription(req: nat)
    | RequestNewHeads(conn: nat, filters: string)
    | RequestUnsubscribe(conn: nat, sel: Option<nat>)
    | FireTimer
    | ReadHead(head: Option<nat>)
    | ServeQuery(q: nat, hi: nat)
    | FinishQuery(q: nat)
    | FailQuery(q: nat)
    | ProduceBlock(matches: seq<set<Tag>>)
    | Evict(keys: set<Key>)

  function At(m: map<nat, nat>, k: nat): nat {
    if k in m then m[k] else 0
  }

  /******* Limiter *******/

  function IpCount(lim: Limiter, ip: string): int {
    if ip in lim.ips then lim.ips[ip] else 0
  }

  function IncrementCounters(lim: Limiter, conn: nat, ip: string, total: int): Limiter {
    Limiter(total, lim.ips[ip := IpCount(lim, ip) + 1], lim.sockets[conn := Socket(ip, 0, true)])
  }

  function DecrementCounters(lim: Limiter, conn: nat): Limiter
    requires conn in lim.sockets
  {
    var ip := lim.sockets[conn].ip;
    var left := IpCount(lim, ip) - 1;
    lim.(connected := lim.connected - 1,
         ips := if !lim.sockets[conn].ipCounted then lim.ips
                else if left == 0 then lim.ips - {ip}
                else lim.ips[ip := left])
  }

  predicate WithinLimits(cfg: Config, lim: Limiter, ip: string) {
    lim.connected <= cfg.totalLimit && IpCount(lim, ip) <= cfg.ipLimit
  }

  function AddSubs(lim: Limiter, conn: nat, amount: int): Limiter {
    if conn !in lim.sockets then lim
    else
      var socket := lim.sockets[conn];
      lim.(sockets := lim.sockets[conn := socket.(subscriptions := socket.subscriptions + amount)])
  }

  predicate UnderQuota(cfg: Config, lim: Limiter, conn: nat) {
    conn in lim.sockets && lim.sockets[conn].subscriptions < cfg.subLimit
  }

  /******* Chain *******/

  function NewBlock(number: nat, matches: seq<set<Tag>>): (block: seq<Log>)
    ensures |block| == |matches|
    ensures forall i :: 0 <= i < |block| ==> block[i] == Log(number, i, matches[i])
  {
    seq(|matches|, i requires 0 <= i < |matches| => Log(number, i, matches[i]))
  }

  function Matching(block: seq<Log>, tag: Tag): (r: seq<Payload>)
    ensures forall p :: p in r <==> p.LogData? && p.log in block && tag in p.log.matches
  {
    if block == [] then []
    else
      assert block == block[..|block| - 1] + [block[|block| - 1]];
      var rest := Matching(block[..|block| - 1], tag);
      var last := block[|block| - 1];
      if tag in last.matches then rest + [LogData(last)] else rest
  }

  // The answer of getLogs for the blocks lo..hi, with `hi` inclusive.
  function LogsIn(blocks: seq<seq<Log>>, lo: nat, hi: nat, tag: Tag): (r: seq<Payload>)
    requires hi < |blocks|
    ensures forall p :: p in r <==>
              p.LogData? && tag in p.log.matches && exists b :: lo <= b <= hi && p.log in blocks[b]
    decreases hi
  {
    if hi < lo then []
    else (if hi == 0 then [] else LogsIn(blocks, lo, hi - 1, tag)) + Matching(blocks[hi], tag)
  }

  function Answer(blocks: seq<seq<Log>>, r: Range, tag: Tag): seq<Payload>
    requires r.hi < |blocks|
  {
    if tag.event == Logs then LogsIn(blocks, r.lo, r.hi, tag)
    else [HeadData(r.hi, tag.filters)]
  }

  /******* Steps *******/

  function Init(): State {
    State(Service(map[], EmptyPoller, Channel({}, [])), Limiter(0, map[], map[]), {}, {}, map[], 0, 0,
          0, map[], 0, [[]], Book(map[], map[], map[], map[], multiset{}))
  }

  function Open(cfg: Config, s: State, conn: nat, ip: string, total: int): State {
    var lim := IncrementCounters(s.lim, conn, ip, total);
    s.(lim := lim, open := s.open + {conn},
       passed := if WithinLimits(cfg, lim, ip) then s.passed + {conn} else s.passed)
  }

  ghost function LiveOf(svc: Service, conn: nat, sel: Option<nat>): nat {
    Tally(svc.subs, svc.subs.Keys, conn, sel)
  }

  ghost function Drop(s: State, conn: nat, sel: Option<nat>): State {
    s.(svc := Unsubscribe(s.svc, conn, sel), lim := AddSubs(s.lim, conn, 0 - LiveOf(s.svc, conn, sel)))
  }

  ghost function Close(s: State, conn: nat): State
    requires conn in s.lim.sockets
  {
    s.(svc := Unsubscribe(s.svc, conn, None),
       lim := DecrementCounters(s.lim, conn),
       open := s.open - {conn},
       passed := s.passed - {conn},
       book := s.book.(released := s.book.released[conn := At(s.book.released, conn) + LiveOf(s.svc, conn, None)]))
  }

  function Register(cfg: Config, s: State, conn: nat, tag: Tag): State {
    var dup := IsDuplicate(s.svc, cfg.sameSub, conn, tag);
    s.(svc := Subscribe(s.svc, cfg.sameSub, conn, tag, s.nextId),
       nextId := if dup then s.nextId else s.nextId + 1,
       book := if dup then s.book.(repeats := s.book.repeats[conn := At(s.book.repeats, conn) + 1])
               else s.book.(born := s.book.born[s.nextId := Birth(conn, tag, |s.blocks|)]))
  }

  function Enqueue(s: State, requests: seq<Request>): State {
    if requests == [] then s
    else
      var t := Enqueue(s, requests[..|requests| - 1]);
      t.(flight := t.flight[t.nextQuery := Query(requests[|requests| - 1], None)], nextQuery := t.nextQuery + 1)
  }

  function Finish(s: State, q: nat): State
    requires q in s.flight && s.flight[q].served.Some? && s.flight[q].served.value.hi < |s.blocks|
  {
    var request, served := s.flight[q].request, s.flight[q].served;
    var poller := s.svc.poller.(polls := MarkPolled(s.svc.poller.polls, request.pid, s.svc.poller.latest));
    s.(svc := Notify(s.svc.(poller := poller), request.tag, Answer(s.blocks, served.value, request.tag)),
       flight := s.flight - {q},
       book := s.book.(done := s.book.done[request.pid := DoneBy(s, request.pid) + [served.value]]))
  }

  function DoneBy(s: State, pid: nat): seq<Range> {
    if pid in s.book.done then s.book.done[pid] else []
  }

  predicate Enabled(cfg: Config, s: State, step: Step) {
    match step
    case OpenConnection(conn, _, _) => conn !in s.lim.sockets
    case CloseConnection(conn) => conn in s.open && conn in s.lim.sockets
    case RequestLogs(conn, _) => conn in s.open && cfg.enabled && UnderQuota(cfg, s.lim, conn)
    case FinishValidation(req, _) => req in s.pending && !s.pending[req].registered
    case CountSubscription(req) => req in s.pending && s.pending[req].registered
    case RequestNewHeads(conn, _) => conn in s.open && cfg.enabled && cfg.newHeads && UnderQuota(cfg, s.lim, conn)
    case RequestUnsubscribe(conn, _) => conn in s.open && cfg.enabled
    case FireTimer => s.svc.poller.active
    case ReadHead(head) => s.ticks > 0 && (head.Some? ==> head.value < |s.blocks|)
    case ServeQuery(q, hi) => q in s.flight && s.flight[q].served.None? && hi < |s.blocks|
    case FinishQuery(q) => q in s.flight && s.flight[q].served.Some? && s.flight[q].served.value.hi < |s.blocks|
    case FailQuery(q) => q in s.flight
    case ProduceBlock(_) => true
    case Evict(_) => true
  }

  ghost function Apply(cfg: Config, s: State, step: Step): State
    requires Enabled(cfg, s, step)
  {
    match step
    case OpenConnection(conn, ip, total) => Open(cfg, s, conn, ip, total)
    case CloseConnection(conn) => Close(s, conn)
    case RequestLogs(conn, filters) =>
      s.(pending := s.pending[s.nextReq := Pending(conn, Tag(Logs, filters), false)], nextReq := s.nextReq + 1)
    case FinishValidation(req, valid) =>
      if valid then
        Register(cfg, s, s.pending[req].conn, s.pending[req].tag)
          .(pending := s.pending[req := s.pending[req].(registered := true)])
      else s.(pending := s.pending - {req})
    case CountSubscription(req) =>
      s.(lim := AddSubs(s.lim, s.pending[req].conn, 1), pending := s.pending - {req})
    case RequestNewHeads(conn, filters) =>
      var t := Register(cfg, s, conn, Tag(NewHeads, filters));
      t.(lim := AddSubs(t.lim, conn, 1))
    case RequestUnsubscribe(conn, sel) => Drop(s, conn, sel)
    case FireTimer => s.(ticks := s.ticks + 1)
    case ReadHead(head) =>
      if head.None? then s.(ticks := s.ticks - 1)
      else Enqueue(s.(ticks := s.ticks - 1, svc := s.svc.(poller := s.svc.poller.(latest := head))),
                   Requests(s.svc.poller.polls, head))
    case ServeQuery(q, hi) =>
      s.(flight := s.flight[q := s.flight[q].(served := Some(Range(s.flight[q].request.from.GetOr(hi), hi)))])
    case FinishQuery(q) => Finish(s, q)
    case FailQuery(q) => s.(flight := s.flight - {q})
    case ProduceBlock(matches) => s.(blocks := s.blocks + [NewBlock(|s.blocks|, matches)])
    case Evict(keys) =>
      s.(svc := s.svc.(channel := s.svc.channel.(cache := s.svc.channel.cache - keys)),
         book := s.book.(evicted := s.book.evicted + multiset(keys * s.svc.channel.cache)))
  }

  ghost function Next(cfg: Config, s: State, step: Step): State {
    if Enabled(cfg, s, step) then Apply(cfg, s, step) else s
  }

  ghost function Exec(cfg: Config, s: State, steps: seq<Step>): State {
    if steps == [] then s
    else Next(cfg, Exec(cfg, s, steps[..|steps| - 1]), steps[|steps| - 1])
  }

  // The whole life of the server, from start-up.
  ghost function Run(cfg: Config, steps: seq<Step>): State {
    Exec(cfg, Init(), steps)
  }

  lemma ExecLast(cfg: Config, s: State, t: State, whole: seq<Step>, second: seq<Step>)
    requires whole != [] && second != [] && whole[|whole| - 1] == second[|second| - 1]
    requires Exec(cfg, s, whole[..|whole| - 1]) == Exec(cfg, t, second[..|second| - 1])
    ensures Exec(cfg, s, whole) == Exec(cfg, t, second)
  {
  }

  lemma {:induction false} ExecSplit(cfg: Config, s: State, first: seq<Step>, second: seq<Step>)
    ensures Exec(cfg, s, first + second) == Exec(cfg, Exec(cfg, s, first), second)
  {
    var whole := first + second;
    if second == [] {
      assert whole == first;
    } else {
      var most := second[..|second| - 1];
      ExecSplit(cfg, s, first, most);
      assert whole[..|whole| - 1] == first + most;
      ExecLast(cfg, s, Exec(cfg, s, first), whole, second);
    }
  }

  // Sending a tick's requests only adds unanswered queries; nothing else of the state moves.
  lemma EnqueueAdds(s: State, requests: seq<Request>)
    ensures var t := Enqueue(s, requests);
            && t == s.(flight := t.flight, nextQuery := t.nextQuery)
            && t.nextQuery == s.nextQuery + |requests|
            && (forall q :: q in s.flight && q < s.nextQuery ==> q in t.flight && t.flight[q] == s.flight[q])
            && (forall q :: q in t.flight ==>
                  (q in s.flight && t.flight[q] == s.flight[q])
                  || (t.flight[q].served.None? && t.flight[q].request in requests))
  {
    if requests != [] {
      EnqueueAdds(s, requests[..|requests| - 1]);
      assert forall r :: r in requests[..|requests| - 1] ==> r in requests;
    }
  }

  // Every request of a tick is sent.
  lemma {:induction false} EnqueueSends(s: State, requests: seq<Request>, i: nat) returns (q: nat)
    requires i < |requests|
    ensures q in Enqueue(s, requests).flight && Enqueue(s, requests).flight[q] == Query(requests[i], None)
    ensures q < Enqueue(s, requests).nextQuery
  {
    var most := requests[..|requests| - 1];
    if i < |most| {
      q := EnqueueSends(s, most, i);
    } else {
      q := Enqueue(s, most).nextQuery;
    }
  }

  // Reading the head changes the head and adds unanswered queries, nothing else.
  lemma ReadHeadAdds(cfg: Config, s: State, head: Option<nat>)
    requires Enabled(cfg, s, ReadHead(head))
    ensures var t := Next(cfg, s, ReadHead(head));
            && t == s.(ticks := s.ticks - 1, svc := t.svc, flight := t.flight, nextQuery := t.nextQuery)
            && t.svc == s.svc.(poller := s.svc.poller.(latest := if head.Some? then head else s.svc.poller.latest))
            && t.nextQuery >= s.nextQuery
            && (forall q :: q in s.flight && q < s.nextQuery ==> q in t.flight && t.flight[q] == s.flight[q])
            && (forall q :: q in t.flight ==>
                  (q in s.flight && t.flight[q] == s.flight[q])
                  || (head.Some? && t.flight[q].served.None?
                      && t.flight[q].request in Requests(s.svc.poller.polls, head)))
  {
    if head.Some? {
      EnqueueAdds(s.(ticks := s.ticks - 1, svc := s.svc.(poller := s.svc.poller.(latest := head))),
                  Requests(s.svc.poller.polls, head));
    }
  }

  /******* What most steps leave alone *******/

  ghost predicate SameLimits(s: State, t: State) {
    && t.open == s.open && t.passed == s.passed && t.lim.ips == s.lim.ips
    && t.lim.sockets.Keys == s.lim.sockets.Keys
    && (forall c :: c in s.lim.sockets ==>
          t.lim.sockets[c].ip == s.lim.sockets[c].ip && t.lim.sockets[c].ipCounted == s.lim.sockets[c].ipCounted)
  }

  lemma AddSubsKeeps(s: State, conn: nat, amount: int)
    ensures SameLimits(s, s.(lim := AddSubs(s.lim, conn, amount)))
  {
  }

  lemma LimitsStep(cfg: Config, s: State, step: Step)
    requires Enabled(cfg, s, step) && !step.OpenConnection? && !step.CloseConnection?
    ensures SameLimits(s, Apply(cfg, s, step))
  {
    match step
    case CountSubscription(req) => AddSubsKeeps(s, s.pending[req].conn, 1);
    case RequestNewHeads(conn, filters) => AddSubsKeeps(s, conn, 1);
    case RequestUnsubscribe(conn, sel) => AddSubsKeeps(s, conn, 0 - LiveOf(s.svc, conn, sel));
    case ReadHead(head) => ReadHeadAdds(cfg, s, head);
    case _ =>
  }

  predicate ChangesSubs(step: Step) {
    step.CloseConnection? || step.RequestUnsubscribe? || step.FinishValidation? || step.RequestNewHeads?
  }

  lemma SubsStep(cfg: Config, s: State, step: Step)
    requires Enabled(cfg, s, step) && !ChangesSubs(step)
    ensures var t := Apply(cfg, s, step);
      t.svc.subs == s.svc.subs && t.nextId == s.nextId && t.book.born == s.book.born && |t.blocks| >= |s.blocks|
  {
    if step.ReadHead? {
      ReadHeadAdds(cfg, s, step.head);
    }
  }

  lemma QuietStep(cfg: Config, s: State, step: Step)
    requires !step.FinishQuery?
    ensures var t := Next(cfg, s, step);
            && t.svc.channel.wire == s.svc.channel.wire
            && t.book.done == s.book.done
            && s.blocks <= t.blocks
  {
    if step.ReadHead? && Enabled(cfg, s, step) {
      ReadHeadAdds(cfg, s, step.head);
    }
  }
}
