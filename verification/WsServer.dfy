// The code behind the steps of the engine: the connection limiter, and the segments of the
// controllers that run without an await. Each method is proved to take the engine's step.
module WsServerModel {
  import opened Wrappers
  import opened Subscriptions
  import opened PollerServiceModel
  import opened SubscriptionServiceModel
  import opened Engine

  class ConnectionLimiter {
    var connectedClients: int
    var clientIps: map<string, int>
    var sockets: map<nat, Socket>

    ghost function View(): Limiter
      reads this
    {
      Limiter(connectedClients, clientIps, sockets)
    }

    constructor ()
      ensures View() == Limiter(0, map[], map[])
    {
      connectedClients := 0;
      clientIps := map[];
      sockets := map[];
    }

    method IncrementCounters(conn: nat, ip: string, total: int)
      modifies this
      ensures View() == Engine.IncrementCounters(old(View()), conn, ip, total)
    {
      connectedClients := total;
      if ip !in clientIps || clientIps[ip] == 0 {
        clientIps := clientIps[ip := 1];
      } else {
        clientIps := clientIps[ip := clientIps[ip] + 1];
      }
      sockets := sockets[conn := Socket(ip, 0, true)];
    }

    method DecrementCounters(conn: nat)
      requires conn in sockets
      modifies this
      ensures View() == Engine.DecrementCounters(old(View()), conn)
    {
      if sockets[conn].ipCounted {
        var ip := sockets[conn].ip;
        clientIps := clientIps[ip := (if ip in clientIps then clientIps[ip] else 0) - 1];
        if clientIps[ip] == 0 {
          clientIps := clientIps - {ip};
          assert clientIps == old(clientIps) - {ip};
        }
      }
      connectedClients := connectedClients - 1;
    }

    method ApplyLimits(cfg: Config, conn: nat) returns (accepted: bool)
      requires conn in sockets && sockets[conn].ip in clientIps
      ensures accepted <==> WithinLimits(cfg, View(), sockets[conn].ip)
    {
      if connectedClients > cfg.totalLimit {
        return false;
      }
      if clientIps[sockets[conn].ip] > cfg.ipLimit {
        return false;
      }
      return true;
    }

    method IncrementSubs(conn: nat)
      modifies this
      ensures View() == AddSubs(old(View()), conn, 1)
    {
      if conn in sockets {
        sockets := sockets[conn := sockets[conn].(subscriptions := sockets[conn].subscriptions + 1)];
      }
    }

    method DecrementSubs(conn: nat, amount: int)
      modifies this
      ensures View() == AddSubs(old(View()), conn, 0 - amount)
    {
      if conn in sockets {
        sockets := sockets[conn := sockets[conn].(subscriptions := sockets[conn].subscriptions - amount)];
      }
    }

    method ValidateSubscriptionLimit(cfg: Config, conn: nat) returns (under: bool)
      ensures under <==> UnderQuota(cfg, View(), conn)
    {
      under := conn in sockets && sockets[conn].subscriptions < cfg.subLimit;
    }
  }

  class WsServer {
    const cfg: Config
    const service: SubscriptionService
    const limiter: ConnectionLimiter
    var open: set<nat>
    var accepted: set<nat>
    var pending: map<nat, Pending>
    var nextReq: nat
    var nextId: nat
    var ticks: nat
    var flight: map<nat, Query>
    var nextQuery: nat
    ghost var blocks: seq<seq<Log>>
    ghost var book: Book

    ghost function View(): State
      reads this, service, service.poller, limiter
    {
      State(service.View(), limiter.View(), open, accepted, pending,
            nextReq, nextId, ticks, flight, nextQuery, blocks, book)
    }

    constructor (cfg: Config)
      ensures this.cfg == cfg && View() == Init()
      ensures fresh(service) && fresh(service.poller) && fresh(limiter)
    {
      this.cfg := cfg;
      service := new SubscriptionService();
      limiter := new ConnectionLimiter();
      open, accepted, pending := {}, {}, map[];
      nextReq, nextId, ticks, flight, nextQuery := 0, 0, 0, map[], 0;
      blocks, book := [[]], Book(map[], map[], map[], map[], multiset{});
    }

    // A websocket has been opened; `conn` is its fresh identifier.
    method Connect(conn: nat, ip: string, total: int)
      requires conn !in limiter.sockets
      modifies this, limiter
      ensures View() == Next(cfg, old(View()), OpenConnection(conn, ip, total))
    {
      limiter.IncrementCounters(conn, ip, total);
      var ok := limiter.ApplyLimits(cfg, conn);
      open := open + {conn};
      if ok {
        accepted := accepted + {conn};
      }
    }

    // The close event of an open websocket.
    method HandleConnectionClose(conn: nat)
      requires conn in open && conn in limiter.sockets
      modifies this, service, service.poller, limiter
      ensures View() == Next(cfg, old(View()), CloseConnection(conn))
    {
      var removed := service.Unsubscribe(conn, None);
      limiter.DecrementCounters(conn);
      open := open - {conn};
      accepted := accepted - {conn};
      book := book.(released := book.released[conn := At(book.released, conn) + removed]);
    }

    // eth_subscribe for logs, up to the await on the filter's validation.
    method EthSubscribeLogs(conn: nat, filters: string) returns (waiting: bool)
      requires conn in open
      modifies this
      ensures View() == Next(cfg, old(View()), RequestLogs(conn, filters))
      ensures waiting <==> Enabled(cfg, old(View()), RequestLogs(conn, filters))
    {
      var under := limiter.ValidateSubscriptionLimit(cfg, conn);
      if !under || !cfg.enabled {
        return false;
      }
      pending := pending[nextReq := Pending(conn, Tag(Logs, filters), false)];
      nextReq := nextReq + 1;
      return true;
    }

    method Register(conn: nat, tag: Tag)
      modifies this, service, service.poller
      ensures View() == Engine.Register(cfg, old(View()), conn, tag)
    {
      var found := Existing(SubsOf(service.subscriptions, tag), conn);
      var id := service.Subscribe(cfg.sameSub, conn, tag, nextId);
      if cfg.sameSub && found.Some? {
        book := book.(repeats := book.repeats[conn := At(book.repeats, conn) + 1]);
      } else {
        book := book.(born := book.born[nextId := Birth(conn, tag, |blocks|)]);
        nextId := nextId + 1;
      }
    }

    // The rest of the log handler, once validation has settled.
    method FinishLogs(req: nat, valid: bool)
      requires req in pending && !pending[req].registered
      modifies this, service, service.poller
      ensures View() == Next(cfg, old(View()), FinishValidation(req, valid))
    {
      if valid {
        Register(pending[req].conn, pending[req].tag);
        pending := pending[req := pending[req].(registered := true)];
      } else {
        pending := pending - {req};
      }
    }

    // The end of eth_subscribe for logs, one turn after the log handler has returned.
    method FinishSubscribe(req: nat)
      requires req in pending && pending[req].registered
      modifies this, limiter
      ensures View() == Next(cfg, old(View()), Step.CountSubscription(req))
    {
      limiter.IncrementSubs(pending[req].conn);
      pending := pending - {req};
    }

    // eth_subscribe for new heads runs from check to count without an await.
    method EthSubscribeNewHeads(conn: nat, filters: string)
      requires conn in open
      modifies this, service, service.poller, limiter
      ensures View() == Next(cfg, old(View()), RequestNewHeads(conn, filters))
    {
      var under := limiter.ValidateSubscriptionLimit(cfg, conn);
      if !under || !cfg.enabled || !cfg.newHeads {
        return;
      }
      Register(conn, Tag(NewHeads, filters));
      limiter.IncrementSubs(conn);
    }

    method EthUnsubscribe(conn: nat, sel: Option<nat>) returns (removed: bool)
      requires conn in open
      modifies service, service.poller, limiter
      ensures View() == Next(cfg, old(View()), RequestUnsubscribe(conn, sel))
      ensures removed <==> cfg.enabled && LiveOf(old(View()).svc, conn, sel) != 0
    {
      if !cfg.enabled {
        return false;
      }
      var count := DropSubscriptions(conn, sel);
      return count != 0;
    }

    // The removal, and the counter lowered by its result.
    method DropSubscriptions(conn: nat, sel: Option<nat>) returns (count: nat)
      modifies service, service.poller, limiter
      ensures View() == Drop(old(View()), conn, sel)
      ensures count == LiveOf(old(View()).svc, conn, sel)
    {
      count := service.Unsubscribe(conn, sel);
      limiter.DecrementSubs(conn, count);
    }

    // The interval timer asks for the current head ...
    method TimerFired()
      requires service.poller.interval
      modifies this
      ensures View() == Next(cfg, old(View()), FireTimer)
    {
      ticks := ticks + 1;
    }

    // ... and polls with it once it is known.
    method HeadRead(head: nat)
      requires ticks > 0 && head < |blocks|
      modifies this, service.poller
      ensures View() == Next(cfg, old(View()), ReadHead(Some(head)))
    {
      ghost var was := View();
      var requests := service.poller.Tick(head);
      ticks := ticks - 1;
      assert View() == was.(ticks := was.ticks - 1, svc := was.svc.(poller := was.svc.poller.(latest := Some(head))));
      SendQueries(requests);
    }

    method SendQueries(requests: seq<Request>)
      modifies this`flight, this`nextQuery
      ensures View() == Enqueue(old(View()), requests)
    {
      for i := 0 to |requests|
        invariant View() == Enqueue(old(View()), requests[..i])
      {
        assert requests[..i + 1][..i] == requests[..i];
        flight := flight[nextQuery := Query(requests[i], None)];
        nextQuery := nextQuery + 1;
      }
      assert requests[..|requests|] == requests;
    }

    // The rest of one poll, once its query has settled; `results` is what the node answered.
    method QueryFinished(q: nat, results: seq<Payload>)
      requires q in flight && flight[q].served.Some? && flight[q].served.value.hi < |blocks|
      requires results == Answer(blocks, flight[q].served.value, flight[q].request.tag)
      modifies this, service, service.poller
      ensures View() == Next(cfg, old(View()), FinishQuery(q))
    {
      ghost var was := View();
      var request := flight[q].request;
      service.Deliver(request.pid, request.tag, results);
      book := book.(done := book.done[request.pid := DoneBy(was, request.pid) + [flight[q].served.value]]);
      flight := flight - {q};
    }

    method QueryFailed(q: nat)
      requires q in flight
      modifies this
      ensures View() == Next(cfg, old(View()), FailQuery(q))
    {
      flight := flight - {q};
    }
  }
}
