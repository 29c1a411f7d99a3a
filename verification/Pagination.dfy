/** Reading a result of many pages from the mirror node, and reading it again until every log is mature. */
module Pagination {
  import opened Wrappers

  const NEXT_LINK_PREFIX := "/api/v1/"
  const EMPTY_HEX := "0x"

  datatype Log = Log(
    transactionIndex: Option<int>, blockNumber: Option<int>, index: Option<int>, blockHash: Option<string>)

  // What one request brings: a page with the logs under the wanted property, if it is there, and the link to the
  // next one; nothing, for an error that is accepted; or an error that is thrown.
  datatype Response = Page(results: Option<seq<Option<Log>>>, next: Option<string>) | Nothing | Failure

  type Logs = seq<Option<Log>>

  datatype Outcome = Results(logs: Logs) | PaginationMax | RequestFailed | ImmatureRecords

  // The mirror node answers request number n for a path; it may answer the same path differently later.
  type MirrorNode = (nat, string) -> Response

  /******* Following the links *******/

  // `link.replace(NEXT_LINK_PREFIX, '')`
  function WithoutPrefix(link: string): string {
    if NEXT_LINK_PREFIX <= link then link[|NEXT_LINK_PREFIX|..]
    else if link == "" then ""
    else [link[0]] + WithoutPrefix(link[1..])
  }

  predicate HasNext(r: Response) {
    r.Page? && r.next.Some? && r.next.value != ""
  }

  // The responses along the links, at most `max` of them, and always one; it ends with the first without a link.
  function Visit(node: MirrorNode, at: nat, url: string, max: nat): (r: seq<Response>)
    ensures 0 < |r| <= Bound(max)
    decreases max
  {
    var page := node(at, url);
    [page] + if HasNext(page) && max > 1 then Visit(node, at + 1, WithoutPrefix(page.next.value), max - 1) else []
  }

  function Bound(max: nat): nat {
    if max == 0 then 1 else max
  }

  function LogsOf(r: Response): Logs {
    if r.Page? && r.results.Some? then r.results.value else []
  }

  function AllLogs(pages: seq<Response>): Logs {
    if pages == [] then [] else LogsOf(pages[0]) + AllLogs(pages[1..])
  }

  predicate Failed(pages: seq<Response>) {
    exists page :: page in pages && page.Failure?
  }

  // What reading a chain of pages comes to. A chain that fills the bound is an error even if it ends there.
  function Reading(pages: seq<Response>, max: nat): Outcome {
    if Failed(pages) then RequestFailed
    else if |pages| == max then PaginationMax
    else Results(AllLogs(pages))
  }

  predicate Immature(log: Option<Log>) {
    log.Some? && (log.value.transactionIndex.None? || log.value.blockNumber.None? || log.value.index.None?
      || log.value.blockHash == Some(EMPTY_HEX))
  }

  predicate AllMature(logs: Logs) {
    forall log :: log in logs ==> !Immature(log)
  }

  /******* Attempt after attempt *******/

  // The pages an attempt reads whose first request has the given number.
  type Reader = nat -> seq<Response>

  function ChainFrom(node: MirrorNode, url: string, max: nat): Reader {
    (at: nat) => Visit(node, at, url, max)
  }

  // What comes of a reading when this and `attempts` - 1 further ones may be made, and the number of requests by then.
  function Judged(read: Reader, max: nat, r: Outcome, at: nat, attempts: nat): (Outcome, nat)
    requires attempts > 0
    decreases attempts
  {
    if !r.Results? || AllMature(r.logs) then (r, at)
    else if attempts == 1 then (ImmatureRecords, at)
    else Judged(read, max, Reading(read(at), max), at + |read(at)|, attempts - 1)
  }

  // The outcome of up to `attempts` readings, and the number of requests made by then.
  function Attempts(read: Reader, max: nat, at: nat, attempts: nat): (Outcome, nat)
    requires attempts > 0
  {
    Judged(read, max, Reading(read(at), max), at + |read(at)|, attempts)
  }

  function Times(n: nat, bound: nat): nat {
    if n == 0 then 0 else bound + Times(n - 1, bound)
  }

  lemma {:induction false} TimesIs(n: nat, bound: nat)
    ensures Times(n, bound) == n * bound
  {
    if n > 0 {
      TimesIs(n - 1, bound);
    }
  }

  lemma {:induction false} JudgedBounded(read: Reader, max: nat, r: Outcome, at: nat, attempts: nat, bound: nat)
    requires attempts > 0 && forall n :: |read(n)| <= bound
    ensures at <= Judged(read, max, r, at, attempts).1 <= at + Times(attempts - 1, bound)
    decreases attempts
  {
    if r.Results? && !AllMature(r.logs) && attempts > 1 {
      JudgedBounded(read, max, Reading(read(at), max), at + |read(at)|, attempts - 1, bound);
    }
  }

  // Whatever the mirror node answers, no attempt makes more requests than the bound allows.
  lemma AttemptsBounded(node: MirrorNode, url: string, max: nat, at: nat, attempts: nat)
    requires attempts > 0
    ensures at < Attempts(ChainFrom(node, url, max), max, at, attempts).1 <= at + attempts * Bound(max)
  {
    var read := ChainFrom(node, url, max);
    assert forall n :: 0 < |read(n)| <= Bound(max);
    JudgedBounded(read, max, Reading(read(at), max), at + |read(at)|, attempts, Bound(max));
    TimesIs(attempts, Bound(max));
  }

  // The logs returned are all mature, and are those of one whole chain, in order: the last one that was read.
  lemma {:induction false} AttemptsSound(read: Reader, max: nat, at: nat, attempts: nat) returns (start: nat)
    requires attempts > 0 && Attempts(read, max, at, attempts).0.Results?
    ensures var (r, end) := Attempts(read, max, at, attempts);
      at <= start && AllMature(r.logs) && WholeChain(read(start), max, start, end, r.logs)
    decreases attempts
  {
    var r := Reading(read(at), max);
    if r.Results? && !AllMature(r.logs) {
      start := AttemptsSound(read, max, at + |read(at)|, attempts - 1);
    } else {
      start := at;
    }
  }

  predicate WholeChain(pages: seq<Response>, max: nat, start: nat, end: nat, logs: Logs) {
    start + |pages| == end && |pages| != max && !Failed(pages) && logs == AllLogs(pages)
  }

  // At least n more pages are linked after the first.
  predicate Linked(node: MirrorNode, at: nat, url: string, n: nat)
    decreases n
  {
    n == 0 || (HasNext(node(at, url)) && Linked(node, at + 1, WithoutPrefix(node(at, url).next.value), n - 1))
  }

  // Reading meets the page limit exactly when that many pages are linked and none fails, whether or not the last
  // of them has a further link.
  lemma {:induction false} LongChainIff(node: MirrorNode, at: nat, url: string, max: nat)
    requires max > 0
    ensures var pages := Visit(node, at, url, max);
      && (|pages| == max <==> Linked(node, at, url, max - 1))
      && (Reading(pages, max) == PaginationMax <==> Linked(node, at, url, max - 1) && !Failed(pages))
    decreases max
  {
    if max > 1 && HasNext(node(at, url)) {
      LongChainIff(node, at + 1, WithoutPrefix(node(at, url).next.value), max - 1);
    }
  }

  // The pages that attempt number k reads, if every earlier one is made.
  function AttemptPages(read: Reader, at: nat, k: nat): seq<Response>
    decreases k
  {
    if k == 0 then read(at) else AttemptPages(read, at + |read(at)|, k - 1)
  }

  // No page fails, and the page limit is not met.
  predicate Complete(pages: seq<Response>, max: nat) {
    !Failed(pages) && |pages| != max
  }

  predicate CompleteImmature(pages: seq<Response>, max: nat) {
    Complete(pages, max) && !AllMature(AllLogs(pages))
  }

  // Attempt k is made: all before it read complete chains with immature logs.
  ghost predicate Reached(read: Reader, max: nat, at: nat, k: nat) {
    forall j: nat :: j < k ==> CompleteImmature(AttemptPages(read, at, j), max)
  }

  lemma ReachedNext(read: Reader, max: nat, at: nat, k: nat)
    ensures Reached(read, max, at, k + 1) <==>
            CompleteImmature(read(at), max) && Reached(read, max, at + |read(at)|, k)
  {
    var next := at + |read(at)|;
    assert AttemptPages(read, at, 0) == read(at);
    assert forall j: nat :: AttemptPages(read, next, j) == AttemptPages(read, at, j + 1);
    if CompleteImmature(read(at), max) && Reached(read, max, next, k) {
      forall j: nat | j < k + 1 ensures CompleteImmature(AttemptPages(read, at, j), max) {
        if j > 0 {
          assert CompleteImmature(AttemptPages(read, next, j - 1), max);
        }
      }
    }
  }

  // The attempt that decides the outcome, if there is one: the first that is not complete with immature logs.
  ghost predicate Decides(read: Reader, max: nat, at: nat, k: nat) {
    Reached(read, max, at, k) && !CompleteImmature(AttemptPages(read, at, k), max)
  }

  lemma {:induction false} AllImmature(read: Reader, max: nat, at: nat, attempts: nat)
    requires attempts > 0 && Reached(read, max, at, attempts)
    ensures Attempts(read, max, at, attempts).0 == ImmatureRecords
    decreases attempts
  {
    ReachedNext(read, max, at, attempts - 1);
    if attempts > 1 {
      AllImmature(read, max, at + |read(at)|, attempts - 1);
    }
  }

  // Whatever the mirror node answers: the outcome of the retries is that of the attempt that decides it.
  lemma {:induction false} AttemptsDecided(read: Reader, max: nat, at: nat, attempts: nat, k: nat)
    requires k < attempts && Decides(read, max, at, k)
    ensures Attempts(read, max, at, attempts).0 == Reading(AttemptPages(read, at, k), max)
    decreases k
  {
    if k > 0 {
      ReachedNext(read, max, at, k - 1);
      AttemptsDecided(read, max, at + |read(at)|, attempts - 1, k - 1);
    }
  }

  lemma {:induction false} SomeDecides(read: Reader, max: nat, at: nat, n: nat) returns (k: nat)
    requires !Reached(read, max, at, n)
    ensures k < n && Decides(read, max, at, k)
  {
    k := n - 1;
    if !Reached(read, max, at, n - 1) {
      k := SomeDecides(read, max, at, n - 1);
    }
  }

  // Logs are returned exactly if some attempt reads a complete chain of mature logs, and every earlier one a
  // complete chain with immature ones.
  lemma ReturnsLogsIff(read: Reader, max: nat, at: nat, attempts: nat)
    requires attempts > 0
    ensures Attempts(read, max, at, attempts).0.Results? <==>
            exists k: nat :: k < attempts && Reached(read, max, at, k)
              && var pages := AttemptPages(read, at, k); Complete(pages, max) && AllMature(AllLogs(pages))
  {
    if Reached(read, max, at, attempts) {
      AllImmature(read, max, at, attempts);
    } else {
      var k := SomeDecides(read, max, at, attempts);
      AttemptsDecided(read, max, at, attempts, k);
    }
  }

  // So a chain that meets the page limit is an error for every number of retries.
  lemma LongChainThrows(node: MirrorNode, at: nat, url: string, max: nat, attempts: nat)
    requires attempts > 0 && max > 0 && Linked(node, at, url, max - 1)
    ensures Attempts(ChainFrom(node, url, max), max, at, attempts).0 in {PaginationMax, RequestFailed}
  {
    var read := ChainFrom(node, url, max);
    LongChainIff(node, at, url, max);
    assert read(at) == Visit(node, at, url, max) && AttemptPages(read, at, 0) == read(at);
    AttemptsDecided(read, max, at, attempts, 0);
  }

  /******* What a chain is made of *******/

  // A page with a link to a further one is followed along that link without the prefix; any other ends the chain.
  lemma LinkFollowed(node: MirrorNode, at: nat, url: string, max: nat, results: Option<Logs>, before: string,
      after: string)
    requires node(at, url) == Page(results, Some(before + "/api/v1/" + after)) && max > 1
    requires NoPrefixIn(before)
    ensures Visit(node, at, url, max) == [node(at, url)] + Visit(node, at + 1, before + after, max - 1)
  {
    PrefixDropped(before, after);
  }

  // The prefix occurs in the link behind the text at its very end only.
  ghost predicate NoPrefixIn(before: string) {
    forall i :: 0 <= i < |before| ==> !("/api/v1/" <= before[i..] + "/api/v1/")
  }

  lemma {:induction false} PrefixDropped(before: string, after: string)
    requires NoPrefixIn(before)
    ensures WithoutPrefix(before + "/api/v1/" + after) == before + after
  {
    var link := before + "/api/v1/" + after;
    if before == [] {
      assert link == "/api/v1/" + after;
      assert link[|NEXT_LINK_PREFIX|..] == after;
    } else {
      var more := before[1..];
      assert link[1..] == more + "/api/v1/" + after;
      forall i | 0 <= i < |more| ensures !("/api/v1/" <= more[i..] + "/api/v1/") {
        assert before[i + 1..] == more[i..];
      }
      PrefixDropped(more, after);
      assert before[0..] + "/api/v1/" == link[..|before| + 8];
    }
  }

  lemma ChainEnds(node: MirrorNode, at: nat, url: string, max: nat)
    requires match node(at, url)
      case Page(_, next) => next == None || next == Some("") || max <= 1
      case _ => true
    ensures Visit(node, at, url, max) == [node(at, url)]
  {
  }

  // The logs of a chain are those of its pages in order, and nothing for a page without the wanted property.
  lemma LogsInOrder(before: seq<Response>, results: Option<Logs>, next: Option<string>, after: seq<Response>)
    ensures AllLogs(before + [Page(results, next)] + after) ==
            AllLogs(before) + (if results.Some? then results.value else []) + AllLogs(after)
  {
    var page := Page(results, next);
    AllLogsSplit(before + [page], after);
    AllLogsSplit(before, [page]);
    assert AllLogs([page]) == LogsOf(page) by { assert [page][1..] == []; }
  }

  lemma {:induction false} AllLogsSplit(a: seq<Response>, b: seq<Response>)
    ensures AllLogs(a + b) == AllLogs(a) + AllLogs(b)
  {
    if a == [] {
      assert a + b == b;
    } else {
      assert (a + b)[1..] == a[1..] + b;
      AllLogsSplit(a[1..], b);
    }
  }

  /******* Maturity, field by field *******/

  // The log has a transaction index, a block number, an index, and a block hash other than 0x, which may be missing.
  predicate Grown(log: Log) {
    match log
    case Log(Some(_), Some(_), Some(_), blockHash) => blockHash != Some("0x")
    case _ => false
  }

  lemma GrownLogs(logs: Logs)
    ensures AllMature(logs) <==> forall log :: Some(log) in logs ==> Grown(log)
  {
    forall log ensures Immature(Some(log)) <==> !Grown(log) {}
    forall log | log in logs && Immature(log) ensures log.Some? && Some(log.value) in logs {}
  }

  // Whatever the mirror node answers: every log that is returned has its three numbers, and no block hash 0x.
  lemma ReturnedComplete(read: Reader, max: nat, at: nat, attempts: nat, log: Log)
    requires attempts > 0 && Attempts(read, max, at, attempts).0.Results?
    requires Some(log) in Attempts(read, max, at, attempts).0.logs
    ensures log.transactionIndex.Some? && log.blockNumber.Some? && log.index.Some? && log.blockHash != Some("0x")
  {
    var start := AttemptsSound(read, max, at, attempts);
    GrownLogs(Attempts(read, max, at, attempts).0.logs);
  }

  // A log lacks one of its numbers or has block hash 0x.
  ghost predicate SomeLacks(logs: Logs) {
    exists log: Log :: Some(log) in logs &&
      (log.transactionIndex.None? || log.blockNumber.None? || log.index.None? || log.blockHash == Some("0x"))
  }

  // The logs stay immature exactly if every attempt reads a chain below the page limit, without failure, with such a
  // log.
  lemma ImmatureIff(read: Reader, max: nat, at: nat, attempts: nat)
    requires attempts > 0
    ensures Attempts(read, max, at, attempts).0 == ImmatureRecords <==>
            forall k: nat :: k < attempts ==>
              Complete(AttemptPages(read, at, k), max) && SomeLacks(AllLogs(AttemptPages(read, at, k)))
  {
    forall k: nat
      ensures CompleteImmature(AttemptPages(read, at, k), max) <==>
              Complete(AttemptPages(read, at, k), max) && SomeLacks(AllLogs(AttemptPages(read, at, k)))
    {
      GrownLogs(AllLogs(AttemptPages(read, at, k)));
    }
    if Reached(read, max, at, attempts) {
      AllImmature(read, max, at, attempts);
    } else {
      var k := SomeDecides(read, max, at, attempts);
      AttemptsDecided(read, max, at, attempts, k);
    }
  }

  function After(logs: Logs, r: Outcome): Outcome {
    if r.Results? then Results(logs + r.logs) else r
  }

  lemma AfterTwice(a: Logs, b: Logs, r: Outcome)
    ensures After(a, After(b, r)) == After(a + b, r)
  {
    if r.Results? {
      assert a + (b + r.logs) == (a + b) + r.logs;
    }
  }

  lemma AfterNothing(r: Outcome)
    ensures After([], r) == r
  {
    if r.Results? {
      assert [] + r.logs == r.logs;
    }
  }

  // Reading a chain: its first page, and the rest if there is a link and room for it.
  lemma ReadingUnfolds(node: MirrorNode, at: nat, url: string, max: nat)
    ensures var page, pages := node(at, url), Visit(node, at, url, max);
      if HasNext(page) && max > 1 then
        var more := Visit(node, at + 1, WithoutPrefix(page.next.value), max - 1);
        |pages| == 1 + |more| && Reading(pages, max) == After(LogsOf(page), Reading(more, max - 1))
      else
        |pages| == 1 && Reading(pages, max) ==
          if page.Failure? then RequestFailed else if max == 1 then PaginationMax else Results(LogsOf(page))
  {
    var page, pages := node(at, url), Visit(node, at, url, max);
    if HasNext(page) && max > 1 {
      var more := Visit(node, at + 1, WithoutPrefix(page.next.value), max - 1);
      assert pages[1..] == more;
      assert forall p :: p in pages <==> p == page || p in more;
    } else {
      assert pages == [page] && page in pages;
      assert Failed(pages) <==> page.Failure?;
      assert AllLogs(pages) == LogsOf(page) + AllLogs(pages[1..]);
      assert pages[1..] == [];
      assert LogsOf(page) + [] == LogsOf(page);
    }
  }

  /******* The client *******/

  class MirrorNodeClient {
    const node: MirrorNode
    var requests: nat

    constructor (node: MirrorNode)
      ensures this.node == node && requests == 0
    {
      this.node := node;
      requests := 0;
    }

    method Get(url: string) returns (r: Response)
      modifies this
      ensures r == node(old(requests), url) && requests == old(requests) + 1
    {
      r := node(requests, url);
      requests := requests + 1;
    }

    method GetPaginatedResults(url: string, results: Logs, page: nat, pageMax: nat) returns (r: Outcome)
      modifies this
      ensures var left := if page <= pageMax then pageMax - page + 1 else 0;
        var pages := Visit(node, old(requests), url, left);
        requests == old(requests) + |pages| && r == After(results, Reading(pages, left))
      decreases pageMax - page
    {
      ghost var at, left := requests, if page <= pageMax then pageMax - page + 1 else 0;
      ReadingUnfolds(node, at, url, left);
      var response := Get(url);
      if response.Failure? {
        return RequestFailed;
      }
      var found := results + LogsOf(response);
      if page == pageMax {
        return PaginationMax;
      }
      if HasNext(response) && page < pageMax {
        var next := WithoutPrefix(response.next.value);
        r := GetPaginatedResults(next, found, page + 1, pageMax);
        AfterTwice(results, LogsOf(response), Reading(Visit(node, at + 1, next, left - 1), left - 1));
      } else {
        return Results(found);
      }
    }

    method GetLogs(url: string, pageMax: nat) returns (r: Outcome)
      modifies this
      ensures var pages := ChainFrom(node, url, pageMax)(old(requests));
        r == Reading(pages, pageMax) && requests == old(requests) + |pages|
    {
      AfterNothing(Reading(Visit(node, requests, url, pageMax), pageMax));
      r := GetPaginatedResults(url, [], 1, pageMax);
    }

    // With no retries the logs are returned unchecked.
    method GetContractResultsLogsWithRetry(url: string, retryCount: nat, pageMax: nat) returns (r: Outcome)
      modifies this
      ensures retryCount > 0 ==>
                (r, requests) == Attempts(ChainFrom(node, url, pageMax), pageMax, old(requests), retryCount)
      ensures retryCount == 0 ==> r == Reading(ChainFrom(node, url, pageMax)(old(requests)), pageMax)
    {
      r := GetLogs(url, pageMax);
      r := RetryLogs(r, url, retryCount, pageMax);
    }

    // The loop over the attempts that are left once the first has been made.
    method RetryLogs(first: Outcome, url: string, retryCount: nat, pageMax: nat) returns (r: Outcome)
      modifies this
      ensures retryCount > 0 ==>
                (r, requests) == Judged(ChainFrom(node, url, pageMax), pageMax, first, old(requests), retryCount)
      ensures retryCount == 0 ==> r == first
    {
      r := first;
      ghost var read, at: nat := ChainFrom(node, url, pageMax), requests;
      for i := 0 to retryCount
        invariant if retryCount == 0 then r == first else
          && i < retryCount
          && Judged(read, pageMax, first, at, retryCount) == Judged(read, pageMax, r, requests, retryCount - i)
      {
        if !r.Results? {
          return;
        }
        var isLastAttempt := i == retryCount - 1;
        var foundImmatureRecord := FindImmature(r.logs);
        if foundImmatureRecord && isLastAttempt {
          return ImmatureRecords;
        }
        if !foundImmatureRecord {
          return;
        }
        r := GetLogsAgain(url, pageMax, r, retryCount - i);
      }
    }

    // The next attempt, of those that are left.
    method GetLogsAgain(url: string, pageMax: nat, ghost before: Outcome, ghost left: nat) returns (r: Outcome)
      requires left > 1 && before.Results? && !AllMature(before.logs)
      modifies this
      ensures Judged(ChainFrom(node, url, pageMax), pageMax, r, requests, left - 1) ==
              Judged(ChainFrom(node, url, pageMax), pageMax, before, old(requests), left)
    {
      r := GetLogs(url, pageMax);
    }

    static method FindImmature(logs: Logs) returns (found: bool)
      ensures found == !AllMature(logs)
    {
      for i := 0 to |logs|
        invariant forall k :: 0 <= k < i ==> !Immature(logs[k])
      {
        if Immature(logs[i]) {
          return true;
        }
      }
      return false;
    }
  }
}
