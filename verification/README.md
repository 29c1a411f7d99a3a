# A verified model of the JSON-RPC relay's stateful parts

This project models parts of a JSON-RPC relay whose behaviour is easy to get wrong and hard to see from any one
function, and proves what they guarantee.

* **WebSocket subscriptions** (`Subscriptions`, `PollerService`, `SubscriptionService`, `Engine`, `Engine*`,
  `WsServer`). The subscription service, the poller, the connection limiter and the subscribe, unsubscribe and close
  paths form one concurrent state machine. Every stretch of code between two awaits is one atomic step, and steps of
  different requests, polls and connections interleave freely, together with the production of blocks and the loss of
  cache entries. The classes hold the source's fields; each of their methods is proved to take the step of the state
  machine that bears its name. The theorems are about every run of the state machine.
* **The OpenRPC document updater** (`JsonValues`, `MergeDocument`, `MergeReconciled`, `RefPaths`, `PathGroups`, `JsonParser`,
  `JsonReading`, `JsonFormatter`): recursive reconciliation of two JSON trees, `$ref` paths and in-place writes at
  paths, greedy grouping of paths, and the hand-written JSON printer against a parser for RFC 8259.
* **Spending-plan reconciliation** (`SpendingPlans`): nested loops over three stores, and the closed form they reach.
* **The cache decorator** (`JsonStringify`, `CacheDecorator`): calls that interleave at their awaits, with arbitrary
  loss of entries, against the undecorated method.
* **Smaller kernels**: reading pages with retries (`Pagination`), call data in files and its fee (`FileService`,
  `HexText`), the bloom filter of logs (`LogsBloom`), the `Forwarded` header of RFC 7239 (`ForwardedHeader`), and
  revert reasons (`RevertReason`).

## Where a guarantee has an exception

The code is followed where it and its comments differ. Each point is a theorem with the
exact condition, a concrete run, or both.

* A `getLogs` answer that arrives after a later timer tick can lose blocks: `lastPolled` takes the head on record when
  the answer arrives, not the head that was asked for. `EngineLoss.LostIff` says for every run which blocks a poll will
  never ask for again, `EngineLoss.LateAnswerLosesIff` when an answer loses one, and `EngineLoss.LateFinishHappens`
  gives a run. What a poll was answered for is delivered in every run (`EngineExactlyOnce.ExactlyOnce`); that it was
  asked for everything (`EngineCoverage.NoGap`) is for polls whose answers are timely: heads advance, and each time an
  answer to this poll arrives, the head is at most one past what the poll is answered for.
* A new poll starts at the head of its first tick that is answered, not where its subscriber joined. The blocks between
  are never asked for: `EngineLoss.NeverAskedIff` says exactly which, and `EngineLoss.JoinedBlockSkipped` gives a run.
* Closing a connection removes its subscriptions but leaves its counter, so the counter stays exact unless a connection
  is closed with live subscriptions (`EngineQuota.CloseKeepsExactIff`, `EngineQuota.CounterExactIff`). A log
  subscription whose validation ends after the close is registered all the same (`EngineDelivery.ClosedStaysEmptyIff`).
* Subscribes that overlap between the quota check and the count pass the limit: with at most k at a time, limit - 1 + k
  subscriptions are possible and no more (`EngineQuota.QuotaAlways`, `EngineQuota.QuotaTight`,
  `EngineQuota.LimitKeptIff`). A repeated subscribe is counted although nothing is added, so what is counted is what is
  live only without repeats (`EngineQuota.CountedIsLiveIff`).
* A document whose keys need escaping is written as something else (`JsonFormatter.WrittenParsesBackIff`).
* Paths below a name that every JavaScript object inherits, such as `constructor`, are never grouped
  (`PathGroups.MaximalIff`).
* Two configured plans with one id take addresses from each other (`SpendingPlans.AddressConvergesIff`,
  `SpendingPlans.SharedIdLosesAddresses`) and, when new, are both counted (`SpendingPlans.MissingCountIff`); a BASIC plan
  is added again by every run (`SpendingPlans.SecondRunCountsNothingIff`).
* A cached call throws where the method would not, exactly when a rule names a field of an argument that is missing or
  null (`CacheDecoratorModel.FittingTransparent`). Different calls can share a key (`CacheDecoratorModel.SharedKeys`),
  and caching is transparent for a set of calls exactly if no call of it that may be cached shares its key with a
  different one (`CacheDecoratorModel.TransparentIff`).
* A file loses the end of call data that fits one chunk while its hexadecimal text does not
  (`FileServiceModel.UploadedIff`); the submission path never gets there.
* A chain of exactly as many pages as allowed is an error even if it ends there (`Pagination.LongChainIff`), whatever the
  number of retries (`Pagination.LongChainThrows`).
* A log without topics has an empty bloom filter, so its address is not found in it (`LogsBloom.BuildLogsBloom`).

## Model

| member | source | states |
|---|---|---|
| PollerServiceModel.PollerService.Start | packages/ws-server/src/service/pollerService.ts:116-124 | the timer runs afterwards, nothing else changes |
| PollerServiceModel.PollerService.Stop | packages/ws-server/src/service/pollerService.ts:129-135 | the timer is stopped, nothing else changes |
| PollerServiceModel.PollerService.Add | packages/ws-server/src/service/pollerService.ts:142-159 | a poll for a new tag joins at the end with its gauge, a known tag is left alone, and the timer runs in either case |
| PollerServiceModel.PollerService.Remove | packages/ws-server/src/service/pollerService.ts:165-183 | every poll of the tag goes, in place, the gauge of its kind falls by their number, and the timer stops when none is left |
| PollerServiceModel.PollerService.Tick | packages/ws-server/src/service/pollerService.ts:57-123 | the head is recorded and each poll asks from its last polled head, or else from this one |
| PollerServiceModel.PollerService.Polled | packages/ws-server/src/service/pollerService.ts:79-87 | the poll moves to the head on record at that moment |
| SubscriptionServiceModel.SubscriptionService.Subscribe | packages/ws-server/src/service/subscriptionService.ts:75-111 | a repeat by the same connection gives its old id and changes nothing; otherwise the subscriber joins the tag and the tag is polled |
| SubscriptionServiceModel.SubscriptionService.Unsubscribe | packages/ws-server/src/service/subscriptionService.ts:113-149 | the loop that deletes from what it iterates over ends with exactly the selected subscriptions gone, the emptied tags and their polls removed, and the number removed as result |
| SubscriptionServiceModel.SubscriptionService.NotifySubscribers | packages/ws-server/src/service/subscriptionService.ts:151-180 | each subscriber of the tag is sent the data once and remembered, unless it is remembered already |
| SubscriptionServiceModel.SubscriptionService.Deliver | packages/ws-server/src/service/pollerService.ts:79-106 | after an answer the poll moves and every result goes to the tag's present subscribers |
| WsServerModel.ConnectionLimiter.IncrementCounters | packages/ws-server/src/metrics/connectionLimiter.ts:77-93 | the address gains one connection, the connection starts with no subscriptions |
| WsServerModel.ConnectionLimiter.DecrementCounters | packages/ws-server/src/metrics/connectionLimiter.ts:95-104 | a counted connection leaves its address, which is forgotten at zero |
| WsServerModel.ConnectionLimiter.ApplyLimits | packages/ws-server/src/metrics/connectionLimiter.ts:106-160 | a connection stays exactly if both the total and its address are within their limits |
| WsServerModel.ConnectionLimiter.ValidateSubscriptionLimit | packages/ws-server/src/metrics/connectionLimiter.ts:170-172 | a subscribe is admitted exactly below the limit |
| WsServerModel.WsServer.Connect | packages/ws-server/src/webSocketServer.ts:47-82 | opening a connection is the step OpenConnection |
| WsServerModel.WsServer.HandleConnectionClose | packages/ws-server/src/utils/utils.ts:30-55 | closing is the step CloseConnection: subscriptions and address count go, the subscription counter stays |
| WsServerModel.WsServer.EthSubscribeLogs | packages/ws-server/src/controllers/jsonRpcController.ts:128-132 | the quota check and the start of validation are the step RequestLogs |
| WsServerModel.WsServer.FinishLogs | packages/ws-server/src/controllers/subscribeController.ts:107-116 | the segment after validation is the step FinishValidation |
| WsServerModel.WsServer.FinishSubscribe | packages/ws-server/src/controllers/subscribeController.ts:152-173 | counting a log subscription, after a further await, is the step CountSubscription |
| WsServerModel.WsServer.EthSubscribeNewHeads | packages/ws-server/src/controllers/subscribeController.ts:61-81 | a new-heads subscription is checked, registered and counted in one step |
| WsServerModel.WsServer.EthUnsubscribe | packages/ws-server/src/controllers/unsubscribeController.ts:20-36 | the counter falls by exactly the number of subscriptions removed, and the answer says whether there were any |
| WsServerModel.WsServer.HeadRead | packages/ws-server/src/service/pollerService.ts:116-124 | a timer callback records the head and sends one query per poll |
| WsServerModel.WsServer.QueryFinished | packages/ws-server/src/service/pollerService.ts:68-106 | the segment after a query's await is the step FinishQuery |
| EngineCoupling.CoupledAlways | packages/ws-server/src/service/subscriptionService.ts:75-149 | in every reachable state the subscribed tags are exactly the polled ones, each once, no list is empty, the timer runs exactly when something is polled, and the gauges count the polls of each kind |
| EngineCoupling.OnlyEnabledEvents | packages/ws-server/src/service/pollerService.ts:80-90 | with new heads switched off, no poll for them ever exists, so the branch for unsupported events is dead |
| EngineCoupling.NothingWhenDisabled | packages/ws-server/src/controllers/subscribeController.ts:142-144 | with subscriptions switched off nobody is ever subscribed, nothing is ever validated and nothing is ever sent |
| EngineQuota.LiveAfterUnsubscribe | packages/ws-server/src/service/subscriptionService.ts:113-149 | unsubscribing lowers the connection's live count by the number returned and no other connection's |
| EngineQuota.LiveAfterSubscribe | packages/ws-server/src/service/subscriptionService.ts:75-111 | subscribing raises the connection's live count by one, or by none for a repeat, and no other connection's |
| EngineQuota.LedgerAlways | packages/ws-server/src/controllers/subscribeController.ts:133-174 | in every reachable state and for every connection: counter + registered but uncounted = live subscriptions + repeated subscribes + subscriptions removed by closing |
| EngineQuota.OpenCounterExact | packages/ws-server/src/controllers/subscribeController.ts:133-174 | in every reachable state the counter of every open connection is exact: the ledger holds without the closing term |
| EngineQuota.CloseKeepsExactIff | packages/ws-server/src/utils/utils.ts:30-55 | closing leaves the counter exact exactly when the connection has no live subscription at that moment |
| EngineQuota.CounterExactIff | packages/ws-server/src/utils/utils.ts:37-41 | after any run the counter of any connection, open or closed, is exact if and only if it was never closed with live subscriptions |
| EngineQuota.CountedIsLiveIff | packages/ws-server/src/controllers/subscribeController.ts:133-174 | after any run counter + uncounted is the live count if and only if no step registered a repeat for the connection and it was never closed with live subscriptions, which an open one never was |
| EngineQuota.QuotaAlways | packages/ws-server/src/controllers/jsonRpcController.ts:128-132 | if at most k subscribes of a connection ever overlap between check and count, it never has more than limit - 1 + k live subscriptions |
| EngineQuota.QuotaTight | packages/ws-server/src/controllers/jsonRpcController.ts:128-151 | for every limit and every k, a run in which at most k subscribes overlap ends with limit - 1 + k live subscriptions: the bound is reached |
| EngineQuota.LimitKeptIff | packages/ws-server/src/controllers/jsonRpcController.ts:128-132 | the limit holds in all runs with at most k overlapping subscribes exactly if k is at most one |
| EngineQuota.IpsAlways | packages/ws-server/src/metrics/connectionLimiter.ts:77-160 | in every reachable state the count of an address is the number of its open connections, it is stored exactly when positive, and the connections let through never exceed the limit |
| EngineQuota.LetThroughIff | packages/ws-server/src/metrics/connectionLimiter.ts:77-160 | in every reachable state a new connection is let through exactly if all connections are within the total limit and those open from its address, itself included, are within the limit of an address |
| EngineDelivery.SendAllLedger | packages/ws-server/src/service/subscriptionService.ts:151-180 | notifying adds a send exactly where it adds a cache entry, for the subscribers of the tag |
| EngineDelivery.SentAlways | packages/ws-server/src/service/subscriptionService.ts:157-176 | in every reachable state the sends of one payload to one subscription are the losses of its cache entry, plus one if the entry is there |
| EngineDelivery.EvictForgets | packages/ws-server/src/service/subscriptionService.ts:157-176 | losing entries forgets exactly them, and sends nothing |
| EngineDelivery.AddressedAlways | packages/ws-server/src/service/subscriptionService.ts:151-180 | in every reachable state every message went to the connection that owns the subscription, with data its tag selects from a produced block |
| EngineDelivery.FinishSends | packages/ws-server/src/service/pollerService.ts:79-107 | an answer sends a message once more exactly if its data is a matching log of a block answered for, or the last such block for new heads, its subscription is listed and the message is not remembered |
| EngineDelivery.HeadDelivered | packages/ws-server/src/service/pollerService.ts:80-107 | in every reachable state, a new-heads query answered with block hi sends every subscriber of its tag that head, and no other message to anyone |
| EngineDelivery.SilentAfterUnsubscribe | packages/ws-server/src/service/subscriptionService.ts:113-149 | after unsubscribing, an id is never sent anything again in any continuation, whatever was in flight |
| EngineDelivery.SilentAfterClose | packages/ws-server/src/utils/utils.ts:30-55 | a closed connection with no validation pending is never sent anything again, in any continuation |
| EngineDelivery.CloseCloses | packages/ws-server/src/utils/utils.ts:30-55 | closing leaves the connection without subscriptions |
| EngineDelivery.ClosedStaysEmptyIff | packages/ws-server/src/controllers/subscribeController.ts:107-115 | a closed connection stays without subscriptions in every continuation exactly when no log subscription of it was being validated |
| EngineDelivery.OthersKept | packages/ws-server/src/service/subscriptionService.ts:123-146 | unsubscribing keeps every other connection's subscriptions, in order, under every tag |
| EngineDelivery.UnsubscribeExact | packages/ws-server/src/service/subscriptionService.ts:113-149 | unsubscribing takes away exactly the subscriptions of the connection, or the one of them that is named |
| EngineDelivery.OneMoreOfConnection | packages/ws-server/src/service/subscriptionService.ts:75-111 | a subscribe adds one subscription to those of the connection under the tag, unless repeats are to be the same one and there is one already |
| EngineDelivery.SubscribeTwice | packages/ws-server/src/service/subscriptionService.ts:75-111 | two subscribes of a connection to a new tag leave one subscription or two, as the flag says |
| EngineCoverage.ConnectedHasNoGap | packages/ws-server/src/service/pollerService.ts:67-79 | ranges each starting within or next to those before it leave no block out |
| EngineCoverage.CoverageAlways | packages/ws-server/src/service/pollerService.ts:57-124 | if heads advance and, whenever an answer to this listed log poll arrives, the head is at most one past everything the poll is answered for, the poll and each of its queries under way connect to what was answered before; other polls may be late |
| EngineCoverage.NoGap | packages/ws-server/src/service/pollerService.ts:57-124 | then every block from the first completed range of that poll to the end of any later one was asked for in a completed range; failed queries lose nothing |
| EngineExactlyOnce.ExactlyOnce | packages/ws-server/src/service/pollerService.ts:57-124 | in every run, heads going back and late answers included, every matching log of a block in a completed range of a listed log poll, produced after a subscriber joined, was sent to it at least once and at most once more than its cache entry was lost |
| EngineExactlyOnce.TimelyExactlyOnce | packages/ws-server/src/service/pollerService.ts:57-124 | if the answers to the poll are timely, that holds of every block from the start of its first completed range to the end of any later one |
| EngineLoss.LostIff | packages/ws-server/src/service/pollerService.ts:57-124 | for every run with advancing heads, every poll that was ever listed and every block: no continuation with advancing heads brings the block in a completed range of the poll exactly if none has it yet, the poll starts past it and every query under way misses it |
| EngineLoss.LateAnswerLosesIff | packages/ws-server/src/service/pollerService.ts:68-79 | in every run with advancing heads, however late its answers, when an answer to a listed poll arrives, the first block past what the poll is answered for is never asked for again in any continuation exactly if the head on record is past that block and every other query of the poll, whether answered yet or not, misses it |
| EngineLoss.NeverAskedIff | packages/ws-server/src/service/pollerService.ts:57-87 | if the answers to a log poll are timely, the blocks it never asks for are exactly those skipped where it begins: below the first completed range, or below the head if there is none, and missed by every query under way |
| EngineLoss.LateFinishHappens | packages/ws-server/src/service/pollerService.ts:57-124 | a run from start-up, timely so far, whose next answer loses block 1 |
| EngineLoss.JoinedBlockSkipped | packages/ws-server/src/service/pollerService.ts:57-87 | a run in which a block produced after a subscriber joined is never asked for |
| SpendingPlans.HbarSpendingPlanConfigService.PopulatePreconfiguredSpendingPlans | packages/relay/src/lib/config/hbarSpendingPlanConfigService.ts:86-104 | the configuration is refused exactly if some entry lists no address of either kind, and then nothing changes; otherwise the three stores reach the closed form and the result is the number of plans deleted plus added |
| SpendingPlans.HbarSpendingPlanConfigService.ValidateSpendingPlanConfig | packages/relay/src/lib/types/spendingPlanConfig.ts:48-58 | a configuration is valid exactly if every entry lists an address of one kind or the other |
| SpendingPlans.HbarSpendingPlanConfigService.DeleteObsoletePlans | packages/relay/src/lib/config/hbarSpendingPlanConfigService.ts:176-199 | exactly the service's plans that are not configured go, with all their associations |
| SpendingPlans.HbarSpendingPlanConfigService.AddNewPlans | packages/relay/src/lib/config/hbarSpendingPlanConfigService.ts:210-223 | exactly the configured plans that are not the service's are created |
| SpendingPlans.HbarSpendingPlanConfigService.UpdatePlanAssociations | packages/relay/src/lib/config/hbarSpendingPlanConfigService.ts:233-248 | the associations settle plan by plan in the order of the configuration |
| SpendingPlans.HbarSpendingPlanConfigService.DeleteObsoleteAssociations | packages/relay/src/lib/config/hbarSpendingPlanConfigService.ts:339-378 | the plan's addresses are freed from other plans |
| SpendingPlans.HbarSpendingPlanConfigService.UpdateAssociations | packages/relay/src/lib/config/hbarSpendingPlanConfigService.ts:258-327 | the plan ends with the addresses it lists and no others |
| SpendingPlans.AddressesSettle | packages/relay/src/lib/config/hbarSpendingPlanConfigService.ts:86-104 | for every store and configuration, shared ids included, where every address of both kinds ends up |
| SpendingPlans.AddressConvergesIff | packages/relay/src/lib/config/hbarSpendingPlanConfigService.ts:266-275 | a listed address ends with the last plan listing it exactly if no later entry has the same id, and with no plan otherwise; an unlisted one keeps its plan exactly if that was neither the service's nor configured |
| SpendingPlans.AddressesConverge | packages/relay/src/lib/config/hbarSpendingPlanConfigService.ts:86-104 | with unique ids, each listed address ends with the last plan listing it, and every other one keeps its plan exactly when that plan was neither the service's nor configured |
| SpendingPlans.PlansConverge | packages/relay/src/lib/config/hbarSpendingPlanConfigService.ts:176-223 | for every configuration, which plans go, stay as they are, appear with the tier of their last entry, and are left alone |
| SpendingPlans.MissingCountIff | packages/relay/src/lib/config/hbarSpendingPlanConfigService.ts:215-222 | the number added is the number of configured ids that are not the service's exactly if each of those is named by one entry, and greater otherwise |
| SpendingPlans.SecondRunCountsNothingIff | packages/relay/src/lib/config/hbarSpendingPlanConfigService.ts:94-103 | a second run returns 0 exactly when the last entry of every plan the first had to create is EXTENDED or PRIVILEGED |
| SpendingPlans.ReconcileTwice | packages/relay/src/lib/config/hbarSpendingPlanConfigService.ts:86-104 | for every store and configuration, shared ids included, a second run changes no store |
| SpendingPlans.SharedIdLosesAddresses | packages/relay/src/lib/config/hbarSpendingPlanConfigService.ts:266-275 | with a shared id, an address that a plan lists ends with no plan |
| MergeDocument.RemoveAtPosition | scripts/openrpc-json-updater/utils/merge.utils.js:50-65 | removing skipped keys keeps exactly the positions no skipped key leads to |
| MergeDocument.HandleMethodTwice | scripts/openrpc-json-updater/utils/merge.utils.js:265-415 | for all trees, removing skipped keys and reconciling with the original twice is the same as once, although references bring skipped keys back |
| MergeDocument.HandleComponentTwice | scripts/openrpc-json-updater/utils/merge.utils.js:265-415 | the same in component mode |
| MergeDocument.HandleAtPosition | scripts/openrpc-json-updater/utils/merge.utils.js:284-415 | reconciliation acts position by position: what a reached position holds depends on that position of both trees only |
| MergeDocument.OriginalRefStands | scripts/openrpc-json-updater/utils/merge.utils.js:347-378 | where the original has a reference object and the document an object, the original's stands |
| MergeDocument.ProcessDocumentFixedPoint | scripts/openrpc-json-updater/operations/merge.js:311-411 | for all documents and originals, a processed document is left as it is by processing it again |
| MergeReconciled.HandleStands | scripts/openrpc-json-updater/utils/merge.utils.js:284-415 | at every position of a tree that no $ref above it settles: the original's object if that has a $ref, else its own $ref, in methods without anything beside it, else a value of the same shape |
| MergeReconciled.MethodReconciled | scripts/openrpc-json-updater/operations/merge.js:386-397 | what stands at each position of a method of the processed document whose name the original document has, by the two documents: the original's object with a $ref, a bare $ref, or the method's value without skipped keys |
| MergeReconciled.MethodUnmatched | scripts/openrpc-json-updater/operations/merge.js:394-397 | a method whose name the original document does not have is the method without its skipped keys |
| MergeReconciled.ComponentsReconciled | scripts/openrpc-json-updater/operations/merge.js:405-411 | what stands at each position of the components: the original's object with a $ref, or the document's value |
| MergeReconciled.OthersStay | scripts/openrpc-json-updater/operations/merge.js:352-376 | with an original nothing but methods and components changes, and the methods become as many as are not of the engine API |
| MergeReconciled.MethodAlone | scripts/openrpc-json-updater/operations/merge.js:311-325 | without an original, a method's objects with a $ref become that $ref alone, and all else stands without skipped keys |
| MergeReconciled.FieldAlone | scripts/openrpc-json-updater/utils/merge.utils.js:71-90 | the same for the rest of such a document, skipped keys included |
| MergeReconciled.ProcessThrowsIff | scripts/openrpc-json-updater/operations/merge.js:311-411 | processing fails exactly if a method has a truthy name that is no text, or if the original has methods and one of the document's is null |
| RefPaths.SplitPathText | scripts/openrpc-json-updater/utils/merge.utils.js:253-255 | a dotted path of plain segments splits into its segments |
| RefPaths.RefPathFinder.FindAll | scripts/openrpc-json-updater/utils/merge.utils.js:150-164 | the finder pushes the paths of the specified list, after those found before |
| RefPaths.RefsExact | scripts/openrpc-json-updater/utils/merge.utils.js:134-256 | for trees with plain, distinct keys the list holds exactly the positions of reference objects, each once, and each path reads back to its position |
| RefPaths.SetAtView | scripts/openrpc-json-updater/utils/merge.utils.js:109-125 | writing at a path changes what is at and below it, and nothing else |
| RefPaths.ReplaceObjectAtPath | scripts/openrpc-json-updater/operations/merge.js:96-155 | the original's object goes over the modified method's exactly where both are objects |
| RefPaths.ProcessRefFields | scripts/openrpc-json-updater/operations/merge.js:81-87 | after the loop, at and below every listed path that held an object the result is the original, and everywhere else it is as it was, for nested references too |
| PathGroups.GroupPaths | scripts/openrpc-json-updater/utils/openrpc.utils.js:37-102 | the counting, ranking and splicing loops compute the specified report |
| PathGroups.CountPrefixes | scripts/openrpc-json-updater/utils/openrpc.utils.js:45-56 | each counter holds the number of occurrences of its prefix |
| PathGroups.RankingExact | scripts/openrpc-json-updater/utils/openrpc.utils.js:58-67 | the ranking lists exactly the prefixes that occur often enough and are not inherited names, once each, by falling count, then by falling depth, then in the order in which names are enumerated |
| PathGroups.GroupingConserves | scripts/openrpc-json-updater/utils/openrpc.utils.js:74-98 | every path, repeats included, is counted in the first group it matches or listed in order; no group is too small; the counts add up to the input |
| PathGroups.HomeExact | scripts/openrpc-json-updater/utils/openrpc.utils.js:78-84 | the group of a path is the first whose prefix it is, or is followed by a dot in it |
| PathGroups.GroupingMaximal | scripts/openrpc-json-updater/utils/openrpc.utils.js:74-98 | for any paths, too few are left below any prefix that is not an inherited name to make a group |
| PathGroups.MaximalIff | scripts/openrpc-json-updater/utils/openrpc.utils.js:45-59 | that holds for all paths exactly if the prefix is not an inherited name and a group takes at least two |
| JsonReading.StringReads | scripts/openrpc-json-updater/utils/file.utils.js:84-86 | a parser reads a printed string literal back, whatever follows it |
| JsonFormatter.WrittenIsRender | scripts/openrpc-json-updater/utils/file.utils.js:119-207 | joining the lines and then rewriting the line ends gives the text that is read from left to right below |
| JsonFormatter.KeyOutcome | scripts/openrpc-json-updater/utils/file.utils.js:184-187 | a parser reads an unescaped key back exactly when it has no control character, quotation mark or backslash |
| JsonFormatter.WrittenParsesBackIff | scripts/openrpc-json-updater/utils/file.utils.js:25-207 | for every value, level and line end, what is written parses back to the value exactly when no key needs escaping and every number is finite |
| JsonFormatter.FormatParsesBackIff | scripts/openrpc-json-updater/utils/file.utils.js:25-196 | the same for the formatter's own output |
| JsonFormatter.OneLineIff | scripts/openrpc-json-updater/utils/file.utils.js:95-187 | an array stays on one line exactly with at most 8 items, each a number, a boolean or a string shorter than 40 code units, and an object exactly when empty |
| JsonStringify.StringifyInjective | packages/relay/src/lib/decorators/cache.decorator.ts:122-125 | compact JSON of finite values determines the value |
| JsonStringify.SameTextIff | packages/relay/src/lib/decorators/cache.decorator.ts:122-125 | any two values have the same compact JSON exactly if they differ in nothing but numbers that are not finite |
| CacheDecoratorModel.Decorated.GenerateCacheKey | packages/relay/src/lib/decorators/cache.decorator.ts:119-133 | the loop joins the name and the segments of all arguments but the request details |
| CacheDecoratorModel.Decorated.ShouldSkipForSingleParams | packages/relay/src/lib/decorators/cache.decorator.ts:43-58 | true exactly when some rule's argument is missing, undefined or a text among its values |
| CacheDecoratorModel.Decorated.ShouldSkipForNamedParams | packages/relay/src/lib/decorators/cache.decorator.ts:80-102 | lets the result be cached exactly when every rule's argument is there and none of its fields has one of the values that count for it, and throws exactly when the first other rule has nothing to look at |
| CacheDecoratorModel.LastFieldCounts | packages/relay/src/lib/decorators/cache.decorator.ts:84-85 | of two entries of a rule for one field the last counts |
| CacheDecoratorModel.StoreIff | packages/relay/src/lib/decorators/cache.decorator.ts:186-190 | when a truthy result is cached, by the arguments and the rules alone |
| CacheDecoratorModel.ThrowsIff | packages/relay/src/lib/decorators/cache.decorator.ts:80-102 | when it makes the call throw, by the arguments and the rules alone |
| CacheDecoratorModel.Decorated.LookUp | packages/relay/src/lib/decorators/cache.decorator.ts:176-183 | the segment after the cache's answer is the step Lookup |
| CacheDecoratorModel.Decorated.FinishMethod | packages/relay/src/lib/decorators/cache.decorator.ts:185-190 | the segment after the method's result is the step Finish |
| CacheDecoratorModel.Decorated.WriteResult | packages/relay/src/lib/decorators/cache.decorator.ts:191-200 | the write and the return after it are the step Write |
| CacheDecoratorModel.SameKeyIff | packages/relay/src/lib/decorators/cache.decorator.ts:119-133 | without underscores, calls share a key exactly when names and segments agree |
| CacheDecoratorModel.FittingCallsSame | packages/relay/src/lib/decorators/cache.decorator.ts:119-133 | typed calls that share a key have the same name, the same arguments up to request details, and the same verdict of the rules |
| CacheDecoratorModel.TransparentIff | packages/relay/src/lib/decorators/cache.decorator.ts:171-202 | for all rules and every set of calls: all answers in all runs of such calls, with every stable result, interleaving and eviction, are what the rules make of the method at that moment, exactly if no call of the set that may be cached shares its key with a different call of the set |
| CacheDecoratorModel.FittingTransparent | packages/relay/src/lib/decorators/cache.decorator.ts:171-202 | so for typed calls without underscores a decorated call returns what the method would return at that moment, exactly unless a truthy result meets a rule about a missing or null argument |
| CacheDecoratorModel.SkippedNeverCachedIff | packages/relay/src/lib/decorators/cache.decorator.ts:186-200 | for every set of calls and any call: no run of the set, whatever the results, has an entry under its key exactly if no call of the set that may be cached has that key |
| CacheDecoratorModel.SkippedNeverCached | packages/relay/src/lib/decorators/cache.decorator.ts:186-190 | so there is never an entry under the key of a typed call the rules keep out, even if results change |
| CacheDecoratorModel.BarredNeverCached | packages/relay/src/lib/decorators/cache.decorator.ts:43-58 | in no run is there an entry under the key of a typed call with a rule whose argument is missing, undefined or one of its values |
| CacheDecoratorModel.NamedNeverCached | packages/relay/src/lib/decorators/cache.decorator.ts:80-102 | nor of one with a field that has one of the values that count for it |
| CacheDecoratorModel.ClearIsWritten | packages/relay/src/lib/decorators/cache.decorator.ts:186-202 | a truthy result that no rule bars is written under the call's key and returned |
| CacheDecoratorModel.FalsyIsReturned | packages/relay/src/lib/decorators/cache.decorator.ts:185-202 | undefined, null, false, zero and the empty text are returned and never written |
| CacheDecoratorModel.BlockTags | packages/relay/src/lib/decorators/cache.decorator.ts:43-58 | a lookup by block with the rule latest or pending: exactly the calls for another text are cached |
| CacheDecoratorModel.SharedKeyMixesUp | packages/relay/src/lib/decorators/cache.decorator.ts:119-133 | of two different calls that share a key, the first of which may be cached, the second is answered with the result of the first, by some method whose results never change |
| CacheDecoratorModel.SharedKeys | packages/relay/src/lib/decorators/cache.decorator.ts:119-133 | an underscore inside an argument, and a text that looks like a number, make different calls share a key |
| CacheDecoratorModel.TextSharesKey | packages/relay/src/lib/decorators/cache.decorator.ts:119-133 | a text shares its key with the number, boolean, null or undefined it looks like |
| Pagination.MirrorNodeClient.GetPaginatedResults | packages/relay/src/lib/clients/mirrorNodeClient.ts:494-526 | the accumulating recursion returns the results of the chain of pages in order, or the error that chain stands for, with one request a page |
| Pagination.MirrorNodeClient.GetContractResultsLogsWithRetry | packages/relay/src/lib/clients/mirrorNodeClient.ts:1015-1089 | the retry loop is the specified sequence of attempts |
| Pagination.AttemptsSound | packages/relay/src/lib/clients/mirrorNodeClient.ts:1015-1089 | logs that are returned are all mature and are those of one whole chain, the last one read |
| Pagination.AttemptsBounded | packages/relay/src/lib/clients/mirrorNodeClient.ts:1015-1089 | at most retries times pages requests are made, whatever the mirror node answers |
| Pagination.LongChainIff | packages/relay/src/lib/clients/mirrorNodeClient.ts:509-525 | reading meets the page limit exactly when that many pages are linked and none fails, even if the last has no further link |
| Pagination.AttemptsDecided | packages/relay/src/lib/clients/mirrorNodeClient.ts:1029-1088 | the outcome of the retries is that of the first attempt that does not read a complete chain with immature logs |
| Pagination.ReturnsLogsIff | packages/relay/src/lib/clients/mirrorNodeClient.ts:1015-1089 | logs are returned exactly if some attempt within the retries reads a chain below the page limit, without failure and with mature logs only, and every earlier one such a chain with immature ones |
| Pagination.LongChainThrows | packages/relay/src/lib/clients/mirrorNodeClient.ts:509-511 | a chain that meets the page limit is an error for every number of retries |
| Pagination.ReturnedComplete | packages/relay/src/lib/clients/mirrorNodeClient.ts:1040-1047 | every log that is returned has a transaction index, a block number and an index, and its block hash is not 0x |
| Pagination.ImmatureIff | packages/relay/src/lib/clients/mirrorNodeClient.ts:1034-1086 | the logs stay immature exactly if every attempt reads a chain below the page limit, without failure, with a log that lacks one of these |
| Pagination.LinkFollowed | packages/relay/src/lib/clients/mirrorNodeClient.ts:519-522 | the next page is read along the link without its first prefix |
| Pagination.LogsInOrder | packages/relay/src/lib/clients/mirrorNodeClient.ts:505-507 | a page adds its logs behind those before it, and nothing without the wanted property |
| FileServiceModel.SdkClient.CreateFile | packages/relay/src/lib/clients/sdkClient.ts:580-655 | which file contents are created and appended, and when the call is limited, fails or finds an empty file |
| FileServiceModel.SdkClient.SubmitEthereumTransaction | packages/relay/src/lib/clients/sdkClient.ts:134-167 | a submitted transaction carries its call data or names a file that decodes to it |
| FileServiceModel.UploadedIff | packages/relay/src/lib/clients/sdkClient.ts:589-640 | the file decodes to the call data exactly unless the call data fits a chunk and its hexadecimal text does not |
| FileServiceModel.EstimateExact | packages/relay/src/utils.ts:70-97 | from one chunk on, the estimate is the sum of the costs chunk by chunk, plus one base fee exactly when the chunk size divides the length |
| FileServiceModel.EstimateConservativeIff | packages/relay/src/utils.ts:70-97 | the estimate covers the cost exactly from one chunk on or from 5137 characters on |
| LogsBloom.BuildLogsBloom | packages/relay/src/logsBloomUtils.ts:15-37 | a bit is set exactly when there are an address and a topic and one of the items maps to it under M3:2048 (section 4.3.1 of the Ethereum Yellow Paper, Berlin version) |
| LogsBloom.BloomExact | packages/relay/src/logsBloomUtils.ts:15-37 | which of the 2048 bits are set, by the first three big-endian pairs of bytes of each hash modulo 2048 |
| LogsBloom.SetBit | packages/relay/src/logsBloomUtils.ts:28-32 | of the 2048 bits exactly the one at the location is added |
| LogsBloom.BloomGrows | packages/relay/src/logsBloomUtils.ts:15-37 | adding topics only adds bits |
| LogsBloom.BloomOfSet | packages/relay/src/logsBloomUtils.ts:15-37 | the order and repetition of topics make no difference to the bytes |
| LogsBloom.ItemsFound | packages/relay/src/logsBloomUtils.ts:15-37 | with a topic there are no false negatives |
| ForwardedHeader.Parse | packages/server/src/server.ts:82-151 | the parser with its scanning loop computes the specified address |
| ForwardedHeader.ForwardedRoundTripIff | packages/relay/src/lib/clients/mirrorNodeClient.ts:332-361 | whatever parameters or hops follow, the server reads back the address written exactly when it is a plausible one and the header is not too long |
| ForwardedHeader.UnquotedRoundTripIff | packages/server/src/server.ts:82-151 | an address without quotes is read, whatever the case of the name and whatever follows, exactly when it is a plausible one and the header is not too long |
| ForwardedHeader.BracketedRoundTripIff | packages/server/src/server.ts:82-151 | the same for one in brackets |
| ForwardedHeader.UnclosedRejected | packages/server/src/server.ts:82-151 | a quote or a bracket that is never closed gives no address |
| ForwardedHeader.ForIndexExact | packages/server/src/server.ts:82-151 | the parameter that is read is the first of its name, in any case |
| ForwardedHeader.TrimExact | packages/server/src/server.ts:82-151 | exactly the white space at both ends of an entry is dropped |
| ForwardedHeader.ForwardedForm | packages/relay/src/lib/clients/mirrorNodeClient.ts:332-361 | an address with a colon is written in brackets, any other without, and both are quoted |
| RevertReason.HexToASCII | packages/relay/src/formatters.ts:30-37 | the loop over pairs computes the specified text |
| RevertReason.ReasonDecodes | packages/relay/src/formatters.ts:53-63 | for every string of 8-bit characters, decoding its Error(string) call data (Solidity Contract ABI Specification, formal specification of the encoding) gives the string, whatever the padding |
| RevertReason.EncodedReads | packages/relay/src/formatters.ts:53-63 | every string of 8-bit characters has such call data and is decoded from it |
| RevertReason.PlainStays | packages/relay/src/formatters.ts:56-57 | a message without 0x stays as it is |
| RevertReason.NoLengthIsEmpty | packages/relay/src/formatters.ts:60-62 | call data without a length is decoded to nothing |

## Left out

* Random identifiers are fresh numbers, hashes of sent data do not collide, and `send` does not throw.
* A tag is an event and the text of its filters; the log filter's validation either admits or rejects a request.
* `getLogs` is a function of a block range whose end is any block produced when it is served; a node that lags behind
  the start of the query answers with nothing. Timer ticks and `blockNumber` may answer any produced block, and
  `getBlockByNumber` for new heads is a query like `getLogs`.
* The expiry of de-duplication entries and of cached results is their loss at any moment.
* The limiter's fields on the socket object are kept by connection number. Inactivity timers, rate limits by method,
  histograms, counters of messages and logging are not modelled; the number of all connections is an input.
* The repositories of spending plans are finite maps with the operations that are called; address case is normalised
  beforehand; amounts spent, histories and expiry are not modelled. An existing plan's tier is not updated, because
  the code does not. Loading the configuration is not modelled, and an empty one is the early return.
* The differences that `deep-diff` reports, and so `processDifferingKeys`, `findMissingKeys` and the report around the
  groups, are not modelled, and neither are `mergeMethods`, which appends missing methods, and `mergeComponents`.
* JSON trees are values: writing in place at a path gives the new tree, and that `Object.assign` shares parts of the
  original with the modified method is not captured. Keys named `__proto__` are excluded.
* Numbers are the texts JavaScript prints for them. Characters are Unicode scalar values, so unpaired surrogates do
  not occur, and the reference parser keeps the members of an object in order without merging repeats.
* The order of prefixes that tie in count and depth follows `Object.keys`; the report is kept as groups and paths
  instead of joined text.
* A rule of the cache decorator names its argument by position; the fields of a text argument or of request details
  are not looked up. Which methods have unchanging results is an assumption of the theorem, and it excludes the
  lookups whose rules do not match a block tag inside an object.
* RevertReason.ReasonDecodes: lengths are unbounded integers where JavaScript uses doubles, which are exact for
  lengths of strings; `parseInt` is modelled without leading whitespace, sign or a second `0x`.
* ForwardedHeader.ForwardedRoundTripIff: `toLowerCase` is modelled on the characters that matter for `for=`.
* FileServiceModel.EstimateExact: the division by the exchange rate and the rounding to tinybars are not modelled.
* The SDK's own splitting of an append into chunks, receipts and queries are inputs.
* `keccak256` is any function with 32 bytes as result, and the bloom filter is bytes before it is printed.
