# Verification of Apache ShenYu

A Dafny 4.11 model of the parts of Apache ShenYu that hold state or algorithms, with proofs about
all their inputs, runs and interleavings. `dafny verify dfyconfig.toml` checks the project.

| file | component |
|---|---|
| `LongPolling.dfy` | the HTTP long-polling protocol: queue, timeouts, direct and batched notification |
| `LongPollingHistory.dfy` | the protocol read from its history: the cause of every answer, of every place in the queue and of every delivery |
| `ConfigCache.dfy` | the md5 cache and the comparison of a client's md5s with it under concurrent updates |
| `LongPollingServer.dfy` | the protocol and the cache together, with the parameters of every request |
| `ConfigMaps.dfy`, `NestedMaps.dfy`, `NestedOrder.dfy`, `ConfigListener.dfy` | the Nacos and Consul listeners |
| `Paths.dfy`, `PathStores.dfy`, `KeyStores.dfy`, `PathListeners.dfy` | the ZooKeeper and Etcd listeners |
| `ExtensionLoader.dfy`, `ExtensionProgress.dfy`, `ExtensionCaching.dfy`, `ExtensionResources.dfy` | the extension loader: threads, that their calls end and succeed, what the caches save, resource files |
| `Snowflake.dfy` | the id generator |
| `IpMatch.dfy` | the wildcard matcher and the host choice |
| `QueryString.dfy`, `QueryDecoding.dfy` | the query-string scanner and printer, and what URL decoding makes of them |
| `PluginChain.dfy`, `PluginExchange.dfy` | the plugin chain, and what it does to the exchange |
| `StableSort.dfy`, `Events.dfy`, `Text.dfy`, `Options.dfy` | shared vocabulary |

Protocols are step functions over a state, with theorems about every run; the mutating code is
given as classes and loops whose contracts tie them to those functions. Exceptions are `None` or a
failure flag. Functions that only compute are specified by the lemmas listed for them.

## Where the code and its intent differ

- The batched notification is meant to reach all drained clients. The views share one list, and the
  first view that runs modifies it under the others, so a data change notifies every queued client if
  and only if it does not drain the queue (`NotifiesAllIff`). The clients it misses wait for their
  timeouts, which `NoClientLost` guarantees.
- A drained client whose timeout fires before its view runs has `sendResponse` called twice
  (`DrainAllowsTwoAnswers`); on the direct path it never is (`AtMostOnce`).
- A data change notifies the clients that are parked in the queue. A client that was compared before
  the change but that the scheduler parks after its task, or that found the queue full, is not
  notified and waits for its timeout (`NotifiedByChange` gives the exact condition).
- The comment on `updateCache` promises an update only when the md5 differs; the code always puts,
  and so does the model.
- Etcd's prefix delete also removes plugins whose names extend the deleted one
  (`PrefixNamesDiverge`; `PrefixDeleteAgrees` gives the exact condition).
- A refresh of selectors or rules with repeated ids stores them repeatedly (`RefreshTidy`,
  `AppendCounts`), and a new selector goes last whatever its order (`SelectorOutOfPlace`;
  `LastInPlace`, `PublishedInPlace` and `RefreshInPlace` give the exact conditions for a sorted list).
- `toGetParam` throws on an empty object, and it decodes where it should encode: its output parses
  back only under the condition of `RoundTrip`, and in general a value comes back decoded twice and a
  name once (`PrintThenParse`).

## Assumptions

- Long polling: the scheduler has one thread, so a task is one step; scheduled views run in any
  order, which covers the real one. An answer is a call of `sendResponse`, whose write errors the
  code swallows. Whether completing a request twice throws is left open (`strict`).
- JSON encoding is faithful except that blank strings are published as null; `body` stands for the string
  fields. Ids, names and paths are not blank and `sort` is not null. Events are serial.
- The comparison throws on invalid parameters only: the database can be read.
- MD5 is any function; for the echo its text is non-empty and has no comma. URL
  decoding is any function; `RoundTrip` and `EncodedRoundTrip` need that it leaves text without `%`
  and `+` alone, and the latter an encoder that decoding undoes and whose output has no separator.
- Etcd deletes, which the client does not await, take effect in issue order.
- Metadata keys of the path stores carry the URL-encoded path, which has no slash.
- Extension constructors do not call back into the loader.
- A plugin calls the chain finitely often per execution, on one thread.

## Model

| member | source | states |
|---|---|---|
| `LongPolling.StepKeeps` | `shenyu-admin/src/main/java/org/apache/shenyu/admin/listener/http/HttpLongPollingDataChangedListener.java:277-387` | every task, including a rejected park, a failing view and a throwing timeout, keeps the books of every client and of every drained list |
| `LongPolling.RunKeeps` | `shenyu-admin/src/main/java/org/apache/shenyu/admin/listener/http/HttpLongPollingDataChangedListener.java:131-387` | the books hold in every state of every run |
| `LongPolling.NoClientLost` | `shenyu-admin/src/main/java/org/apache/shenyu/admin/listener/http/HttpLongPollingDataChangedListener.java:299-386` | on both notification paths, a parked unanswered client lacks a live timeout if and only if its own timeout task threw while comparing; with the comparison in the model it never does, see LongPollingServer |
| `LongPolling.BrokenBy` | `shenyu-admin/src/main/java/org/apache/shenyu/admin/listener/http/HttpLongPollingDataChangedListener.java:363-367` | a client is broken exactly if an earlier timeout task of its own threw |
| `LongPolling.AnsweredClients` | `shenyu-admin/src/main/java/org/apache/shenyu/admin/listener/http/HttpLongPollingDataChangedListener.java:299-386` | on both paths: queued clients are unanswered and have a live timeout, answered ones have none, nobody gets more than two answers |
| `LongPolling.QueueBound` | `shenyu-admin/src/main/java/org/apache/shenyu/admin/listener/http/HttpLongPollingDataChangedListener.java:94` | the queue never exceeds its 1024 places |
| `LongPolling.AtMostOnce` | `shenyu-admin/src/main/java/org/apache/shenyu/admin/listener/http/HttpLongPollingDataChangedListener.java:299-317` | in every run whose data-change tasks find at most notifyBatchSize clients, every client is answered at most once |
| `LongPolling.DirectRunsDrainNothing` | `shenyu-admin/src/main/java/org/apache/shenyu/admin/listener/http/HttpLongPollingDataChangedListener.java:299-308` | such runs never drain the queue and never schedule a view |
| `LongPolling.DrainAllowsTwoAnswers` | `shenyu-admin/src/main/java/org/apache/shenyu/admin/listener/http/HttpLongPollingDataChangedListener.java:300-304` | the bound is needed: from every reachable state in which a data change drains the queue, three enabled tasks answer the front client twice |
| `LongPolling.NotifiesAllIff` | `shenyu-admin/src/main/java/org/apache/shenyu/admin/listener/http/HttpLongPollingDataChangedListener.java:299-317` | a data change notifies every queued client, at once or at any later time through the list it drained, if and only if it finds at most notifyBatchSize of them; a batch size of zero or less included |
| `LongPolling.DrainMissesSomebody` | `shenyu-admin/src/main/java/org/apache/shenyu/admin/listener/http/HttpLongPollingDataChangedListener.java:300-317` | a data change that drains the queue leaves some queued client without its notification for ever |
| `LongPolling.ReachedWereQueued` | `shenyu-admin/src/main/java/org/apache/shenyu/admin/listener/http/HttpLongPollingDataChangedListener.java:300-317` | only clients that were in the queue when it was drained are ever answered through the drained list |
| `LongPolling.OneViewPerDrainedList` | `shenyu-admin/src/main/java/org/apache/shenyu/admin/listener/http/HttpLongPollingDataChangedListener.java:303-317` | however many views a drained list was split into, all clients ever answered through it fit in one batch |
| `LongPolling.LiveTimeoutAnswers` | `shenyu-admin/src/main/java/org/apache/shenyu/admin/listener/http/HttpLongPollingDataChangedListener.java:363-386` | a live timeout can fire in any reachable state, and then the client has exactly one answer, no timeout and no place in the queue |
| `LongPolling.DirectEffect` | `shenyu-admin/src/main/java/org/apache/shenyu/admin/listener/http/HttpLongPollingDataChangedListener.java:310-317` | a direct notification answers exactly the queued clients, once each, cancels exactly their timeouts and empties the queue |
| `LongPolling.DirectStep` | `shenyu-admin/src/main/java/org/apache/shenyu/admin/listener/http/HttpLongPollingDataChangedListener.java:379-386` | one answer of the direct path goes to an unanswered client and keeps the books of every client |
| `LongPolling.WaitsStep` | `shenyu-admin/src/main/java/org/apache/shenyu/admin/listener/http/HttpLongPollingDataChangedListener.java:131-147` | clients start to wait at an unchanged request only, and no step forgets one |
| `LongPolling.PartitionBag` | `shenyu-admin/src/main/java/org/apache/shenyu/admin/listener/http/HttpLongPollingDataChangedListener.java:303` | the views hold every drained client exactly as often as the queue did, at most notifyBatchSize each |
| `LongPolling.ViewAccount` | `shenyu-admin/src/main/java/org/apache/shenyu/admin/listener/http/HttpLongPollingDataChangedListener.java:310-317` | running a view keeps the books of every client wherever it fails |
| `LongPolling.ViewFrame` | `shenyu-admin/src/main/java/org/apache/shenyu/admin/listener/http/HttpLongPollingDataChangedListener.java:310-317` | a view takes back no answer, serves at most its own members and changes no other list |
| `LongPollingHistory.ViewEffect` | `shenyu-admin/src/main/java/org/apache/shenyu/admin/listener/http/HttpLongPollingDataChangedListener.java:310-317` | a view answers exactly the members it gets to before a completion throws, once each, cancels exactly their timeouts and records them under its list; nothing else changes |
| `LongPollingHistory.ViewAnswersAll` | `shenyu-admin/src/main/java/org/apache/shenyu/admin/listener/http/HttpLongPollingDataChangedListener.java:310-317` | a view whose completions do not throw answers all its members |
| `LongPollingHistory.StepAnswers` | `shenyu-admin/src/main/java/org/apache/shenyu/admin/listener/http/HttpLongPollingDataChangedListener.java:131-386` | a task adds one answer to exactly the clients it is a cause for: its own changed request, a direct notification of a queued client, a view that gets to it, its own timeout |
| `LongPollingHistory.AnswersCounted` | `shenyu-admin/src/main/java/org/apache/shenyu/admin/listener/http/HttpLongPollingDataChangedListener.java:131-386` | in every run a client has been answered exactly as often as tasks before were a cause for it |
| `LongPollingHistory.ParkedBy` | `shenyu-admin/src/main/java/org/apache/shenyu/admin/listener/http/HttpLongPollingDataChangedListener.java:361-372` | a client is parked exactly if its run() was executed |
| `LongPollingHistory.QueuedIff` | `shenyu-admin/src/main/java/org/apache/shenyu/admin/listener/http/HttpLongPollingDataChangedListener.java:299-372` | in every run a client is in the queue exactly if it found room when it was parked and neither a data change nor its own timeout has run since |
| `LongPollingHistory.NotifiedByChange` | `shenyu-admin/src/main/java/org/apache/shenyu/admin/listener/http/HttpLongPollingDataChangedListener.java:299-317` | a data change that fits the batch size answers exactly the clients parked with room before it and not taken out since; one still waiting to be parked is not answered |
| `LongPollingHistory.QueueIsFifo` | `shenyu-admin/src/main/java/org/apache/shenyu/admin/listener/http/HttpLongPollingDataChangedListener.java:361-372` | in every state the queued clients stand in the order in which they were parked |
| `LongPollingHistory.RequestSettles` | `shenyu-admin/src/main/java/org/apache/shenyu/admin/listener/http/HttpLongPollingDataChangedListener.java:136-140` | a changed request leaves its client with one answer and not waiting |
| `LongPollingHistory.SettledStep` | `shenyu-admin/src/main/java/org/apache/shenyu/admin/listener/http/HttpLongPollingDataChangedListener.java:131-386` | no later task answers such a client again |
| `LongPollingHistory.PartitionJoins` | `shenyu-admin/src/main/java/org/apache/shenyu/admin/listener/http/HttpLongPollingDataChangedListener.java:303` | the views are consecutive pieces of the drained list, all full except perhaps the last |
| `LongPollingHistory.DrainSchedules` | `shenyu-admin/src/main/java/org/apache/shenyu/admin/listener/http/HttpLongPollingDataChangedListener.java:300-304` | a data change that drains answers nobody and puts the whole queue, in order, into views of one new list |
| `LongPollingHistory.OnlyFirstViewDelivers` | `shenyu-admin/src/main/java/org/apache/shenyu/admin/listener/http/HttpLongPollingDataChangedListener.java:303-317` | in every run the clients ever answered through a drained list are exactly those that the first of its views to run got to |
| `LongPolling.Listener.constructor` | `shenyu-admin/src/main/java/org/apache/shenyu/admin/listener/http/HttpLongPollingDataChangedListener.java:93-98` | a new listener is the empty server |
| `LongPolling.Listener.RunClient` | `shenyu-admin/src/main/java/org/apache/shenyu/admin/listener/http/HttpLongPollingDataChangedListener.java:361-372` | keeps the books of every client; the client gets a live timeout in any case and a place in the queue if and only if there is one |
| `LongPolling.Listener.DoRunQueue` | `shenyu-admin/src/main/java/org/apache/shenyu/admin/listener/http/HttpLongPollingDataChangedListener.java:310-317` | the loop over the queue itself performs the direct notification |
| `LongPolling.Listener.DoRunView` | `shenyu-admin/src/main/java/org/apache/shenyu/admin/listener/http/HttpLongPollingDataChangedListener.java:310-317` | the loop over a view performs the view notification |
| `LongPolling.Listener.ScheduleViews` | `shenyu-admin/src/main/java/org/apache/shenyu/admin/listener/http/HttpLongPollingDataChangedListener.java:303-304` | schedules one task per consecutive view |
| `LongPolling.Listener.RunDataChange` | `shenyu-admin/src/main/java/org/apache/shenyu/admin/listener/http/HttpLongPollingDataChangedListener.java:299-308` | performs the data-change step of the protocol, whole new state |
| `LongPolling.Listener.RunScheduledView` | `shenyu-admin/src/main/java/org/apache/shenyu/admin/listener/http/HttpLongPollingDataChangedListener.java:304-317` | performs the view step of the protocol, whole new state |
| `LongPollingServer.StepKeeps` | `shenyu-admin/src/main/java/org/apache/shenyu/admin/listener/http/HttpLongPollingDataChangedListener.java:131-386` | every task, with the comparison it makes, keeps the protocol, the cache and the parameters of every waiting client |
| `LongPollingServer.RunKeeps` | `shenyu-admin/src/main/java/org/apache/shenyu/admin/listener/http/HttpLongPollingDataChangedListener.java:131-386` | so in every state of every run |
| `LongPollingServer.WaitingParamsParse` | `shenyu-admin/src/main/java/org/apache/shenyu/admin/listener/http/HttpLongPollingDataChangedListener.java:174-191` | in every reachable state the parameters of every submitted or parked client parse, so its timeout never throws on them |
| `LongPollingServer.NoClientLost` | `shenyu-admin/src/main/java/org/apache/shenyu/admin/listener/http/HttpLongPollingDataChangedListener.java:299-386` | in every run, with no condition on it, a parked client is answered or has a live timeout, and no client is broken |
| `LongPollingServer.TimeoutAnswers` | `shenyu-admin/src/main/java/org/apache/shenyu/admin/listener/http/HttpLongPollingDataChangedListener.java:363-386` | a timeout that fires leaves its client answered exactly once, whatever the comparison says |
| `LongPollingServer.ArriveEffect` | `shenyu-admin/src/main/java/org/apache/shenyu/admin/listener/http/HttpLongPollingDataChangedListener.java:131-147` | what a request leaves behind on each of its three outcomes |
| `LongPollingServer.KeepsParams` | `shenyu-admin/src/main/java/org/apache/shenyu/admin/listener/http/HttpLongPollingDataChangedListener.java:363-366` | the parameters of an accepted request are kept over every run and are the ones its timeout compares |
| `LongPollingServer.ChangedIsAnsweredOnce` | `shenyu-admin/src/main/java/org/apache/shenyu/admin/listener/http/HttpLongPollingDataChangedListener.java:136-140` | a request with a changed group is answered at once, and in every later state has exactly one answer and does not wait |
| `LongPollingServer.OutdatedIsReported` | `shenyu-admin/src/main/java/org/apache/shenyu/admin/listener/http/HttpLongPollingDataChangedListener.java:174-191` | a group whose reported md5 the cache does not hold at any moment of the comparison is reported |
| `LongPollingServer.OutdatedIsAnswered` | `shenyu-admin/src/main/java/org/apache/shenyu/admin/listener/http/HttpLongPollingDataChangedListener.java:131-147` | a valid request with an outdated group is answered at once and never again |
| `LongPollingServer.EchoIsSubmitted` | `shenyu-admin/src/main/java/org/apache/shenyu/admin/listener/http/HttpLongPollingDataChangedListener.java:131-147` | a request that reports what was fetched for every group, with no update in between, gets the empty list and is handed to the scheduler |
| `LongPollingServer.EchoIsParked` | `shenyu-admin/src/main/java/org/apache/shenyu/admin/listener/http/HttpLongPollingDataChangedListener.java:131-147` | from then on its client can be parked, or is parked and is answered or has a live timeout |
| `LongPollingServer.RunProjects` | `shenyu-admin/src/main/java/org/apache/shenyu/admin/listener/http/HttpLongPollingDataChangedListener.java:131-386` | every run of the server is a run of the protocol in which no timeout throws, so all theorems about the protocol hold of it |
| `LongPollingServer.Admin.constructor` | `shenyu-admin/src/main/java/org/apache/shenyu/admin/listener/http/HttpLongPollingDataChangedListener.java:93-98` | an initialised cache and an empty protocol |
| `LongPollingServer.Admin.Fetch` | `shenyu-sync-data-center/shenyu-sync-data-http/src/main/java/org/apache/shenyu/sync/data/http/HttpSyncDataService.java:173-181` | what a client reports for a group is the md5 and time of the entry it fetched |
| `LongPollingServer.Admin.Compare` | `shenyu-admin/src/main/java/org/apache/shenyu/admin/listener/http/HttpLongPollingDataChangedListener.java:174-191` | the comparison gives what the steps of the server assume of it |
| `LongPollingServer.Admin.DoLongPolling` | `shenyu-admin/src/main/java/org/apache/shenyu/admin/listener/http/HttpLongPollingDataChangedListener.java:131-147` | one step of the server: throws exactly on invalid parameters and then leaves the protocol alone; a changed client gets its one answer at once and does not wait; an unchanged one is handed to the scheduler, as a quiet echo is |
| `LongPollingServer.Admin.OnChanged` | `shenyu-admin/src/main/java/org/apache/shenyu/admin/listener/AbstractDataChangedListener.java:121-200` | a change that is not empty is an update of the server that replaces one group, and asks for a data-change task |
| `LongPollingServer.Admin.RunTimeout` | `shenyu-admin/src/main/java/org/apache/shenyu/admin/listener/http/HttpLongPollingDataChangedListener.java:363-367` | one step of the server; it never throws and leaves its client with exactly one answer |
| `ConfigCache.EchoParses` | `shenyu-admin/src/main/java/org/apache/shenyu/admin/listener/http/HttpLongPollingDataChangedListener.java:178-183` | an md5 and a time joined by a comma are read back as that md5 and time |
| `ConfigCache.ParamIs` | `shenyu-admin/src/main/java/org/apache/shenyu/admin/listener/http/HttpLongPollingDataChangedListener.java:178-181` | a parameter is accepted exactly if it is two non-empty tokens separated by commas, with any commas around them |
| `ConfigCache.TwoTokensParse` | `shenyu-admin/src/main/java/org/apache/shenyu/admin/listener/http/HttpLongPollingDataChangedListener.java:178-183` | and then the first token is the md5 and the second the time |
| `ConfigCache.ShowReads` | `shenyu-admin/src/main/java/org/apache/shenyu/admin/listener/http/HttpLongPollingDataChangedListener.java:183` | a printed 64-bit time reads back as itself |
| `ConfigCache.ReportParses` | `shenyu-admin/src/main/java/org/apache/shenyu/admin/listener/http/HttpLongPollingDataChangedListener.java:178-183` | what a client reports of an entry reads back as its md5 and time |
| `ConfigCache.Listener.constructor` | `shenyu-admin/src/main/java/org/apache/shenyu/admin/listener/AbstractDataChangedListener.java:211-219` | after initialisation the cache has all five groups, each filed under itself with the digest of its JSON |
| `ConfigCache.Listener.UpdateCache` | `shenyu-admin/src/main/java/org/apache/shenyu/admin/listener/AbstractDataChangedListener.java:229-234` | a put replaces one group by a new entry with the digest of its JSON and keeps the cache complete |
| `ConfigCache.Listener.OnChanged` | `shenyu-admin/src/main/java/org/apache/shenyu/admin/listener/AbstractDataChangedListener.java:121-200` | an empty change is ignored; any other updates its group and asks for a notification |
| `ConfigCache.Listener.FetchConfig` | `shenyu-admin/src/main/java/org/apache/shenyu/admin/listener/AbstractDataChangedListener.java:93-119` | returns md5, time and decoded data of the entry that the cache holds, the md5 being the digest of the JSON the data is decoded from |
| `ConfigCache.Listener.RefreshLocalCache` | `shenyu-admin/src/main/java/org/apache/shenyu/admin/listener/http/HttpLongPollingDataChangedListener.java:116-122` | the cache held each group as the database had it, with its load time, whatever other threads wrote between the five loads; without them it holds all five at the end |
| `ConfigCache.Listener.CheckCacheDelayAndUpdate` | `shenyu-admin/src/main/java/org/apache/shenyu/admin/listener/http/HttpLongPollingDataChangedListener.java:200-238` | the verdict agrees with an md5 the cache held for the group since the entry was read, on all branches, with other threads and a refresh in between; equal md5s never report, a stale client or a missed lock always does |
| `ConfigCache.Listener.CheckLocked` | `shenyu-admin/src/main/java/org/apache/shenyu/admin/listener/http/HttpLongPollingDataChangedListener.java:221-235` | under the lock the verdict is exact for what the cache holds at the end; without other writers an unreplaced entry is reloaded from the database first, a replaced one is not |
| `ConfigCache.Listener.CompareGroup` | `shenyu-admin/src/main/java/org/apache/shenyu/admin/listener/http/HttpLongPollingDataChangedListener.java:178-188` | rejects exactly the parameters that are not two tokens; otherwise gives a justified verdict. Without other writers it reloads exactly if the client differs, claims to be newer and the lock is got, and the verdict is exact for what the cache then holds |
| `ConfigCache.Listener.CompareChangedGroup` | `shenyu-admin/src/main/java/org/apache/shenyu/admin/listener/http/HttpLongPollingDataChangedListener.java:174-191` | throws exactly on an invalid parameter; reports or omits each group only on the word of an md5 that the cache held for it during the call, each group once and in order; without other writers and reloads it reports exactly the groups that differ |
| `ConfigCache.Listener.CompareHeld` | `shenyu-admin/src/main/java/org/apache/shenyu/admin/listener/http/HttpLongPollingDataChangedListener.java:184-188` | a client that makes the cache reload is judged by the reloaded entry, any other by the entry held, and then the cache is not touched |
| `ConfigCache.JustifiedLonger` | `shenyu-admin/src/main/java/org/apache/shenyu/admin/listener/http/HttpLongPollingDataChangedListener.java:174-238` | a justified verdict stays justified over any longer span of cache contents |
| `ConfigCache.QuietVerdict` | `shenyu-admin/src/main/java/org/apache/shenyu/admin/listener/http/HttpLongPollingDataChangedListener.java:174-191` | if the md5 of a group does not change during the call, the verdict is exact |
| `ConfigMaps.EncodeIdempotent` | `shenyu-common/src/main/java/org/apache/shenyu/common/utils/GsonUtils.java:380-400` | publishing what was read back changes nothing more |
| `ConfigMaps.EncodeFacts` | `shenyu-common/src/main/java/org/apache/shenyu/common/utils/GsonUtils.java:380-400` | publishing keeps every entry under its key with its identity and order, and every field that is not blank; only blank fields become null |
| `Text.BlankFacts` | `shenyu-common/src/main/java/org/apache/shenyu/common/utils/GsonUtils.java:384` | text is blank if and only if all its parts are; the empty text is, text with a visible ASCII character is not |
| `ConfigMaps.MirrorIsRemote` | `shenyu-admin/src/main/java/org/apache/shenyu/admin/listener/nacos/NacosDataChangedListener.java:249-301` | overwriting and removing unpublished keys makes any local map equal to the published one |
| `ConfigMaps.ClusterPublishes` | `shenyu-admin/src/main/java/org/apache/shenyu/admin/listener/nacos/NacosDataChangedListener.java:71-301` | for any nodes, stale maps and assignment of events to nodes, the published map is a fold of the events alone |
| `ConfigMaps.NodesDoNotMatter` | `shenyu-admin/src/main/java/org/apache/shenyu/admin/listener/nacos/NacosDataChangedListener.java:71-301` | a cluster publishes what one single node publishes for the same events |
| `ConfigMaps.KeyedEvent` | `shenyu-admin/src/main/java/org/apache/shenyu/admin/listener/nacos/NacosDataChangedListener.java:71-116` | for each key, the last item that names it decides; unnamed keys are kept unless the event replaces all |
| `ConfigMaps.KeyedRun` | `shenyu-admin/src/main/java/org/apache/shenyu/admin/listener/nacos/NacosDataChangedListener.java:71-116` | after any run of events the published entry of a key is decided by the last event with a say in it, by its last item for the key |
| `ConfigMaps.KeyedUndecided` | `shenyu-admin/src/main/java/org/apache/shenyu/admin/listener/nacos/NacosDataChangedListener.java:71-116` | events without a say in a key leave it as it was |
| `ConfigMaps.PutMetaMoves` | `shenyu-admin/src/main/java/org/apache/shenyu/admin/listener/nacos/NacosDataChangedListener.java:179-187` | filing a record leaves it as the only entry of its id and touches no other id off its path |
| `ConfigMaps.RefreshOnePerId` | `shenyu-admin/src/main/java/org/apache/shenyu/admin/listener/nacos/NacosDataChangedListener.java:169-177` | a replace-all keeps ids unique if and only if the surviving items of its batch have distinct ids |
| `ConfigMaps.ApplyMetaKeeps` | `shenyu-admin/src/main/java/org/apache/shenyu/admin/listener/nacos/NacosDataChangedListener.java:162-191` | every event keeps metadata filed by its own path with one entry per id; MetaEvent says which entries |
| `ConfigMaps.MetaEvent` | `shenyu-admin/src/main/java/org/apache/shenyu/admin/listener/nacos/NacosDataChangedListener.java:162-191` | for each path: a delete removes exactly the named paths; a replace-all leaves the last item of each path; a create or update leaves the last item of a path unless a later item carries its id, and keeps every other entry unless an item carries its id |
| `ConfigMaps.PutMetasAt` | `shenyu-admin/src/main/java/org/apache/shenyu/admin/listener/nacos/NacosDataChangedListener.java:179-187` | the last item of a batch for a path stands there exactly if no later item carries its id |
| `ConfigMaps.PutMetasElsewhere` | `shenyu-admin/src/main/java/org/apache/shenyu/admin/listener/nacos/NacosDataChangedListener.java:179-187` | a path that no item names keeps its entry exactly if no item carries its id |
| `ConfigMaps.MetaRunFiled` | `shenyu-admin/src/main/java/org/apache/shenyu/admin/listener/nacos/NacosDataChangedListener.java:162-191` | metadata stays filed by its own path over every run, with no condition on the batches, so MetaEvent applies to each event |
| `ConfigMaps.MetaRunKeeps` | `shenyu-admin/src/main/java/org/apache/shenyu/admin/listener/nacos/NacosDataChangedListener.java:162-191` | so does every run of events |
| `ConfigMaps.RemoveAllShrinks` | `shenyu-admin/src/main/java/org/apache/shenyu/admin/listener/nacos/NacosDataChangedListener.java:166-168` | a delete removes exactly the named keys |
| `NestedMaps.OneRepresents` | `shenyu-admin/src/main/java/org/apache/shenyu/admin/listener/consul/ConsulDataChangedListener.java:120-162` | one item acts on the list of its parent as a put or a remove acts on the plain map |
| `NestedMaps.RunRepresents` | `shenyu-admin/src/main/java/org/apache/shenyu/admin/listener/consul/ConsulDataChangedListener.java:120-238` | after any events the published lists are the plain fold of put, remove and replace-all over (parent, id) |
| `NestedMaps.EventRepresents` | `shenyu-admin/src/main/java/org/apache/shenyu/admin/listener/consul/ConsulDataChangedListener.java:120-162` | one event, published and read back, is the same event on the plain map |
| `NestedMaps.KindsAgree` | `shenyu-admin/src/main/java/org/apache/shenyu/admin/listener/consul/ConsulDataChangedListener.java:120-238` | a selector store and a rule store fed the same events hold the same children |
| `NestedMaps.RefreshTidy` | `shenyu-admin/src/main/java/org/apache/shenyu/admin/listener/consul/ConsulDataChangedListener.java:135-147` | a replace-all stores each id once if and only if its batch addresses no child twice |
| `NestedMaps.AppendCounts` | `shenyu-admin/src/main/java/org/apache/shenyu/admin/listener/consul/ConsulDataChangedListener.java:135-147` | a replace-all stores an id exactly as often as its batch has it |
| `NestedMaps.OneMembers` | `shenyu-admin/src/main/java/org/apache/shenyu/admin/listener/nacos/NacosDataChangedListener.java:121-158` | the members of a list after one item |
| `NestedMaps.OneCounts` | `shenyu-admin/src/main/java/org/apache/shenyu/admin/listener/nacos/NacosDataChangedListener.java:121-158` | how often each id occurs in a list after one item |
| `NestedMaps.RunInOrder` | `shenyu-admin/src/main/java/org/apache/shenyu/admin/listener/nacos/NacosDataChangedListener.java:118-236` | in every reachable store each list is sorted except possibly for its last element |
| `NestedMaps.TouchedRulesSorted` | `shenyu-admin/src/main/java/org/apache/shenyu/admin/listener/nacos/NacosDataChangedListener.java:193-236` | a rule list touched by a create, update or delete is published fully sorted, whatever it was before |
| `NestedMaps.LastInPlace` | `shenyu-admin/src/main/java/org/apache/shenyu/admin/listener/nacos/NacosDataChangedListener.java:133-158` | a list that an item is appended to is sorted if and only if nothing that stays in it has a higher order |
| `NestedMaps.SelectorOutOfPlace` | `shenyu-admin/src/main/java/org/apache/shenyu/admin/listener/nacos/NacosDataChangedListener.java:147-156` | a selector put below any other child goes last and leaves the list unsorted |
| `NestedMaps.FoldMembers` | `shenyu-admin/src/main/java/org/apache/shenyu/admin/listener/nacos/NacosDataChangedListener.java:133-158` | a batch leaves under a parent the old children it does not address and its own items that no later item replaces |
| `NestedMaps.PublishedInPlace` | `shenyu-admin/src/main/java/org/apache/shenyu/admin/listener/nacos/NacosDataChangedListener.java:118-160` | a list that an event appends to is published sorted if and only if the last item for its parent is of highest order among those |
| `NestedMaps.RefreshInPlace` | `shenyu-admin/src/main/java/org/apache/shenyu/admin/listener/nacos/NacosDataChangedListener.java:208-220` | after a replace-all: if and only if no item for that parent is of higher order than the last one |
| `NestedMaps.OneListInOrder` | `shenyu-admin/src/main/java/org/apache/shenyu/admin/listener/nacos/NacosDataChangedListener.java:121-158` | any item leaves the list sorted up to its last element, whatever it was before |
| `NestedOrder.FoldStable` | `shenyu-admin/src/main/java/org/apache/shenyu/admin/listener/nacos/NacosDataChangedListener.java:118-236` | after any batch the children of equal order stand as the plain edits (remove the id, append the item) leave them |
| `NestedOrder.OneListStable` | `shenyu-admin/src/main/java/org/apache/shenyu/admin/listener/nacos/NacosDataChangedListener.java:121-158` | one item keeps the order of equal children and goes behind its equals |
| `NestedOrder.SortedListIs` | `shenyu-admin/src/main/java/org/apache/shenyu/admin/listener/nacos/NacosDataChangedListener.java:193-236` | a list touched by deletions or by puts of rules is the stable sort of the plain edits |
| `NestedOrder.AppendedListIs` | `shenyu-admin/src/main/java/org/apache/shenyu/admin/listener/nacos/NacosDataChangedListener.java:133-158` | a list that was appended to is that sort except that the last item stays last |
| `NestedOrder.FoldNames` | `shenyu-admin/src/main/java/org/apache/shenyu/admin/listener/nacos/NacosDataChangedListener.java:121-158` | lists that no item names are left alone, and a named list exists afterwards, be it empty |
| `NestedOrder.PublishedList` | `shenyu-admin/src/main/java/org/apache/shenyu/admin/listener/nacos/NacosDataChangedListener.java:118-236` | the exact published list of every parent that an event names, for both kinds and all events |
| `ConfigListener.UpdateMap` | `shenyu-admin/src/main/java/org/apache/shenyu/admin/listener/nacos/NacosDataChangedListener.java:249-301` | the loop of every update method yields exactly the published map |
| `ConfigListener.UpdateKeyed` | `shenyu-admin/src/main/java/org/apache/shenyu/admin/listener/nacos/NacosDataChangedListener.java:75-91` | the three loops of the switch compute the event on the map |
| `ConfigListener.RemoveById` | `shenyu-admin/src/main/java/org/apache/shenyu/admin/listener/nacos/NacosDataChangedListener.java:180-184` | removes every entry of an id by the path it carries |
| `ConfigListener.UpdateMeta` | `shenyu-admin/src/main/java/org/apache/shenyu/admin/listener/nacos/NacosDataChangedListener.java:165-189` | the three loops of the metadata switch compute the event, which MetaEvent specifies path by path |
| `ConfigListener.UpdateList` | `shenyu-admin/src/main/java/org/apache/shenyu/admin/listener/nacos/NacosDataChangedListener.java:121-158` | an item leaves exactly the other children, and itself unless it is deleted, in order up to the last element |
| `ConfigListener.UpdateItems` | `shenyu-admin/src/main/java/org/apache/shenyu/admin/listener/nacos/NacosDataChangedListener.java:121-158` | the loop over the batch folds the items into the lists |
| `ConfigListener.UpdateNested` | `shenyu-admin/src/main/java/org/apache/shenyu/admin/listener/nacos/NacosDataChangedListener.java:193-236` | replace-all starts from an empty map, everything else from the mirrored one |
| `ConfigListener.Listener.OnAppAuthChanged` | `shenyu-admin/src/main/java/org/apache/shenyu/admin/listener/nacos/NacosDataChangedListener.java:71-93` | the new published and local maps depend on the published map and the event only |
| `ConfigListener.Listener.OnPluginChanged` | `shenyu-admin/src/main/java/org/apache/shenyu/admin/listener/nacos/NacosDataChangedListener.java:95-116` | likewise for plugins |
| `ConfigListener.Listener.OnMetaDataChanged` | `shenyu-admin/src/main/java/org/apache/shenyu/admin/listener/nacos/NacosDataChangedListener.java:162-191` | likewise for metadata: the published map becomes what MetaEvent says of the published map and the event |
| `ConfigListener.Listener.OnSelectorChanged` | `shenyu-admin/src/main/java/org/apache/shenyu/admin/listener/nacos/NacosDataChangedListener.java:118-160` | likewise for selectors |
| `ConfigListener.Listener.OnRuleChanged` | `shenyu-admin/src/main/java/org/apache/shenyu/admin/listener/nacos/NacosDataChangedListener.java:193-236` | likewise for rules |
| `StableSort.SortFacts` | `shenyu-admin/src/main/java/org/apache/shenyu/admin/listener/nacos/NacosDataChangedListener.java:128` | the sort yields a sorted permutation |
| `StableSort.SortIsStable` | `shenyu-admin/src/main/java/org/apache/shenyu/admin/listener/nacos/NacosDataChangedListener.java:128` | elements of equal key keep their order |
| `StableSort.SortIsTheStableSort` | `shenyu-admin/src/main/java/org/apache/shenyu/admin/listener/nacos/NacosDataChangedListener.java:128` | order and stability determine the result, so it is what any stable sort returns |
| `ExtensionLoader.StepKeeps` | `shenyu-spi/src/main/java/org/apache/shenyu/spi/ExtensionLoader.java:111-170` | every atomic step of every thread keeps the invariant and only grows the tables; that calls end and succeed is the subject of ExtensionProgress |
| `ExtensionLoader.RunKeeps` | `shenyu-spi/src/main/java/org/apache/shenyu/spi/ExtensionLoader.java:111-170` | the invariant holds in every state of every interleaving |
| `ExtensionLoader.RunGrows` | `shenyu-spi/src/main/java/org/apache/shenyu/spi/ExtensionLoader.java:111-170` | class table, instances and returned objects are never replaced |
| `ExtensionLoader.SameNameSameObject` | `shenyu-spi/src/main/java/org/apache/shenyu/spi/ExtensionLoader.java:111-131` | any two successful calls with one name return the same object |
| `ExtensionLoader.SameClassSameObject` | `shenyu-spi/src/main/java/org/apache/shenyu/spi/ExtensionLoader.java:134-151` | two names return one object if and only if they are bound to one class |
| `ExtensionLoader.OneInstancePerClass` | `shenyu-spi/src/main/java/org/apache/shenyu/spi/ExtensionLoader.java:139-150` | each class is instantiated at most once, and is filed whenever the lock is free |
| `ExtensionLoader.DoneIsBound` | `shenyu-spi/src/main/java/org/apache/shenyu/spi/ExtensionLoader.java:111-131` | a returned call holds the object its name stands for in every later state |
| `ExtensionLoader.LookupStepKeeps` | `shenyu-spi/src/main/java/org/apache/shenyu/spi/ExtensionLoader.java:74-90` | every step of a lookup keeps the registry and never replaces a loader |
| `ExtensionLoader.OneLoaderPerInterface` | `shenyu-spi/src/main/java/org/apache/shenyu/spi/ExtensionLoader.java:74-90` | all callers for one interface get one loader and none returns without one |
| `ExtensionProgress.RunLocks` | `shenyu-spi/src/main/java/org/apache/shenyu/spi/ExtensionLoader.java:111-170` | in every state of every interleaving a lock is held exactly by the thread inside its block |
| `ExtensionProgress.RestingHoldsNothing` | `shenyu-spi/src/main/java/org/apache/shenyu/spi/ExtensionLoader.java:111-170` | a call that has ended, by success or failure, holds no lock |
| `ExtensionProgress.NoDeadlock` | `shenyu-spi/src/main/java/org/apache/shenyu/spi/ExtensionLoader.java:122-168` | as long as some call is not over some thread can take a step: the one it waits for, through at most two locks |
| `ExtensionProgress.CallAdvances` | `shenyu-spi/src/main/java/org/apache/shenyu/spi/ExtensionLoader.java:111-170` | each step of a call brings it nearer its end and no other thread sets it back |
| `ExtensionProgress.CallEnds` | `shenyu-spi/src/main/java/org/apache/shenyu/spi/ExtensionLoader.java:111-170` | in every interleaving a call takes at most sixteen steps of its own |
| `ExtensionProgress.FailsIff` | `shenyu-spi/src/main/java/org/apache/shenyu/spi/ExtensionLoader.java:111-170` | a call fails exactly on a blank name, a failing load, a name that is not bound or a throwing constructor |
| `ExtensionProgress.JoinSucceeds` | `shenyu-spi/src/main/java/org/apache/shenyu/spi/ExtensionLoader.java:111-170` | from every reachable state in which no other thread holds a lock, a call for a bound name, wherever it stands, runs alone to the object of its name within sixteen steps and leaves both locks free |
| `ExtensionProgress.SoloSucceeds` | `shenyu-spi/src/main/java/org/apache/shenyu/spi/ExtensionLoader.java:111-170` | the same from any state of the invariant, within the steps its position has left |
| `ExtensionProgress.CallStarts` | `shenyu-spi/src/main/java/org/apache/shenyu/spi/ExtensionLoader.java:111-115` | a call for a name that is not blank starts such a run |
| `ExtensionProgress.FirstJoin` | `shenyu-spi/src/main/java/org/apache/shenyu/spi/ExtensionLoader.java:111-151` | the first call of a new loader loads the table and creates exactly one object, of the class of its name |
| `ExtensionProgress.LookupAdvances` | `shenyu-spi/src/main/java/org/apache/shenyu/spi/ExtensionLoader.java:84-90` | in every interleaving a lookup gets nearer its end with each step and ends with the filed loader of its own interface |
| `ExtensionProgress.LookupFailsIff` | `shenyu-spi/src/main/java/org/apache/shenyu/spi/ExtensionLoader.java:75-90` | a lookup fails exactly if it names no extension point or the constructor throws |
| `ExtensionCaching.RunCaches` | `shenyu-spi/src/main/java/org/apache/shenyu/spi/ExtensionLoader.java:115-131` | in every interleaving a thread that creates an instance finds its holder empty, so no holder is filled twice, and every object ever returned can be read from its holder |
| `ExtensionCaching.StaysCached` | `shenyu-spi/src/main/java/org/apache/shenyu/spi/ExtensionLoader.java:115-131` | a cached instance stays cached, unchanged |
| `ExtensionCaching.CachedTakesNoLock` | `shenyu-spi/src/main/java/org/apache/shenyu/spi/ExtensionLoader.java:120-122` | once an instance is cached only threads that already wait for the lock on its behalf ever take it |
| `ExtensionCaching.LoadedTakesNoLock` | `shenyu-spi/src/main/java/org/apache/shenyu/spi/ExtensionLoader.java:159-161` | once the class table is loaded only threads that already wait for its lock ever take it |
| `ExtensionCaching.CachedCall` | `shenyu-spi/src/main/java/org/apache/shenyu/spi/ExtensionLoader.java:111-131` | a call for a cached name returns the cached object in two steps, whoever holds the locks, and changes no table |
| `ExtensionCaching.ClassesSucceed` | `shenyu-spi/src/main/java/org/apache/shenyu/spi/ExtensionLoader.java:158-170` | a call of getExtensionClasses with a working load ends within four steps with the table loaded, or as it was, and the lock free |
| `ExtensionCaching.ClassesStart` | `shenyu-spi/src/main/java/org/apache/shenyu/spi/ExtensionLoader.java:158-160` | a call starts such a run |
| `ExtensionCaching.FiledLookup` | `shenyu-spi/src/main/java/org/apache/shenyu/spi/ExtensionLoader.java:84-87` | a lookup of a filed interface returns its loader at once and constructs nothing |
| `ExtensionResources.LoadCorrect` | `shenyu-spi/src/main/java/org/apache/shenyu/spi/ExtensionLoader.java:188-241` | loading succeeds if and only if every entry resolves and no name has two classes, and then yields the table the entries spell out |
| `ExtensionResources.FilesCorrect` | `shenyu-spi/src/main/java/org/apache/shenyu/spi/ExtensionLoader.java:188-241` | in terms of the files: loading succeeds if and only if every file can be read, every path resolves and no name is given two classes, lines with a blank side aside; then each name has the class that some line gives it |
| `ExtensionResources.OrderDoesNotMatter` | `shenyu-spi/src/main/java/org/apache/shenyu/spi/ExtensionLoader.java:188-241` | two resource lists with the same entries both fail or give the same table |
| `ExtensionResources.TableUnique` | `shenyu-spi/src/main/java/org/apache/shenyu/spi/ExtensionLoader.java:225-241` | the entries determine the table |
| `ExtensionResources.LoadDirectory` | `shenyu-spi/src/main/java/org/apache/shenyu/spi/ExtensionLoader.java:188-203` | succeeds exactly on consistent entries, with the table they spell out; an absent or failing listing leaves an empty table |
| `ExtensionResources.LoadResources` | `shenyu-spi/src/main/java/org/apache/shenyu/spi/ExtensionLoader.java:205-223` | the loop over one resource continues the table it was given |
| `Paths.FamiliesDisjoint` | `shenyu-common/src/main/java/org/apache/shenyu/common/constant/DefaultPathConstants.java:35-136` | no auth, metadata, plugin, selector or rule path ever equals one of another family |
| `Paths.PathsInjective` | `shenyu-common/src/main/java/org/apache/shenyu/common/constant/DefaultPathConstants.java:62-136` | distinct keys have distinct paths when plugin names have no slash and selector ids no hyphen |
| `Paths.PathsCollide` | `shenyu-common/src/main/java/org/apache/shenyu/common/constant/DefaultPathConstants.java:112-136` | without those conditions paths do collide |
| `PathStores.PrefixDeleteAgrees` | `shenyu-admin/src/main/java/org/apache/shenyu/admin/listener/etcd/EtcdClient.java:86-91` | on any tree, prefix delete equals recursive delete if and only if no stored key runs past the path without a separator |
| `PathStores.OwnRecords` | `shenyu-admin/src/main/java/org/apache/shenyu/admin/listener/etcd/EtcdDataDataChangedListener.java:61-126` | exactly the records of a plugin start with its root path |
| `PathStores.StartsWithRoot` | `shenyu-admin/src/main/java/org/apache/shenyu/admin/listener/etcd/EtcdDataDataChangedListener.java:61-126` | a record that starts with the root path lies at it or under it |
| `PathStores.NoKeyUnder` | `shenyu-admin/src/main/java/org/apache/shenyu/admin/listener/zookeeper/ZookeeperDataChangedListener.java:142-146` | records are leaves, so a plain delete never meets a node with children |
| `PathStores.OpAgrees` | `shenyu-admin/src/main/java/org/apache/shenyu/admin/listener/zookeeper/ZookeeperDataChangedListener.java:131-152` | every operation keeps the tree and the flat store equal on data-carrying keys and never throws |
| `PathStores.OpsAgree` | `shenyu-admin/src/main/java/org/apache/shenyu/admin/listener/zookeeper/ZookeeperDataChangedListener.java:131-152` | from any tree of valid records, so does every sequence of operations |
| `PathStores.ChangeAgrees` | `shenyu-admin/src/main/java/org/apache/shenyu/admin/listener/zookeeper/ZookeeperDataChangedListener.java:46-129` | and every event |
| `PathStores.CreateFacts` | `shenyu-admin/src/main/java/org/apache/shenyu/admin/listener/zookeeper/ZookeeperDataChangedListener.java:136-140` | creating a node keeps the tree closed under ancestors and adds no data |
| `PathStores.EnsureFacts` | `shenyu-admin/src/main/java/org/apache/shenyu/admin/listener/zookeeper/ZookeeperDataChangedListener.java:136-140` | asking for a parent node leaves it there with all its ancestors and adds no data |
| `PathStores.WriteAgrees` | `shenyu-admin/src/main/java/org/apache/shenyu/admin/listener/zookeeper/ZookeeperDataChangedListener.java:131-134` | writing a record changes exactly that record |
| `PathStores.RemoveAgrees` | `shenyu-admin/src/main/java/org/apache/shenyu/admin/listener/zookeeper/ZookeeperDataChangedListener.java:142-146` | deleting a record removes exactly that record and does not throw |
| `PathStores.RemoveAllAgrees` | `shenyu-admin/src/main/java/org/apache/shenyu/admin/listener/zookeeper/ZookeeperDataChangedListener.java:148-152` | deleting a plugin recursively removes exactly what the prefix delete removes |
| `PathStores.StoresAgree` | `shenyu-admin/src/main/java/org/apache/shenyu/admin/listener/etcd/EtcdDataDataChangedListener.java:47-130` | after every event sequence the ZooKeeper tree and the Etcd store hold the same data |
| `PathStores.PrefixNamesDiverge` | `shenyu-admin/src/main/java/org/apache/shenyu/admin/listener/etcd/EtcdDataDataChangedListener.java:62-73` | when one plugin name extends another the two stores do differ |
| `KeyStores.RunHolds` | `shenyu-admin/src/main/java/org/apache/shenyu/admin/listener/zookeeper/ZookeeperDataChangedListener.java:46-152` | after every event sequence both stores hold exactly the records of a plain map from keys to JSON |
| `KeyStores.WriteHolds` | `shenyu-admin/src/main/java/org/apache/shenyu/admin/listener/etcd/EtcdClient.java:69-72` | a put stores exactly one record of the plain map |
| `KeyStores.RemoveHolds` | `shenyu-admin/src/main/java/org/apache/shenyu/admin/listener/etcd/EtcdClient.java:78-80` | a delete removes exactly one record of the plain map |
| `KeyStores.ClearHolds` | `shenyu-admin/src/main/java/org/apache/shenyu/admin/listener/etcd/EtcdClient.java:86-91` | a prefix delete removes exactly the records of one plugin in one family |
| `KeyStores.ItemHolds` | `shenyu-admin/src/main/java/org/apache/shenyu/admin/listener/etcd/EtcdDataDataChangedListener.java:47-130` | one item acts on the store as on the plain map |
| `KeyStores.ChangeHolds` | `shenyu-admin/src/main/java/org/apache/shenyu/admin/listener/etcd/EtcdDataDataChangedListener.java:79-126` | one event acts on the store as on the plain map |
| `KeyStores.ChangeAt` | `shenyu-admin/src/main/java/org/apache/shenyu/admin/listener/zookeeper/ZookeeperDataChangedListener.java:46-152` | what one event does to one record: a delete removes those it names and all that a deleted plugin owns, any other event writes its last item for the key, a refresh empties the plugin and family of its first item; all else is left alone |
| `KeyStores.RunAt` | `shenyu-admin/src/main/java/org/apache/shenyu/admin/listener/zookeeper/ZookeeperDataChangedListener.java:46-152` | after any events the last one with a say in a key decides, by its last item for it |
| `KeyStores.StoredRun` | `shenyu-admin/src/main/java/org/apache/shenyu/admin/listener/etcd/EtcdDataDataChangedListener.java:47-130` | both stores in terms of the events alone: the path of a key holds the JSON of the last item of the last event with a say in it, or nothing |
| `KeyStores.RefreshReplacesPlugin` | `shenyu-admin/src/main/java/org/apache/shenyu/admin/listener/zookeeper/ZookeeperDataChangedListener.java:93-129` | a refresh of one plugin leaves exactly its items under it and everything else unchanged |
| `KeyStores.EmptyRefreshIsIgnored` | `shenyu-admin/src/main/java/org/apache/shenyu/admin/listener/zookeeper/ZookeeperDataChangedListener.java:95-98` | an empty refresh changes nothing |
| `PathListeners.EtcdListener.OnItem` | `shenyu-admin/src/main/java/org/apache/shenyu/admin/listener/etcd/EtcdDataDataChangedListener.java:62-76` | one item issues its operations |
| `PathListeners.EtcdListener.OnItems` | `shenyu-admin/src/main/java/org/apache/shenyu/admin/listener/etcd/EtcdDataDataChangedListener.java:85-93` | the loop issues the operations of every item |
| `PathListeners.EtcdListener.OnChanged` | `shenyu-admin/src/main/java/org/apache/shenyu/admin/listener/etcd/EtcdDataDataChangedListener.java:47-130` | a store that holds exactly some records holds exactly what the event makes of them |
| `PathListeners.ZkListener.DeletePlugin` | `shenyu-admin/src/main/java/org/apache/shenyu/admin/listener/zookeeper/ZookeeperDataChangedListener.java:81-85` | deletes a plugin with its selectors and rules |
| `PathListeners.ZkListener.OnItem` | `shenyu-admin/src/main/java/org/apache/shenyu/admin/listener/zookeeper/ZookeeperDataChangedListener.java:99-109` | one item issues its operations or fails |
| `PathListeners.ZkListener.OnItems` | `shenyu-admin/src/main/java/org/apache/shenyu/admin/listener/zookeeper/ZookeeperDataChangedListener.java:99-109` | the loop stops at the first failure |
| `PathListeners.ZkListener.OnChanged` | `shenyu-admin/src/main/java/org/apache/shenyu/admin/listener/zookeeper/ZookeeperDataChangedListener.java:46-129` | on a tree of valid records the handler never throws, keeps the tree valid, does to the data what the Etcd handler does, and leaves exactly what the event makes of the records |
| `Snowflake.OrDisjoint` | `shenyu-common/src/main/java/org/apache/shenyu/common/utils/UUIDUtils.java:100-102` | bitwise or of a multiple of a power of two and a smaller number is their sum |
| `Snowflake.AndMask` | `shenyu-common/src/main/java/org/apache/shenyu/common/utils/UUIDUtils.java:90` | bitwise and with a mask of ones is the remainder |
| `Snowflake.PackIsSum` | `shenyu-common/src/main/java/org/apache/shenyu/common/utils/UUIDUtils.java:100-102` | within range the packed 64-bit id is the plain sum of its shifted fields |
| `Snowflake.PackDecodes` | `shenyu-common/src/main/java/org/apache/shenyu/common/utils/UUIDUtils.java:100-102` | timestamp, datacenter, worker and sequence can be read back from the id |
| `Snowflake.NextIdFacts` | `shenyu-common/src/main/java/org/apache/shenyu/common/utils/UUIDUtils.java:84-103` | a backward clock rejects the call and changes nothing, and only that does; an issued id exceeds everything issued before |
| `Snowflake.DrawExact` | `shenyu-common/src/main/java/org/apache/shenyu/common/utils/UUIDUtils.java:84-98` | timestamp and sequence in every case of the clock: a later millisecond starts at 0, the same one counts up, after 4095 the call takes the first later reading |
| `Snowflake.ForwardClock` | `shenyu-common/src/main/java/org/apache/shenyu/common/utils/UUIDUtils.java:84-103` | a clock that moves on yields one id per call, made of its reading and sequence 0 |
| `Snowflake.SameMillisecond` | `shenyu-common/src/main/java/org/apache/shenyu/common/utils/UUIDUtils.java:89-103` | calls within one millisecond yield consecutive ids |
| `Snowflake.IdsIncrease` | `shenyu-common/src/main/java/org/apache/shenyu/common/utils/UUIDUtils.java:84-111` | over any clock readings, backward jumps included, issued ids strictly increase |
| `Snowflake.GeneratorsDisjoint` | `shenyu-common/src/main/java/org/apache/shenyu/common/utils/UUIDUtils.java:84-103` | generators that differ in datacenter or worker never issue the same id |
| `Snowflake.MadeGeneratorsOk` | `shenyu-common/src/main/java/org/apache/shenyu/common/utils/UUIDUtils.java:63-73` | the constructor accepts exactly ids in range |
| `Snowflake.FirstId` | `shenyu-common/src/main/java/org/apache/shenyu/common/utils/UUIDUtils.java:63-103` | the first id of a new generator is made of its reading, its own datacenter and worker, and sequence 0 |
| `Snowflake.NewWorker` | `shenyu-common/src/main/java/org/apache/shenyu/common/utils/UUIDUtils.java:55-73` | a worker exists exactly for ids in range and starts at sequence 48 and timestamp -1 |
| `Snowflake.IdWorker.TilNextMillis` | `shenyu-common/src/main/java/org/apache/shenyu/common/utils/UUIDUtils.java:105-111` | stops at the first reading after the last timestamp |
| `Snowflake.IdWorker.Draw` | `shenyu-common/src/main/java/org/apache/shenyu/common/utils/UUIDUtils.java:84-98` | chooses timestamp and sequence on all branches |
| `Snowflake.IdWorker.Next` | `shenyu-common/src/main/java/org/apache/shenyu/common/utils/UUIDUtils.java:84-103` | performs one step of the generator, whole new state |
| `IpMatch.MatchesSplit` | `shenyu-common/src/main/java/org/apache/shenyu/common/utils/IpUtils.java:116-138` | matching splits at any point of the pattern |
| `IpMatch.CellStar` | `shenyu-common/src/main/java/org/apache/shenyu/common/utils/IpUtils.java:130-131` | the table recurrence for a star holds of the matching relation |
| `IpMatch.CellChar` | `shenyu-common/src/main/java/org/apache/shenyu/common/utils/IpUtils.java:132-134` | the table recurrence for any other character holds of the matching relation |
| `IpMatch.Match` | `shenyu-common/src/main/java/org/apache/shenyu/common/utils/IpUtils.java:116-138` | the table decides the matching relation for all strings |
| `IpMatch.FillFirstRow` | `shenyu-common/src/main/java/org/apache/shenyu/common/utils/IpUtils.java:120-127` | the first row is right although it stops at the first non-star |
| `IpMatch.FillRow` | `shenyu-common/src/main/java/org/apache/shenyu/common/utils/IpUtils.java:128-136` | each row is right if the rows before it are |
| `IpMatch.MatchesLiteralStar` | `shenyu-common/src/main/java/org/apache/shenyu/common/utils/IpUtils.java:58-60` | a literal with a star appended matches exactly the strings that start with it |
| `IpMatch.CompleteIsLiteral` | `shenyu-common/src/main/java/org/apache/shenyu/common/utils/IpUtils.java:102-107` | a complete address contains no wildcard |
| `IpMatch.OctetIs` | `shenyu-common/src/main/java/org/apache/shenyu/common/utils/IpUtils.java:33` | the octets are the numbers up to 255 in one to three digits |
| `IpMatch.CompleteIs` | `shenyu-common/src/main/java/org/apache/shenyu/common/utils/IpUtils.java:33` | the complete addresses are exactly four octets joined by dots |
| `IpMatch.ScanInterface` | `shenyu-common/src/main/java/org/apache/shenyu/common/utils/IpUtils.java:64-80` | the inner loop keeps the first eligible and the last matching address, early exit included |
| `IpMatch.GetHost` | `shenyu-common/src/main/java/org/apache/shenyu/common/utils/IpUtils.java:53-94` | chooses the host by those two, the local host, or the loopback address on failure |
| `IpMatch.FirstHostAt` | `shenyu-common/src/main/java/org/apache/shenyu/common/utils/IpUtils.java:69-71` | the fallback is the first eligible address |
| `IpMatch.LastHostAt` | `shenyu-common/src/main/java/org/apache/shenyu/common/utils/IpUtils.java:76-78` | the match is the last eligible address that starts with the filter |
| `IpMatch.NoLastHost` | `shenyu-common/src/main/java/org/apache/shenyu/common/utils/IpUtils.java:76-78` | there is no match exactly if no eligible address starts with the filter |
| `IpMatch.PartialFilter` | `shenyu-common/src/main/java/org/apache/shenyu/common/utils/IpUtils.java:53-94` | a partial filter without wildcards picks the last eligible address with that prefix, else the first eligible one, else the local host |
| `IpMatch.CompleteFilter` | `shenyu-common/src/main/java/org/apache/shenyu/common/utils/IpUtils.java:53-94` | a complete filter picks itself if it is an eligible address |
| `IpMatch.AnyFilter` | `shenyu-common/src/main/java/org/apache/shenyu/common/utils/IpUtils.java:53-94` | any filter, wildcards included, picks the last eligible address that its pattern matches, else the first eligible one, else the local host |
| `IpMatch.NoFilter` | `shenyu-common/src/main/java/org/apache/shenyu/common/utils/IpUtils.java:42-94` | without a filter the first eligible address is picked, else the local host |
| `IpMatch.HostIsReal` | `shenyu-common/src/main/java/org/apache/shenyu/common/utils/IpUtils.java:64-94` | whatever the filter, if an interface has an address with a dot that is no loopback, such an address is chosen |
| `QueryString.InitQueryParams` | `shenyu-common/src/main/java/org/apache/shenyu/common/utils/HttpParamConverter.java:66-79` | the loop over the matches ends on every input and computes the scan, which ScanCollects specifies for every text and decoder |
| `QueryString.ScanIsPerSegment` | `shenyu-common/src/main/java/org/apache/shenyu/common/utils/HttpParamConverter.java:36` | the regular-expression scan is the reading of one parameter per &-separated segment, for every string |
| `QueryString.ScanSegment` | `shenyu-common/src/main/java/org/apache/shenyu/common/utils/HttpParamConverter.java:36` | a segment followed by & or by the end is handled exactly as that segment |
| `QueryString.ScanGood` | `shenyu-common/src/main/java/org/apache/shenyu/common/utils/HttpParamConverter.java:66-79` | on plain text the scan never fails and returns only non-empty names without & and = and values without & |
| `QueryDecoding.ScanPair` | `shenyu-common/src/main/java/org/apache/shenyu/common/utils/HttpParamConverter.java:66-79` | a pair k=v is scanned to the decoded name and the decoded value, and fails if either cannot be decoded |
| `QueryDecoding.ScanBare` | `shenyu-common/src/main/java/org/apache/shenyu/common/utils/HttpParamConverter.java:71-75` | a name without = is scanned to its decoded name and no value |
| `QueryDecoding.ScanCollects` | `shenyu-common/src/main/java/org/apache/shenyu/common/utils/HttpParamConverter.java:66-79` | for every text and decoder: the scan fails exactly if some name or value cannot be decoded, and otherwise gives each decoded name once, in order of first occurrence, with the decoded value of its last |
| `QueryDecoding.EncodedRoundTrip` | `shenyu-common/src/main/java/org/apache/shenyu/common/utils/HttpParamConverter.java:66-79` | scanning the encoded pairs of any map with distinct non-empty names gives that map, whatever characters it contains |
| `QueryString.ToGetParam` | `shenyu-common/src/main/java/org/apache/shenyu/common/utils/GsonUtils.java:156-175` | the loop and the cut at the last & print the fields joined by &, null as the empty string, nothing for blank text, and fail on malformed text, an empty object or an undecodable value |
| `QueryString.CutIsJoined` | `shenyu-common/src/main/java/org/apache/shenyu/common/utils/GsonUtils.java:172-173` | the cut removes exactly the trailing & |
| `QueryDecoding.PrintOne` | `shenyu-common/src/main/java/org/apache/shenyu/common/utils/GsonUtils.java:156-175` | one field prints as its name and its decoded value, null as the empty string |
| `QueryDecoding.JoinedConcat` | `shenyu-common/src/main/java/org/apache/shenyu/common/utils/GsonUtils.java:162-173` | fields are printed one after another, joined by & |
| `QueryDecoding.PrintFailsIff` | `shenyu-common/src/main/java/org/apache/shenyu/common/utils/GsonUtils.java:156-175` | printing an object fails exactly if it is empty or a value cannot be decoded |
| `QueryDecoding.PrintThenParse` | `shenyu-common/src/main/java/org/apache/shenyu/common/utils/GsonUtils.java:156-175` | on any decodable fields, parsing what was printed collects the names decoded once and the values decoded twice |
| `QueryString.RoundTrip` | `shenyu-common/src/main/java/org/apache/shenyu/common/utils/GsonUtils.java:156-175` | on plain text with distinct names, parsing the printed string gives the same map in the same order if and only if it is non-empty, its names are non-empty and free of & and =, and its values free of & |
| `PluginChain.ExecInTurn` | `shenyu-web/src/main/java/org/apache/shenyu/web/handler/ShenyuWebHandler.java:79-114` | however often plugins call the chain and whatever they answer, plugins are taken one by one in list order, each run or skipped by its own answer |
| `PluginChain.ExecutedOnce` | `shenyu-web/src/main/java/org/apache/shenyu/web/handler/ShenyuWebHandler.java:79-114` | the executed indices strictly increase, and a plugin below the final index fails to run exactly if it asked to be skipped |
| `PluginChain.ExecutedInOrder` | `shenyu-web/src/main/java/org/apache/shenyu/web/configuration/ShenyuConfiguration.java:69-75` | the orders of the executed plugins do not decrease |
| `PluginChain.StopsOnlyAtPlugin` | `shenyu-web/src/main/java/org/apache/shenyu/web/handler/ShenyuWebHandler.java:101-113` | a chain that does not reach its end stopped at a plugin that ran and did not call it |
| `PluginChain.AllVisited` | `shenyu-web/src/main/java/org/apache/shenyu/web/handler/ShenyuWebHandler.java:101-113` | if every plugin that runs calls the chain, every plugin is visited |
| `PluginChain.Exec` | `shenyu-web/src/main/java/org/apache/shenyu/web/handler/ShenyuWebHandler.java:101-113` | every call on an unfinished chain takes at least one plugin, and the index never passes the end |
| `PluginExchange.FirstSees` | `shenyu-web/src/main/java/org/apache/shenyu/web/handler/ShenyuWebHandler.java:101-110` | a call of the chain first offers the exchange it was called with |
| `PluginExchange.CallOffers` | `shenyu-web/src/main/java/org/apache/shenyu/web/handler/ShenyuWebHandler.java:101-110` | a running plugin that calls on offers the chain exactly the exchange it chose |
| `PluginExchange.ExecPasses` | `shenyu-web/src/main/java/org/apache/shenyu/web/handler/ShenyuWebHandler.java:106-108` | in every execution a skipped plugin passes on the exchange it was offered, unchanged |
| `PluginExchange.ExecSuffix` | `shenyu-web/src/main/java/org/apache/shenyu/web/handler/ShenyuWebHandler.java:101-113` | what a chain does depends on its remaining plugins only |
| `PluginExchange.ExecRemove` | `shenyu-web/src/main/java/org/apache/shenyu/web/handler/ShenyuWebHandler.java:101-113` | taking a plugin that does not run out of the list changes neither the exchange nor the runs |
| `PluginExchange.OnlyRunsMatter` | `shenyu-web/src/main/java/org/apache/shenyu/web/handler/ShenyuWebHandler.java:79-114` | a request does to the exchange what a chain of just the plugins that run does |
| `PluginExchange.ExecNests` | `shenyu-web/src/main/java/org/apache/shenyu/web/handler/ShenyuWebHandler.java:101-113` | plugins that call on at most once act as nested functions: each works on the exchange that the rest of the list returns |
| `PluginExchange.ExecTicks` | `shenyu-web/src/main/java/org/apache/shenyu/web/handler/ShenyuWebHandler.java:101-113` | a machine that keeps the index, the exchange and a stack of running plugins computes the chain semantics |
| `PluginExchange.RequestRuns` | `shenyu-web/src/main/java/org/apache/shenyu/web/handler/ShenyuWebHandler.java:70-114` | started on a request the machine halts with an empty stack and the outcome of the chain |
| `PluginExchange.ConfiguredFacts` | `shenyu-web/src/main/java/org/apache/shenyu/web/configuration/ShenyuConfiguration.java:69-75` | configuration keeps every plugin, orders them, and keeps the order of those with equal order |
| `PluginChain.Chain.constructor` | `shenyu-web/src/main/java/org/apache/shenyu/web/handler/ShenyuWebHandler.java:90-92` | a new chain starts at index 0 |
| `PluginChain.Chain.Execute` | `shenyu-web/src/main/java/org/apache/shenyu/web/handler/ShenyuWebHandler.java:101-113` | one call leaves the index, exchange and visits of the chain semantics, which ExecPasses, ExecRemove and ExecTicks pin down |
| `PluginChain.Chain.RunPlugin` | `shenyu-web/src/main/java/org/apache/shenyu/web/handler/ShenyuWebHandler.java:109` | a plugin body calling the chain any number of times does so too |
| `PluginChain.HandleRequest` | `shenyu-web/src/main/java/org/apache/shenyu/web/handler/ShenyuWebHandler.java:70-77` | a request gets a new chain over the sorted plugins, and comes back unchanged if they all skip it |

## Left out

- Servlet, websocket, ZooKeeper, Etcd, Nacos and Consul clients, beyond the store each presents.
- ZooKeeper's own rules for valid paths, and the content of error messages and logs.
- The content of an answer (which groups it names) in the long-polling protocol; it is the subject of the cache model.
- ConfigCache.Listener.CompareGroup: a time is read as ASCII digits; Java also reads other Unicode digits.
- ConfigCache.Listener.OnChanged: one handler stands for the five, which differ in their group only.
- PathListeners.EtcdListener.OnChanged: one loop stands for the five handlers, which differ in the path of an item and in what precedes the loop; likewise `PathListeners.ZkListener.OnChanged`.
- PathListeners.ZkListener.DeletePlugin: deletions of the three subtrees are atomic one by one; a failure of the server midway is not modelled.
- ExtensionLoader.StepKeeps: the loading of `ExtensionFactory` inside a loader's constructor, and the default extension name, are not modelled; garbage collection and the Java memory model beyond volatile and lock semantics neither.
- Snowflake.IdsIncrease: assumes that the epoch offset of every reading fits 41 bits, as the format does; a run may end inside the spin loop (`Waiting`).
- QueryString.RoundTrip: covers text without `%` and `+`, the text that URL decoding leaves alone; `PrintThenParse` says what any other text parses to.
- ExtensionProgress.JoinSucceeds: the thread runs alone; under contention `NoDeadlock` and `CallEnds` hold, but fairness of the scheduler is not modelled.
- ConfigCache.Listener.CheckLocked: which thread wins the lock, and how other threads' loads interleave with a reload beyond puts between its five loads, are inputs.
- QueryString.ToGetParam: the JSON grammar is not modelled; a text is blank, malformed, or an object with string or null fields.
- PluginChain.Chain.Execute: subscriptions that run concurrently on one chain, and plugins that fail, are not modelled.
- Lock wait times and real time: only the outcomes (locked, not locked, interrupted) are kept.
- The choice of the client's address, Spring wiring, controllers, mappers, the disruptor wrappers, `HttpServiceDiscovery`, and the remaining utilities, which would add only easy members.
