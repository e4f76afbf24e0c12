# DynamoDB stream subscriber: shard discovery and polling

This project models the state machine at the heart of `DynamodDBSubscriber`
(`index.js`), a client that follows a DynamoDB table's change stream and
re-emits every record it reads as a `record` event.

The subscriber object is the class `Subscriber.DynamoDBSubscriber`. Its fields
are the object's own:

- the stream ARN;
- the stream client;
- the shard list, which is absent once `_process` has deleted it;
- the event log of `record` and `error` events;
- a count of `job.done` calls;
- the scheduled job.

Its methods follow the source's loops:

- `GetOpenShards` is `_getOpenShards`, the do-while over `describeStream`
  pages. `AttachIterators` is its `async.map` of LATEST `getShardIterator`
  requests.
- `ReadShards`, `ReadShard` and `EmitRecords` are the `async.each` of
  `getRecords` requests.
- `Process` is `_process`, including the rediscovery that deletes the list
  and runs the cycle again.
- `Start` and `Stop` are start-up and cancellation.

Each method is proved equal to a function over values:

- `Discovery.Discover` for the walk over pages;
- `PollCycle.ReadAll` for one pass of reads;
- `PollCycle.Cycle` for a whole `_process` run;
- `Subscriber.ResolveArn` for the ARN fallbacks of `start`.

Lemmas in `DiscoveryFacts` and `PollFacts` relate those functions to
independent reference definitions. These definitions are `Walk` (the pages a
complete walk reads), `OpenAcross` (the open shards of those pages),
`WithIterators`, `WalkCalls`, `ReplyAt`, `RecordCalls` and `Flatten`. The
lemmas prove what the subscriber promises: which shards discovery returns,
how it paginates, when it fails or never ends, what a poll cycle emits and
requests, and when it calls `job.done`.

The service is a `StreamService.StreamClient` value. For each kind of request
it holds the replies that successive requests receive, and it logs every
request made. A request made once its kind's replies are used up is never
answered, like a callback that never fires. Discovery then ends `Stalled` and
a cycle ends `Waiting`, in both cases without `job.done`.

The model follows `index.js` as written, including four behaviours a reader
might not expect:

- Discovery does not fail on a `describeStream` error. The error is only
  logged and the callback is never called (`DescribeErrorIsSilent`).
- Rediscovery inside `_process` is not a single bounded retry. It repeats as
  long as discovery returns a stale list (`EmptyDiscoveryNeverCompletes`). The
  recursion is bounded here only by the finite number of scripted
  `describeStream` replies, which is its `decreases` measure.
- A cycle does not call `job.done` on every outcome. It does not call it when
  a request goes unanswered or discovery stalls. A cycle that starts after a
  failed rediscovery has no list and throws (`FailedRediscoveryThenThrows`).
- Start-up does not fail when neither fallback yields an ARN. An empty
  `listStreams` answer leaves the ARN unset, and discovery runs with it.

## Model

| member | source | states |
|---|---|---|
| Subscriber.New | index.js:11-16 | Construction fails with "arn or table are required" exactly when neither `arn` nor `table` is truthy; otherwise a fresh object holds the parameters, no shard list, no events, no `done`, no job |
| Subscriber.DynamoDBSubscriber.constructor | index.js:11-37 | Fields are set from the parameters; the interval is the one `IntervalOf` gives |
| Subscriber.IntervalOf | index.js:23-29 | A numeric interval is kept unchanged, a string goes through `ms`, anything else is 10000 ms |
| Subscriber.ResolveArn | index.js:141-169 | A truthy ARN skips both lookups; otherwise a truthy `LatestStreamArn` from an answered `describeTable` is the result; otherwise a `listStreams` error is the start-up error "Cannot retrieve the stream arn of <table>: <message>" (and only then is there an error); otherwise the first listed stream's ARN is taken, and an empty list leaves the ARN as it was |
| Subscriber.DescribeTableErrorIgnored | index.js:146-149 | A `describeTable` error resolves exactly as an answer without a stream |
| Subscriber.DynamoDBSubscriber.AttachIterators | index.js:59-77 | The loop of LATEST `getShardIterator` requests over one page's open shards leaves the client and gives the outcome that `AttachFrom` defines |
| Subscriber.DynamoDBSubscriber.GetOpenShards | index.js:39-88 | The do-while over `describeStream` pages leaves the client and gives the outcome that `Discover` defines, so every `DiscoveryFacts` lemma holds of it |
| Subscriber.DynamoDBSubscriber.EmitRecords | index.js:105-110 | One `record` event per record of the batch, in order, each with its decoded key, appended to the log |
| Subscriber.DynamoDBSubscriber.ReadShard | index.js:94-113 | One `getRecords` request with the shard's iterator; an answer emits its records and gives the shard its `NextShardIterator`; an error or no answer leaves the shard as it was |
| Subscriber.DynamoDBSubscriber.ReadShards | index.js:93-114 | The `async.each` of reads leaves the shard list, event log and client that `ReadAll` defines, and reports its first error and whether a read went unanswered |
| Subscriber.DynamoDBSubscriber.Process | index.js:90-136 | A `_process` run leaves the shard list, event log, `done` count and client, and ends, exactly as `Cycle` defines, including the rediscovery recursion |
| Subscriber.DynamoDBSubscriber.Start | index.js:138-193 | The ARN is resolved as `ResolveArn` says; a resolution error is emitted and nothing else changes; otherwise discovery runs; found shards become the list and the job is scheduled at the interval; a discovery error is emitted with no job; a stalled discovery changes nothing else |
| Subscriber.DynamoDBSubscriber.Stop | index.js:195-197 | Cancels the job; before a successful start there is no job and `stop` throws |
| Discovery.OpenShards | index.js:55-56 | A listed shard is kept exactly when it has no `EndingSequenceNumber`; no more shards come out than went in |
| Discovery.AttachFrom | index.js:59-77 | The iterator requests of one page consume no page and no `getRecords` reply |
| Discovery.DiscoverFrom | index.js:42-87 | The walk consumes no `getRecords` reply, and a successful walk consumes at least one page |
| DiscoveryFacts.AttachFromFound | index.js:62-76 | A page's iterators are all attached exactly when the next replies are all answers without error; each open shard then carries the iterator of its own reply, in order |
| DiscoveryFacts.AttachFromClient | index.js:62-66 | A successful page makes one LATEST `getShardIterator` request per open shard, in order, and uses up that many replies |
| DiscoveryFacts.AttachFromFailed | index.js:66-74 | A failed page fails with the first error among its iterator replies |
| DiscoveryFacts.AttachFromFailsOnError | index.js:66-74 | Conversely, when the reply for one of the page's remaining shards is an error and every reply before it is an answer, the page fails with exactly that error |
| DiscoveryFacts.DiscoverFromShards | index.js:42-87 | A successful walk read a complete run of pages; every iterator reply it used is an answer; its shards are the open shards of those pages, in page order, with their iterators |
| DiscoveryFacts.DiscoverFromPages | index.js:45-52 | A successful walk uses up exactly the pages up to the first one without `LastEvaluatedShardId` |
| DiscoveryFacts.DiscoverFromIterators | index.js:59-75 | A successful walk uses up exactly one iterator reply per open shard |
| DiscoveryFacts.DiscoverFromCalls | index.js:44-80 | A successful walk makes the requests `WalkCalls` lists: per page, one `describeStream`, then its iterator requests |
| DiscoveryFacts.DiscoverFromComplete | index.js:42-87 | A complete run of pages whose open shards all get an iterator answer is enough for success |
| DiscoveryFacts.DiscoverFromFailed | index.js:73-84 | A failed walk fails with the first iterator reply that is an error |
| DiscoveryFacts.DiscoverFromFailsOnError | index.js:67-85 | Conversely, once the answered pages reach an open shard (every page before its own having a truthy `LastEvaluatedShardId`), an error reply for that shard, every earlier reply being an answer, fails the walk with exactly that error whatever the later pages would be, so the walk neither stalls nor succeeds |
| DiscoveryFacts.OpenAcrossMembers | index.js:55-75 | A shard is among the accumulated open shards exactly when it is open and listed on some page |
| DiscoveryFacts.WalkCallsStarts | index.js:45-52 | The first `describeStream` request of a walk uses its start token; each later one uses the previous page's `LastEvaluatedShardId` |
| DiscoveryFacts.WalkPages | index.js:52-80 | The pages read are the first replies, in order; every page but the last has a `LastEvaluatedShardId` and the last has none |
| DiscoveryFacts.DiscoverSucceedsIff | index.js:42-87 | Discovery returns shards exactly when the pages form a complete run and every open shard's iterator request is answered without error |
| DiscoveryFacts.DiscoverFound | index.js:39-88 | The shards returned are the open shards across all pages, in page order, each with its LATEST iterator; the client has used up exactly those pages and iterator replies, and logged exactly those requests |
| DiscoveryFacts.DiscoverKeepsOpenShards | index.js:55-75 | Every shard returned is open, was listed on a page read, and carries its own answered iterator; every open shard listed is returned |
| DiscoveryFacts.DiscoverPagination | index.js:45-80 | The first `describeStream` request has no `ExclusiveStartShardId`; each later one passes the previous page's `LastEvaluatedShardId`; the walk stops at the first page without one |
| DiscoveryFacts.DiscoverFailed | index.js:66-85 | Discovery fails only with the first `getShardIterator` error, and returns no shard list |
| DiscoveryFacts.DescribeErrorIsSilent | index.js:48-51 | When the pages hit a `describeStream` error before a last page, discovery never returns shards; with no iterator error, it never completes at all rather than failing |
| DiscoveryFacts.FirstDescribeErrorStalls | index.js:49-50 | An error on the first page stalls discovery after that single request |
| DiscoveryFacts.OneOfTwoShardsIsOpen | test/internal.tests.js:17-41 | Of a closed and an open shard on one page, exactly the open one is returned, with its iterator |
| PollCycle.DecodeKeys | index.js:107 | Decoding a `Keys` map keeps exactly its attribute names |
| PollFacts.KeyExtraction | index.js:107 | A record with `dynamodb.Keys` gets the decoded key; one without `Keys` or without `dynamodb` gets no key |
| PollCycle.RecordEvents | index.js:105-109 | One `record` event per record, in order, each carrying the record and its key |
| PollCycle.ReadAll | index.js:93-113 | A pass of reads keeps one entry per shard and consumes no discovery reply |
| PollFacts.ReadAllShards | index.js:93-111 | After a pass, each shard keeps its id and holds the iterator its own `getRecords` reply gave, or its old one if that read failed or went unanswered |
| PollFacts.ReadAllUnanswered | index.js:93-95 | A read of the pass goes unanswered exactly when fewer `getRecords` replies remain than shards |
| PollFacts.ReadAllNoError | index.js:96-98 | A pass reports no error exactly when every read it got an answer for succeeded |
| PollFacts.ReadAllFirstError | index.js:114-117 | The error a pass reports is the first failed read in shard order |
| PollFacts.ReadAllClient | index.js:93-95 | A pass makes one `getRecords` request per shard with that shard's iterator and uses up one reply per shard |
| PollFacts.ReadAllEvents | index.js:105-110 | A pass emits the records of every answered read, shard after shard, in record order |
| PollFacts.CycleCountsDone | index.js:114-134 | `job.done` is called exactly once by a cycle that completes or ends with an error, and never by one that waits or throws |
| PollFacts.CompletedIsFresh | index.js:122-134 | A completed cycle leaves a shard list that is not stale: non-empty, and every shard with an iterator |
| PollFacts.ErroredEmitsError | index.js:114-128 | A cycle that ends with an error has emitted that error as its last event |
| PollFacts.ThrowsIffDeleted | index.js:91-124 | A cycle throws exactly when it starts after the shard list was deleted |
| PollFacts.CycleAppendsEvents | index.js:90-136 | A cycle only appends to the event log |
| PollFacts.HealthyCycle | index.js:122-134 | A cycle whose reads all succeed with a next iterator completes with one `done` and leaves each shard its `NextShardIterator` |
| PollFacts.HealthyCycleOutput | index.js:93-134 | Such a cycle emits every record in shard order and makes one `getRecords` request per shard and no discovery request |
| PollFacts.ReadFailureIsolated | index.js:114-118 | When some read fails, the cycle emits the records read and then one error event with the first error; it calls `done` once; shards already advanced stay advanced; no rediscovery is made |
| PollFacts.SelfHealingRediscovers | index.js:122-131 | When every read succeeds, the list is empty or at least one read reports no next iterator (the `some` test), and discovery succeeds, the cycle reruns on exactly the discovered shards, after one discovery pass |
| PollFacts.SelfHealing | index.js:122-134 | Rediscovery returns a non-stale list: when every read reports no next iterator and the new shards read well, a single cycle makes one discovery pass, installs the fresh list, reads it, and completes with one `done` |
| PollFacts.EmptyDiscoveryNeverCompletes | index.js:122-131 | When discovery keeps finding no open shard, a cycle over the empty list keeps rediscovering: one `describeStream` request per page answered plus one never answered; it never calls `done` and emits nothing |
| PollFacts.FailedRediscoveryThenThrows | index.js:124-129 | A failed rediscovery ends the cycle with its error and leaves the list deleted, so the next cycle throws |

## Left out

- The AWS SDK client construction and the network are not modelled. The region and endpoint are only stored, and the service is the scripted `StreamClient`.
- The `describeTable` and `listStreams` calls are not modelled. Their answers are parameters of `Start`, their requests are not logged, and a lookup that is never answered is not modelled.
- `tempus-fugit` scheduling is reduced to the `Job` value. `Process` is one scheduled run, and its `job.done` calls are counted. Timing, `Date.now` and the guarantee that ticks do not overlap are not modelled.
- Subscriber.DynamoDBSubscriber.Start: a second `start` schedules a second job in the source and loses the first; the model keeps only one job.
- `async` concurrency is not modelled. Iterator and record requests run one after another in shard order, so the model differs from the source in three ways:
  - The error reported is the first in shard order, not the first to complete.
  - A cycle's error event comes after all of the pass's records. In the source it can come before the records of reads still in flight.
  - After a `getShardIterator` error the model makes no further iterator requests. The source has already issued them all and ignores their replies.
- `ms` string parsing is the function parameter `ms`, and intervals are integers.
- `aws.DynamoDB.Converter.output` is modelled for string and number attributes only. Numbers keep their decimal text.
- PollFacts.DecodeKeysRoundTrip: relates the decoder only to the model's own encoder `Wire`, which the source does not have; the round trip rests on numbers keeping their decimal text, which `Converter.output` does not do (it turns an `N` value into a JavaScript number, so `"007"` becomes 7).
- `debug` and `console.log` output is not modelled.
- The EventEmitter is an append-only event log. Node throws when an `error` event has no listener; that is not modelled.
- The `DynamodDBReadable` stream adapter and its backpressure wiring are not modelled.
- Integers are unbounded.
- Replies are finite scripts. A request after its script ends stands for a reply that never comes.
- PollCycle.Cycle: the unbounded rediscovery recursion of `_process` (index.js:122-131) is bounded by the number of scripted `describeStream` replies; an endless run of answers is not modelled. The same holds for `Subscriber.DynamoDBSubscriber.Process`.
- Discovery.DiscoverFrom: the page loop of `getOpenShards` (index.js:42-80) is likewise bounded by the scripted pages; an endless run of truthy `LastEvaluatedShardId` values is not modelled.
