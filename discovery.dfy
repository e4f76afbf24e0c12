/** Shard discovery: the paginated walk of `describeStream` that keeps the
    open shards and gives each a LATEST iterator (`_getOpenShards`).

    `DiscoverFrom` is the walk as a function of the client's replies; the
    subscriber's `GetOpenShards` method runs the same walk with loops and is
    proved equal to it. `Walk`, `OpenAcross`, `WithIterators` and
    `WalkCalls` say independently which pages a complete walk reads, which
    shards it keeps and which requests it makes; the lemmas tie the two
    together. */
module Discovery {
  import opened StreamService

  /** An entry of the subscriber's shard list. */
  datatype Shard = Shard(id: ShardId, shardIterator: Option<Iterator>)

  /** How a discovery pass ends: with the open shards, with the error of a
      `getShardIterator` call, or never, because a call is not answered or
      because a `describeStream` error is only logged. */
  datatype Discovered = Found(shards: seq<Shard>) | Failed(error: Error) | Stalled

  datatype DiscoveryRun = DiscoveryRun(outcome: Discovered, client: StreamClient)

  /** A listed shard is open when its range has no ending sequence number. */
  predicate IsOpen(d: ShardDescription)
  {
    !Truthy(d.endingSequenceNumber)
  }

  /** The open shards of one page, in listing order. */
  function OpenShards(ds: seq<ShardDescription>): (r: seq<ShardDescription>)
    ensures forall d :: d in r <==> d in ds && IsOpen(d)
    ensures |r| <= |ds|
  {
    if ds == [] then [] else (if IsOpen(ds[0]) then [ds[0]] else []) + OpenShards(ds[1..])
  }

  /** Filtering keeps the order: the open shards of two lists one after the
      other are those of the first, then those of the second. */
  lemma {:induction false} OpenShardsAppend(a: seq<ShardDescription>, b: seq<ShardDescription>)
    ensures OpenShards(a + b) == OpenShards(a) + OpenShards(b)
  {
    if a == [] {
      assert a + b == b;
    } else {
      assert (a + b)[0] == a[0] && (a + b)[1..] == a[1..] + b;
      OpenShardsAppend(a[1..], b);
    }
  }

  /** The shards `ws` in front of those of a successful pass. */
  function Prepend(ws: seq<Shard>, r: DiscoveryRun): DiscoveryRun
  {
    if r.outcome.Found? then DiscoveryRun(Found(ws + r.outcome.shards), r.client) else r
  }

  /** The LATEST `getShardIterator` calls for `open[i..]`, in order; the
      first error ends the pass. */
  function AttachFrom(c: StreamClient, arn: Option<Arn>, open: seq<ShardDescription>, i: nat): (r: DiscoveryRun)
    requires i <= |open|
    decreases |open| - i
    ensures r.client.describeReplies == c.describeReplies && r.client.recordReplies == c.recordReplies
  {
    if i == |open| then DiscoveryRun(Found([]), c)
    else
      var c1 := c.AfterIterator(arn, open[i].shardId);
      if c.iteratorReplies == [] then DiscoveryRun(Stalled, c1)
      else if c.iteratorReplies[0].Err? then DiscoveryRun(Failed(c.iteratorReplies[0].error), c1)
      else Prepend([Shard(open[i].shardId, c.iteratorReplies[0].value)], AttachFrom(c1, arn, open, i + 1))
  }

  /** The do-while loop over `describeStream` pages, from the page after
      `start`: each page's open shards get their iterators, and the loop
      goes on while the page has a `LastEvaluatedShardId`. */
  function DiscoverFrom(c: StreamClient, arn: Option<Arn>, start: Option<ShardId>): (r: DiscoveryRun)
    decreases |c.describeReplies|
    ensures r.client.recordReplies == c.recordReplies
    ensures |r.client.describeReplies| <= |c.describeReplies|
    ensures r.outcome.Found? ==> |r.client.describeReplies| < |c.describeReplies|
  {
    var c1 := c.AfterDescribe(arn, start);
    if c.describeReplies == [] || c.describeReplies[0].Err? then DiscoveryRun(Stalled, c1)
    else
      var page := c.describeReplies[0].value;
      var att := AttachFrom(c1, arn, OpenShards(page.shards), 0);
      if !att.outcome.Found? || !Truthy(page.lastEvaluatedShardId) then att
      else Prepend(att.outcome.shards, DiscoverFrom(att.client, arn, page.lastEvaluatedShardId))
  }

  /** A whole discovery pass: the first `describeStream` call has no
      `ExclusiveStartShardId`. */
  function Discover(c: StreamClient, arn: Option<Arn>): DiscoveryRun
  {
    DiscoverFrom(c, arn, None)
  }

  // ---------------------------------------------------------------------
  // Reference definitions

  /** The pages a complete walk reads from `replies`: every page up to the
      first one without a `LastEvaluatedShardId`; `None` when the replies
      fail or run out first. */
  function Walk(replies: seq<Result<Page>>): Option<seq<Page>>
  {
    if replies == [] || replies[0].Err? then None
    else if !Truthy(replies[0].value.lastEvaluatedShardId) then Some([replies[0].value])
    else match Walk(replies[1..])
      case None => None
      case Some(ps) => Some([replies[0].value] + ps)
  }

  /** Whether the answered pages at the head of `replies` reach the `k`-th
      open shard: the page holding it is answered, and so is every page
      before it, each with a truthy `LastEvaluatedShardId`. */
  predicate Reaches(replies: seq<Result<Page>>, k: nat)
  {
    replies != [] && replies[0].Ok? &&
    var n := |OpenShards(replies[0].value.shards)|;
    (k < n || (Truthy(replies[0].value.lastEvaluatedShardId) && Reaches(replies[1..], k - n)))
  }

  /** The open shards of the pages, page after page. */
  function OpenAcross(ps: seq<Page>): seq<ShardDescription>
  {
    if ps == [] then [] else OpenShards(ps[0].shards) + OpenAcross(ps[1..])
  }

  /** The iterator a `getShardIterator` reply carries. */
  function IteratorOf(reply: Result<Option<Iterator>>): Option<Iterator>
  {
    if reply.Ok? then reply.value else None
  }

  /** The shards `open`, each with the iterator of the reply in the same
      position of `replies`. */
  function WithIterators(open: seq<ShardDescription>, replies: seq<Result<Option<Iterator>>>): seq<Shard>
    requires |open| <= |replies|
  {
    if open == [] then []
    else [Shard(open[0].shardId, IteratorOf(replies[0]))] + WithIterators(open[1..], replies[1..])
  }

  /** The first `n` replies are all answers without error. */
  predicate AllOk(replies: seq<Result<Option<Iterator>>>, n: nat)
  {
    n <= |replies| && forall k :: 0 <= k < n ==> replies[k].Ok?
  }

  /** One LATEST `getShardIterator` request per shard, in order. */
  function IteratorCalls(arn: Option<Arn>, open: seq<ShardDescription>): seq<Call>
  {
    if open == [] then [] else [GetShardIterator(arn, open[0].shardId, Latest)] + IteratorCalls(arn, open[1..])
  }

  /** The requests of a walk over `ps`: per page, a `describeStream` call
      that continues after the previous page's `LastEvaluatedShardId`, then
      the iterator requests for the page's open shards. */
  function WalkCalls(arn: Option<Arn>, start: Option<ShardId>, ps: seq<Page>): seq<Call>
    decreases |ps|
  {
    if ps == [] then []
    else [DescribeStream(arn, start)] + IteratorCalls(arn, OpenShards(ps[0].shards))
         + WalkCalls(arn, ps[0].lastEvaluatedShardId, ps[1..])
  }

  /** The `ExclusiveStartShardId` of every `describeStream` request, in order. */
  function DescribeStarts(calls: seq<Call>): seq<Option<ShardId>>
  {
    if calls == [] then []
    else (if calls[0].DescribeStream? then [calls[0].exclusiveStartShardId] else []) + DescribeStarts(calls[1..])
  }
}
