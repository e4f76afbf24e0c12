/** The `DynamodDBSubscriber` object: its configuration, the start-up
    sequence that resolves the stream ARN and builds the first shard list,
    the scheduled `_process` run, and `stop`.

    The object's fields are the class's fields. The service client is the
    `ddbStream` field; the `describeTable` and `listStreams` answers used
    once at start-up are parameters of `Start`. */
module Subscriber {
  import opened StreamService
  import opened Discovery
  import opened DiscoveryFacts
  import opened PollCycle
  import opened PollFacts

  /** The `interval` parameter by JavaScript type: a number, a string for
      `ms` to parse, or anything else. */
  datatype IntervalParam = Millis(millis: int) | Duration(text: string) | Other

  datatype Params = Params(arn: Option<Arn>, table: Option<string>, region: Option<string>,
                           endpoint: Option<string>, interval: IntervalParam)

  /** `ms("10s")`. */
  const DefaultInterval: int := 10000

  const MissingTarget: string := "arn or table are required"

  /** The polling interval: a number is kept as it is, a string is parsed
      by `ms` (which may give `undefined`), anything else is ten seconds. */
  function IntervalOf(p: IntervalParam, ms: string -> Option<int>): (r: Option<int>)
    ensures p.Millis? ==> r == Some(p.millis)
    ensures p.Duration? ==> r == ms(p.text)
    ensures p.Other? ==> r == Some(DefaultInterval)
  {
    match p
    case Millis(n) => Some(n)
    case Duration(t) => ms(t)
    case Other => Some(DefaultInterval)
  }

  /** A stream as `listStreams` lists it. */
  datatype StreamSummary = StreamSummary(streamArn: Option<Arn>)

  /** The text a template literal gives for the table name. */
  function TableText(table: Option<string>): string
  {
    if table.Some? then table.value else "undefined"
  }

  /** The first two steps of `start`: a truthy ARN is kept; otherwise a
      truthy `LatestStreamArn` from `describeTable` (whose errors are
      ignored); otherwise the first stream `listStreams` lists, whose error
      ends the start-up. */
  function ResolveArn(arn: Option<Arn>, table: Option<string>,
                      described: Result<Option<Arn>>, listed: Result<seq<StreamSummary>>): (r: Result<Option<Arn>>)
    ensures Truthy(arn) ==> r == Ok(arn)
    ensures !Truthy(arn) && described.Ok? && Truthy(described.value) ==> r == Ok(described.value)
    ensures r.Err? <==> !Truthy(arn) && !(described.Ok? && Truthy(described.value)) && listed.Err?
    ensures r.Err? ==> r.error.message == "Cannot retrieve the stream arn of " + TableText(table) + ": " + listed.error.message
    ensures r.Ok? && !Truthy(arn) && !(described.Ok? && Truthy(described.value)) ==>
              r.value == (if |listed.value| > 0 then listed.value[0].streamArn else arn)
  {
    if Truthy(arn) then Ok(arn)
    else if described.Ok? && Truthy(described.value) then Ok(described.value)
    else if listed.Err? then
      Err(Error("Cannot retrieve the stream arn of " + TableText(table) + ": " + listed.error.message))
    else if |listed.value| > 0 then Ok(listed.value[0].streamArn)
    else Ok(arn)
  }

  /** An error of `describeTable` counts as an answer without a stream. */
  lemma DescribeTableErrorIgnored(arn: Option<Arn>, table: Option<string>, e: Error, listed: Result<seq<StreamSummary>>)
    ensures ResolveArn(arn, table, Err(e), listed) == ResolveArn(arn, table, Ok(None), listed)
  {
  }

  /** The scheduled job: none before a successful start, then running until
      cancelled. */
  datatype Job = Unscheduled | Scheduled(interval: Option<int>) | Cancelled

  class DynamoDBSubscriber {
    const region: Option<string>
    const table: Option<string>
    const endpoint: Option<string>
    const interval: Option<int>
    var streamArn: Option<Arn>
    var ddbStream: StreamClient
    var shards: Option<seq<Shard>>
    var events: seq<Event>
    var doneCount: nat
    var job: Job

    /** The constructor: an ARN or a table is required (the caller checks,
        see `New`); the interval is fixed here. */
    constructor (p: Params, ms: string -> Option<int>, client: StreamClient)
      requires Truthy(p.arn) || Truthy(p.table)
      ensures region == p.region && table == p.table && endpoint == p.endpoint
      ensures interval == IntervalOf(p.interval, ms)
      ensures streamArn == p.arn && ddbStream == client
      ensures shards.None? && events == [] && doneCount == 0 && job == Unscheduled
    {
      region := p.region;
      table := p.table;
      endpoint := p.endpoint;
      streamArn := p.arn;
      interval := IntervalOf(p.interval, ms);
      ddbStream := client;
      shards := None;
      events := [];
      doneCount := 0;
      job := Unscheduled;
    }

    /** The part of the object a cycle works on. */
    function State(): Poll
      reads this
    {
      Poll(shards, events, doneCount, ddbStream)
    }

    /** The `async.map` of one page: a LATEST iterator request per open
        shard, in order; the first error ends it. */
    method AttachIterators(open: seq<ShardDescription>) returns (outcome: Discovered)
      modifies this`ddbStream
      ensures DiscoveryRun(outcome, ddbStream) == AttachFrom(old(ddbStream), streamArn, open, 0)
    {
      var attached: seq<Shard> := [];
      var i := 0;
      while i < |open|
        invariant 0 <= i <= |open|
        invariant Prepend(attached, AttachFrom(ddbStream, streamArn, open, i)) == AttachFrom(old(ddbStream), streamArn, open, 0)
        decreases |open| - i
      {
        var reply := ddbStream.IteratorAnswer();
        ghost var before := ddbStream;
        ddbStream := ddbStream.AfterIterator(streamArn, open[i].shardId);
        if reply.None? {
          return Stalled;
        }
        if reply.value.Err? {
          return Failed(reply.value.error);
        }
        var shard := Shard(open[i].shardId, reply.value.value);
        AttachFromNext(before, streamArn, open, i);
        PrependPrepend(attached, [shard], AttachFrom(ddbStream, streamArn, open, i + 1));
        attached := attached + [shard];
        i := i + 1;
      }
      assert attached + [] == attached;
      return Found(attached);
    }

    /** `_getOpenShards`: the do-while loop over `describeStream` pages;
        the loop goes on while a page has a `LastEvaluatedShardId`. */
    method GetOpenShards() returns (outcome: Discovered)
      modifies this`ddbStream
      ensures DiscoveryRun(outcome, ddbStream) == Discover(old(ddbStream), streamArn)
    {
      var lastEvaluatedShardId: Option<ShardId> := None;
      var found: seq<Shard> := [];
      while true
        invariant Prepend(found, DiscoverFrom(ddbStream, streamArn, lastEvaluatedShardId)) ==
                  Discover(old(ddbStream), streamArn)
        decreases |ddbStream.describeReplies|
      {
        ghost var before := ddbStream;
        ghost var start := lastEvaluatedShardId;
        var answer := ddbStream.DescribeAnswer();
        ddbStream := ddbStream.AfterDescribe(streamArn, lastEvaluatedShardId);
        if answer.None? || answer.value.Err? {
          DiscoverFromStalls(before, streamArn, start);
          return Stalled;
        }
        var page := answer.value.value;
        lastEvaluatedShardId := page.lastEvaluatedShardId;
        var attached := AttachIterators(OpenShards(page.shards));
        DiscoverFromNext(before, streamArn, start);
        if !attached.Found? {
          return attached;
        }
        PrependPrepend(found, attached.shards, DiscoverFrom(ddbStream, streamArn, lastEvaluatedShardId));
        found := found + attached.shards;
        if !Truthy(lastEvaluatedShardId) {
          assert found == found + [];
          return Found(found);
        }
      }
    }

    /** The `forEach` over a batch: one `record` event per record, with its
        decoded key. */
    method EmitRecords(records: seq<StreamRecord>)
      modifies this`events
      ensures events == old(events) + RecordEvents(records)
    {
      var j := 0;
      while j < |records|
        invariant 0 <= j <= |records|
        invariant events == old(events) + RecordEvents(records[..j])
      {
        RecordEventsSnoc(records, j);
        events := events + [RecordEvent(records[j], KeyOf(records[j]))];
        j := j + 1;
      }
      assert records[..j] == records;
    }

    /** The read of one shard (the body of the `async.each`): a
        `getRecords` request with the shard's iterator; an answer emits its
        records and gives the shard its `NextShardIterator`. */
    method ReadShard(shard: Shard) returns (reply: Option<Result<Batch>>, next: Shard)
      modifies this`events, this`ddbStream
      ensures reply == old(ddbStream).RecordsAnswer() && ddbStream == old(ddbStream).AfterRecords(shard.shardIterator)
      ensures events == old(events) + ReplyEvents(reply) && next == Advance(shard, reply)
    {
      reply := ddbStream.RecordsAnswer();
      ddbStream := ddbStream.AfterRecords(shard.shardIterator);
      next := shard;
      if reply.Some? && reply.value.Ok? {
        EmitRecords(reply.value.value.records);
        next := Shard(shard.id, reply.value.value.nextShardIterator);
      }
    }

    /** The `async.each` of `_process`: every shard read in turn; the first
        error is the one reported, and a read never answered keeps the
        pass from ending. */
    method ReadShards() returns (firstError: Option<Error>, unanswered: bool)
      requires shards.Some?
      modifies this`shards, this`events, this`ddbStream
      ensures var sweep := ReadAll(old(shards.value), old(ddbStream));
              shards == Some(sweep.shards) && events == old(events) + sweep.events && ddbStream == sweep.client &&
              firstError == sweep.firstError && unanswered == sweep.unanswered
    {
      var listed := shards.value;
      var current := listed;
      ghost var logged := events;
      ghost var emitted: seq<Event> := [];
      firstError := None;
      unanswered := false;
      var i := 0;
      while i < |listed|
        invariant |current| == |listed| && 0 <= i <= |listed|
        invariant events == logged + emitted
        invariant Continue(current[..i], emitted, firstError, unanswered, ReadAll(listed[i..], ddbStream)) ==
                  ReadAll(listed, old(ddbStream))
      {
        ReadStep(listed, i, current, emitted, firstError, unanswered, ddbStream, ReadAll(listed, old(ddbStream)));
        var reply, next := ReadShard(listed[i]);
        firstError := if reply.Some? && reply.value.Err? && firstError.None? then Some(reply.value.error) else firstError;
        unanswered := unanswered || reply.None?;
        assert events == logged + (emitted + ReplyEvents(reply)) by {
          AppendAssoc(logged, emitted, ReplyEvents(reply));
        }
        emitted := emitted + ReplyEvents(reply);
        current := current[i := next];
        i := i + 1;
      }
      assert current[..i] == current && emitted + [] == emitted && current + [] == current;
      shards := Some(current);
    }

    /** `_process`, the scheduled job: read every shard; on an error, emit
        it and call `job.done`; when the list is empty or a shard has lost
        its iterator, delete the list, rediscover, and run again. */
    method Process() returns (end: CycleEnd)
      modifies this`shards, this`events, this`doneCount, this`ddbStream
      decreases |ddbStream.describeReplies|
      ensures CycleRun(State(), end) == Cycle(old(State()), streamArn)
    {
      if shards.None? {
        return Threw;
      }
      var firstError, unanswered := ReadShards();
      if firstError.Some? {
        events := events + [ErrorEvent(firstError.value)];
        doneCount := doneCount + 1;
        return Errored(firstError.value);
      }
      if unanswered {
        return Waiting;
      }
      if !Stale(shards.value) {
        doneCount := doneCount + 1;
        return Completed;
      }
      shards := None;
      var outcome := GetOpenShards();
      if outcome.Stalled? {
        return Waiting;
      }
      if outcome.Failed? {
        events := events + [ErrorEvent(outcome.error)];
        doneCount := doneCount + 1;
        return Errored(outcome.error);
      }
      shards := Some(outcome.shards);
      end := Process();
    }

    /** `start`: resolve the stream ARN if needed, build the shard list and
        schedule `_process` every `interval` milliseconds; any error is
        emitted and ends the start-up. */
    method Start(described: Result<Option<Arn>>, listed: Result<seq<StreamSummary>>)
      modifies this`streamArn, this`ddbStream, this`shards, this`events, this`job
      ensures var resolved := ResolveArn(old(streamArn), table, described, listed);
              if resolved.Err? then
                streamArn == old(streamArn) && ddbStream == old(ddbStream) && shards == old(shards) &&
                job == old(job) && events == old(events) + [ErrorEvent(resolved.error)]
              else
                var found := Discover(old(ddbStream), resolved.value);
                streamArn == resolved.value && ddbStream == found.client &&
                (found.outcome.Found? ==>
                   shards == Some(found.outcome.shards) && job == Scheduled(interval) && events == old(events)) &&
                (found.outcome.Failed? ==>
                   shards == old(shards) && job == old(job) && events == old(events) + [ErrorEvent(found.outcome.error)]) &&
                (found.outcome.Stalled? ==> shards == old(shards) && job == old(job) && events == old(events))
    {
      if !Truthy(streamArn) && described.Ok? && Truthy(described.value) {
        streamArn := described.value;
      }
      if !Truthy(streamArn) {
        if listed.Err? {
          events := events + [ErrorEvent(Error("Cannot retrieve the stream arn of " + TableText(table) + ": " + listed.error.message))];
          return;
        }
        if |listed.value| > 0 {
          streamArn := listed.value[0].streamArn;
        }
      }
      var outcome := GetOpenShards();
      if outcome.Failed? {
        events := events + [ErrorEvent(outcome.error)];
      } else if outcome.Found? {
        shards := Some(outcome.shards);
        job := Scheduled(interval);
      }
    }

    /** `stop`: cancel the job; before a successful start there is none and
        reading its `cancel` throws. */
    method Stop() returns (threw: bool)
      modifies this`job
      ensures threw <==> old(job) == Unscheduled
      ensures job == if threw then Unscheduled else Cancelled
    {
      if job == Unscheduled {
        return true;
      }
      job := Cancelled;
      return false;
    }
  }


  /** `new DynamodDBSubscriber(params)`: throws unless an ARN or a table is
      given. */
  method New(p: Params, ms: string -> Option<int>, client: StreamClient) returns (r: Result<DynamoDBSubscriber>)
    ensures r.Err? <==> !Truthy(p.arn) && !Truthy(p.table)
    ensures r.Err? ==> r.error == Error(MissingTarget)
    ensures r.Ok? ==> fresh(r.value) && r.value.streamArn == p.arn && r.value.table == p.table &&
                      r.value.region == p.region && r.value.endpoint == p.endpoint &&
                      r.value.interval == IntervalOf(p.interval, ms) && r.value.ddbStream == client &&
                      r.value.shards.None? && r.value.events == [] && r.value.doneCount == 0 &&
                      r.value.job == Unscheduled
  {
    if !Truthy(p.arn) && !Truthy(p.table) {
      return Err(Error(MissingTarget));
    }
    var s := new DynamoDBSubscriber(p, ms, client);
    return Ok(s);
  }
}
