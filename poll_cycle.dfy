/** One scheduled run of `_process`: read every shard once, emit the records,
    advance the iterators, and rebuild the shard list when it has gone
    stale.

    `ReadAll` is the `async.each` over the shard list and `Cycle` the whole
    run, both as functions of the subscriber's state; the subscriber's
    `Process` method is proved equal to `Cycle`. */
module PollCycle {
  import opened StreamService
  import opened Discovery

  /** A key attribute decoded to a plain value. */
  datatype PlainValue = Text(text: string) | Number(digits: string)

  type Key = map<string, PlainValue>

  function Plain(v: AttributeValue): PlainValue
  {
    match v
    case S(s) => Text(s)
    case N(n) => Number(n)
  }

  function Wire(v: PlainValue): AttributeValue
  {
    match v
    case Text(s) => S(s)
    case Number(n) => N(n)
  }

  /** The `Keys` map of a record decoded attribute by attribute. */
  function DecodeKeys(keys: AttributeMap): (r: Key)
    ensures r.Keys == keys.Keys
  {
    map k | k in keys :: Plain(keys[k])
  }

  /** The plain key of a record; none when the record has no `dynamodb`
      part or no `Keys` in it. */
  function KeyOf(r: StreamRecord): Option<Key>
  {
    if r.dynamodb.Some? && r.dynamodb.value.keys.Some? then Some(DecodeKeys(r.dynamodb.value.keys.value)) else None
  }

  /** What the subscriber emits: a `record` event with the record and its
      key, or an `error` event. */
  datatype Event = RecordEvent(record: StreamRecord, key: Option<Key>) | ErrorEvent(error: Error)

  /** The `record` events of a batch, one per record, in order. */
  function RecordEvents(rs: seq<StreamRecord>): (r: seq<Event>)
    ensures |r| == |rs|
    ensures forall i :: 0 <= i < |rs| ==> r[i] == RecordEvent(rs[i], KeyOf(rs[i]))
  {
    if rs == [] then [] else [RecordEvent(rs[0], KeyOf(rs[0]))] + RecordEvents(rs[1..])
  }

  // ---------------------------------------------------------------------
  // Reading every shard once

  /** A shard's iterator is usable when it is truthy. */
  predicate HasIterator(s: Shard)
  {
    Truthy(s.shardIterator)
  }

  /** The shard list must be rebuilt when it is empty or some shard has
      lost its iterator. */
  predicate Stale(shards: seq<Shard>)
  {
    |shards| == 0 || exists k :: 0 <= k < |shards| && !HasIterator(shards[k])
  }

  /** The shard after its `getRecords` call: an answer moves the iterator
      to `NextShardIterator`; an error or no answer leaves it. */
  function Advance(s: Shard, reply: Option<Result<Batch>>): Shard
  {
    if reply.Some? && reply.value.Ok? then Shard(s.id, reply.value.value.nextShardIterator) else s
  }

  /** The `record` events of a `getRecords` reply. */
  function ReplyEvents(reply: Option<Result<Batch>>): seq<Event>
  {
    if reply.Some? && reply.value.Ok? then RecordEvents(reply.value.value.records) else []
  }

  /** The outcome of one read of every shard: the shards with their new
      iterators, the `record` events, the client, the error `async.each`
      reports (the first one, in shard order), and whether some read was
      never answered. */
  datatype Reads = Reads(shards: seq<Shard>, events: seq<Event>, client: StreamClient,
                         firstError: Option<Error>, unanswered: bool)

  /** The reads already made, followed by the reads `rest` of the remaining
      shards: the first error seen so far wins. */
  function Continue(shards: seq<Shard>, events: seq<Event>, firstError: Option<Error>, unanswered: bool,
                    rest: Reads): Reads
  {
    Reads(shards + rest.shards, events + rest.events, rest.client,
          if firstError.Some? then firstError else rest.firstError, unanswered || rest.unanswered)
  }

  /** The reads of `shards`, in order. */
  function ReadAll(shards: seq<Shard>, c: StreamClient): (r: Reads)
    ensures |r.shards| == |shards|
    ensures r.client.describeReplies == c.describeReplies && r.client.iteratorReplies == c.iteratorReplies
  {
    if shards == [] then Reads([], [], c, None, false)
    else
      var reply := c.RecordsAnswer();
      Continue([Advance(shards[0], reply)], ReplyEvents(reply),
               if reply.Some? && reply.value.Err? then Some(reply.value.error) else None, reply.None?,
               ReadAll(shards[1..], c.AfterRecords(shards[0].shardIterator)))
  }

  // ---------------------------------------------------------------------
  // Reference definitions for one read of every shard

  /** The reply the `k`-th `getRecords` call of a pass receives, if any. */
  function ReplyAt(replies: seq<Result<Batch>>, k: nat): Option<Result<Batch>>
  {
    if k < |replies| then Some(replies[k]) else None
  }

  /** The replies left once `n` calls have been made. */
  function Unread(replies: seq<Result<Batch>>, n: nat): seq<Result<Batch>>
  {
    if n <= |replies| then replies[n..] else []
  }

  /** One `getRecords` request per shard, with the shard's iterator. */
  function RecordCalls(shards: seq<Shard>): seq<Call>
  {
    if shards == [] then [] else [GetRecords(shards[0].shardIterator)] + RecordCalls(shards[1..])
  }

  function Flatten<T>(xss: seq<seq<T>>): seq<T>
  {
    if xss == [] then [] else xss[0] + Flatten(xss[1..])
  }

  // ---------------------------------------------------------------------
  // The cycle

  /** The part of the subscriber a cycle changes: its shard list (`None`
      once deleted), the events emitted so far, how many times `job.done`
      was called, and the stream client. */
  datatype Poll = Poll(shards: Option<seq<Shard>>, events: seq<Event>, done: nat, client: StreamClient)

  /** How a cycle ends: `job.done` called after success or after an error
      event; never, because a call was not answered; or with the
      `TypeError` of reading the length of a deleted shard list. */
  datatype CycleEnd = Completed | Errored(error: Error) | Waiting | Threw

  datatype CycleRun = CycleRun(state: Poll, end: CycleEnd)

  /** `_process`: read every shard; on an error, emit it and call
      `job.done`; on a stale list, delete it, rediscover and run again. */
  function Cycle(p: Poll, arn: Option<Arn>): CycleRun
    decreases |p.client.describeReplies|
  {
    if p.shards.None? then CycleRun(p, Threw)
    else
      var sweep := ReadAll(p.shards.value, p.client);
      var read := Poll(Some(sweep.shards), p.events + sweep.events, p.done, sweep.client);
      if sweep.firstError.Some? then
        CycleRun(read.(events := read.events + [ErrorEvent(sweep.firstError.value)], done := p.done + 1),
                 Errored(sweep.firstError.value))
      else if sweep.unanswered then CycleRun(read, Waiting)
      else if !Stale(sweep.shards) then CycleRun(read.(done := p.done + 1), Completed)
      else
        var found := Discover(sweep.client, arn);
        var deleted := read.(shards := None, client := found.client);
        if found.outcome.Stalled? then CycleRun(deleted, Waiting)
        else if found.outcome.Failed? then
          CycleRun(deleted.(events := deleted.events + [ErrorEvent(found.outcome.error)], done := p.done + 1),
                   Errored(found.outcome.error))
        else Cycle(deleted.(shards := Some(found.outcome.shards)), arn)
  }
}
