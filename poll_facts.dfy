/** What one read of every shard and one cycle do, proved against the
    reference definitions of the `PollCycle` module. */
module PollFacts {
  import opened StreamService
  import opened Discovery
  import opened DiscoveryFacts
  import opened PollCycle

  /** Decoding a key loses nothing: encoding it back gives the wire map. */
  lemma DecodeKeysRoundTrip(keys: AttributeMap)
    ensures (map k | k in DecodeKeys(keys) :: Wire(DecodeKeys(keys)[k])) == keys
  {
    var back := map k | k in DecodeKeys(keys) :: Wire(DecodeKeys(keys)[k]);
    forall k | k in keys
      ensures back[k] == keys[k]
    {
      assert Wire(Plain(keys[k])) == keys[k];
    }
  }

  /** Key extraction: a record keyed `{id: "42"}` gets the plain key
      `{id: "42"}`; a record without `dynamodb` or without `Keys` gets no
      key. */
  lemma KeyExtraction(eventName: string)
    ensures KeyOf(StreamRecord(eventName, Some(StreamData(Some(map["id" := S("42")]))))) == Some(map["id" := Text("42")])
    ensures KeyOf(StreamRecord(eventName, Some(StreamData(None)))) == None
    ensures KeyOf(StreamRecord(eventName, None)) == None
  {
    var keys := map["id" := S("42")];
    assert DecodeKeys(keys) == map["id" := Text("42")] by {
      assert DecodeKeys(keys).Keys == {"id"};
    }
  }

  lemma ReplyAtNext(c: StreamClient, it: Option<Iterator>, k: nat)
    ensures ReplyAt(c.AfterRecords(it).recordReplies, k) == ReplyAt(c.recordReplies, k + 1)
  {
  }

  /** The events of the first `j + 1` records are those of the first `j`
      and one more. */
  lemma RecordEventsSnoc(rs: seq<StreamRecord>, j: nat)
    requires j < |rs|
    ensures RecordEvents(rs[..j + 1]) == RecordEvents(rs[..j]) + [RecordEvent(rs[j], KeyOf(rs[j]))]
  {
    var a := RecordEvents(rs[..j + 1]);
    var b := RecordEvents(rs[..j]) + [RecordEvent(rs[j], KeyOf(rs[j]))];
    forall k | 0 <= k < |a|
      ensures a[k] == b[k]
    {
      assert rs[..j + 1][k] == rs[k];
      if k < j {
        assert rs[..j][k] == rs[k];
      }
    }
  }

  /** Replacing element `i` changes the prefix through `i` and leaves the
      rest. */
  lemma UpdateAt<T>(s: seq<T>, i: nat, x: T)
    requires i < |s|
    ensures |s[i := x]| == |s|
    ensures s[i := x][..i + 1] == s[..i] + [x] && s[i := x][i + 1..] == s[i + 1..]
  {
  }

  /** Reads continued twice are continued once. */
  lemma ContinueContinue(s1: seq<Shard>, e1: seq<Event>, f1: Option<Error>, u1: bool,
                         s2: seq<Shard>, e2: seq<Event>, f2: Option<Error>, u2: bool, r: Reads)
    ensures Continue(s1, e1, f1, u1, Continue(s2, e2, f2, u2, r)) ==
            Continue(s1 + s2, e1 + e2, if f1.Some? then f1 else f2, u1 || u2, r)
  {
    assert s1 + (s2 + r.shards) == (s1 + s2) + r.shards;
    assert e1 + (e2 + r.events) == (e1 + e2) + r.events;
  }

  /** The reads of `shards[i..]` begin with the read of `shards[i]`. */
  lemma ReadAllNext(shards: seq<Shard>, i: nat, c: StreamClient)
    requires i < |shards|
    ensures var reply := c.RecordsAnswer();
            ReadAll(shards[i..], c) ==
              Continue([Advance(shards[i], reply)], ReplyEvents(reply),
                       if reply.Some? && reply.value.Err? then Some(reply.value.error) else None, reply.None?,
                       ReadAll(shards[i + 1..], c.AfterRecords(shards[i].shardIterator)))
  {
    assert shards[i..][0] == shards[i] && shards[i..][1..] == shards[i + 1..];
  }

  // ---------------------------------------------------------------------
  // One read of every shard

  /** One turn of the read loop: the reads made so far, followed by the
      read of shard `i`, followed by the reads of the rest, are still the
      whole pass. */
  lemma ReadStep(listed: seq<Shard>, i: nat, current: seq<Shard>, emitted: seq<Event>,
                 firstError: Option<Error>, unanswered: bool, c: StreamClient, whole: Reads)
    requires i < |listed| && |current| == |listed|
    requires Continue(current[..i], emitted, firstError, unanswered, ReadAll(listed[i..], c)) == whole
    ensures var reply := c.RecordsAnswer();
            var failed := reply.Some? && reply.value.Err? && firstError.None?;
            Continue(current[i := Advance(listed[i], reply)][..i + 1], emitted + ReplyEvents(reply),
                     if failed then Some(reply.value.error) else firstError, unanswered || reply.None?,
                     ReadAll(listed[i + 1..], c.AfterRecords(listed[i].shardIterator))) == whole
  {
    var reply := c.RecordsAnswer();
    var next := Advance(listed[i], reply);
    ReadAllNext(listed, i, c);
    ContinueContinue(current[..i], emitted, firstError, unanswered,
                     [next], ReplyEvents(reply),
                     if reply.Some? && reply.value.Err? then Some(reply.value.error) else None, reply.None?,
                     ReadAll(listed[i + 1..], c.AfterRecords(listed[i].shardIterator)));
    UpdateAt(current, i, next);
  }


  /** Shard `k` gets the iterator of the `k`-th reply when that reply is an
      answer, and keeps its own otherwise; ids never change. */
  lemma {:induction false} ReadAllShards(shards: seq<Shard>, c: StreamClient)
    ensures forall k :: 0 <= k < |shards| ==>
              ReadAll(shards, c).shards[k] == Advance(shards[k], ReplyAt(c.recordReplies, k))
    ensures forall k :: 0 <= k < |shards| ==> ReadAll(shards, c).shards[k].id == shards[k].id
  {
    if shards != [] {
      var c1 := c.AfterRecords(shards[0].shardIterator);
      ReadAllShards(shards[1..], c1);
      forall k | 0 < k < |shards|
        ensures ReadAll(shards, c).shards[k] == Advance(shards[k], ReplyAt(c.recordReplies, k))
      {
        ReplyAtNext(c, shards[0].shardIterator, k - 1);
        assert shards[1..][k - 1] == shards[k];
      }
    }
  }

  /** A read is left unanswered exactly when there are fewer replies than
      shards. */
  lemma {:induction false} ReadAllUnanswered(shards: seq<Shard>, c: StreamClient)
    ensures ReadAll(shards, c).unanswered <==> |c.recordReplies| < |shards|
  {
    if shards != [] {
      ReadAllUnanswered(shards[1..], c.AfterRecords(shards[0].shardIterator));
    }
  }

  /** A pass reports no error exactly when every reply it receives is an
      answer. */
  lemma {:induction false} ReadAllNoError(shards: seq<Shard>, c: StreamClient)
    ensures ReadAll(shards, c).firstError.None? <==>
            forall k :: 0 <= k < |shards| && k < |c.recordReplies| ==> c.recordReplies[k].Ok?
  {
    if shards != [] {
      var c1 := c.AfterRecords(shards[0].shardIterator);
      ReadAllNoError(shards[1..], c1);
      if c.recordReplies != [] {
        assert forall k :: 0 <= k < |c1.recordReplies| ==> c1.recordReplies[k] == c.recordReplies[k + 1];
        if c.recordReplies[0].Ok? &&
           forall k :: 0 <= k < |shards| - 1 && k < |c1.recordReplies| ==> c1.recordReplies[k].Ok? {
          forall k | 0 < k < |shards| && k < |c.recordReplies|
            ensures c.recordReplies[k].Ok?
          {
            assert c.recordReplies[k] == c1.recordReplies[k - 1];
          }
        }
      }
    }
  }

  /** Reply `k` of the first `n` is the error `e`, and every reply before
      it is an answer. */
  predicate FirstErrorAt(replies: seq<Result<Batch>>, n: nat, k: nat, e: Error)
  {
    k < n && k < |replies| && replies[k] == Err(e) && forall j :: 0 <= j < k ==> replies[j].Ok?
  }

  lemma FirstErrorAtNext(replies: seq<Result<Batch>>, n: nat, k: nat, e: Error)
    requires replies != [] && replies[0].Ok? && n > 0 && FirstErrorAt(replies[1..], n - 1, k, e)
    ensures FirstErrorAt(replies, n, k + 1, e)
  {
    forall j | 0 < j < k + 1
      ensures replies[j].Ok?
    {
      assert replies[j] == replies[1..][j - 1];
    }
  }

  /** The error a pass reports is the first error among the replies it
      receives, in shard order. */
  lemma {:induction false} ReadAllFirstError(shards: seq<Shard>, c: StreamClient)
    requires ReadAll(shards, c).firstError.Some?
    ensures exists k :: FirstErrorAt(c.recordReplies, |shards|, k, ReadAll(shards, c).firstError.value)
  {
    var e := ReadAll(shards, c).firstError.value;
    assert shards != [] && c.recordReplies != [] by { ReadAllNoError(shards, c); }
    var c1 := c.AfterRecords(shards[0].shardIterator);
    assert c1.recordReplies == c.recordReplies[1..];
    if c.recordReplies[0].Ok? {
      assert ReadAll(shards[1..], c1).firstError == Some(e);
      ReadAllFirstError(shards[1..], c1);
      var k :| FirstErrorAt(c.recordReplies[1..], |shards| - 1, k, e);
      FirstErrorAtNext(c.recordReplies, |shards|, k, e);
    } else {
      assert FirstErrorAt(c.recordReplies, |shards|, 0, e);
    }
  }

  /** A pass makes one `getRecords` request per shard, with the shard's
      iterator, uses up one reply per request, and touches nothing else. */
  lemma {:induction false} ReadAllClient(shards: seq<Shard>, c: StreamClient)
    ensures ReadAll(shards, c).client ==
            StreamClient(c.describeReplies, c.iteratorReplies, Unread(c.recordReplies, |shards|),
                         c.calls + RecordCalls(shards))
  {
    if shards == [] {
      assert c.calls + [] == c.calls;
    } else {
      var call := GetRecords(shards[0].shardIterator);
      var c1 := c.AfterRecords(shards[0].shardIterator);
      ReadAllClient(shards[1..], c1);
      assert ReadAll(shards, c).client == ReadAll(shards[1..], c1).client;
      assert Unread(c1.recordReplies, |shards| - 1) == Unread(c.recordReplies, |shards|) by {
        if c.recordReplies != [] && |shards| <= |c.recordReplies| {
          DropDrop(c.recordReplies, 1, |shards| - 1);
        }
      }
      assert c1.calls + RecordCalls(shards[1..]) == c.calls + RecordCalls(shards) by {
        AppendAssoc(c.calls, [call], RecordCalls(shards[1..]));
      }
    }
  }

  /** The `record` events of a pass are those of the answered replies, reply
      after reply, in shard order. */
  lemma {:induction false} ReadAllEvents(shards: seq<Shard>, c: StreamClient)
    ensures ReadAll(shards, c).events ==
            Flatten(seq(|shards|, k requires 0 <= k => ReplyEvents(ReplyAt(c.recordReplies, k))))
  {
    var all := seq(|shards|, k requires 0 <= k => ReplyEvents(ReplyAt(c.recordReplies, k)));
    if shards != [] {
      var c1 := c.AfterRecords(shards[0].shardIterator);
      ReadAllEvents(shards[1..], c1);
      var rest := seq(|shards| - 1, k requires 0 <= k => ReplyEvents(ReplyAt(c1.recordReplies, k)));
      assert all[1..] == rest by {
        forall k | 0 <= k < |shards| - 1
          ensures all[1..][k] == rest[k]
        {
          ReplyAtNext(c, shards[0].shardIterator, k);
        }
      }
    }
  }

  lemma FirstErrorAtUnique(replies: seq<Result<Batch>>, n: nat, k1: nat, e1: Error, k2: nat, e2: Error)
    requires FirstErrorAt(replies, n, k1, e1) && FirstErrorAt(replies, n, k2, e2)
    ensures k1 == k2 && e1 == e2
  {
  }

  // ---------------------------------------------------------------------
  // One cycle

  /** The shard list after a pass where every read was answered. */
  predicate Healthy(replies: seq<Result<Batch>>, from: nat, n: nat)
  {
    0 < n && from + n <= |replies| &&
    forall k :: from <= k < from + n ==> replies[k].Ok? && Truthy(replies[k].value.nextShardIterator)
  }

  /** The branch of a cycle whose reads all succeeded and left every shard
      an iterator. */
  lemma CycleCompletes(p: Poll, arn: Option<Arn>)
    requires p.shards.Some?
    requires var sweep := ReadAll(p.shards.value, p.client);
             sweep.firstError.None? && !sweep.unanswered && !Stale(sweep.shards)
    ensures var sweep := ReadAll(p.shards.value, p.client);
            Cycle(p, arn) == CycleRun(Poll(Some(sweep.shards), p.events + sweep.events, p.done + 1, sweep.client), Completed)
  {
  }

  /** The branch of a cycle where some read failed. */
  lemma CycleErrors(p: Poll, arn: Option<Arn>)
    requires p.shards.Some? && ReadAll(p.shards.value, p.client).firstError.Some?
    ensures var sweep := ReadAll(p.shards.value, p.client);
            var e := sweep.firstError.value;
            Cycle(p, arn) ==
              CycleRun(Poll(Some(sweep.shards), p.events + sweep.events + [ErrorEvent(e)], p.done + 1, sweep.client), Errored(e))
  {
  }

  /** Every read of a healthy pass is answered without error, and every
      shard keeps an iterator. */
  lemma HealthySweep(ss: seq<Shard>, c: StreamClient)
    requires Healthy(c.recordReplies, 0, |ss|)
    ensures var sweep := ReadAll(ss, c);
            sweep.firstError.None? && !sweep.unanswered && !Stale(sweep.shards) &&
            forall k :: 0 <= k < |ss| ==> sweep.shards[k] == Shard(ss[k].id, c.recordReplies[k].value.nextShardIterator)
  {
    var sweep := ReadAll(ss, c);
    ReadAllShards(ss, c);
    ReadAllNoError(ss, c);
    ReadAllUnanswered(ss, c);
    assert HasIterator(sweep.shards[0]);
  }

  lemma HealthyDrop(replies: seq<Result<Batch>>, from: nat, n: nat)
    requires Healthy(replies, from, n)
    ensures Healthy(replies[from..], 0, n)
  {
    forall k | 0 <= k < n
      ensures replies[from..][k] == replies[from + k]
    {
    }
  }

  /** A cycle whose reads are all answered with a next iterator completes:
      `job.done` is called once and each shard moves to its next iterator. */
  lemma HealthyCycle(p: Poll, arn: Option<Arn>)
    requires p.shards.Some? && Healthy(p.client.recordReplies, 0, |p.shards.value|)
    ensures var ss := p.shards.value;
            var r := Cycle(p, arn);
            r.end == Completed && r.state.done == p.done + 1 &&
            r.state.shards.Some? && |r.state.shards.value| == |ss| &&
            forall k :: 0 <= k < |ss| ==>
              r.state.shards.value[k] == Shard(ss[k].id, p.client.recordReplies[k].value.nextShardIterator)
  {
    HealthySweep(p.shards.value, p.client);
    CycleCompletes(p, arn);
  }

  /** What a healthy cycle emits and requests: the records in shard order,
      one `getRecords` request per shard and no rediscovery. */
  lemma HealthyCycleOutput(p: Poll, arn: Option<Arn>)
    requires p.shards.Some? && Healthy(p.client.recordReplies, 0, |p.shards.value|)
    ensures var ss := p.shards.value;
            var c := p.client;
            var r := Cycle(p, arn);
            r.state.events ==
              p.events + Flatten(seq(|ss|, k requires 0 <= k => ReplyEvents(ReplyAt(c.recordReplies, k)))) &&
            r.state.client ==
              StreamClient(c.describeReplies, c.iteratorReplies, c.recordReplies[|ss|..], c.calls + RecordCalls(ss))
  {
    var ss := p.shards.value;
    HealthySweep(ss, p.client);
    CycleCompletes(p, arn);
    ReadAllClient(ss, p.client);
    ReadAllEvents(ss, p.client);
  }

  /** Cycle-level failure isolation: when the read of some shard fails, the
      cycle ends with the first such error as one error event and one
      `job.done`; every shard whose read was answered keeps its new
      iterator, and no rediscovery is made. */
  lemma ReadFailureIsolated(p: Poll, arn: Option<Arn>, k: nat, e: Error)
    requires p.shards.Some? && FirstErrorAt(p.client.recordReplies, |p.shards.value|, k, e)
    ensures var ss := p.shards.value;
            var c := p.client;
            var r := Cycle(p, arn);
            r.end == Errored(e) && r.state.done == p.done + 1 &&
            r.state.events ==
              p.events + Flatten(seq(|ss|, k requires 0 <= k => ReplyEvents(ReplyAt(c.recordReplies, k))))
              + [ErrorEvent(e)] &&
            r.state.shards.Some? && |r.state.shards.value| == |ss| &&
            (forall j :: 0 <= j < |ss| ==> r.state.shards.value[j] == Advance(ss[j], ReplyAt(c.recordReplies, j))) &&
            r.state.client.describeReplies == c.describeReplies &&
            r.state.client.calls == c.calls + RecordCalls(ss)
  {
    var ss := p.shards.value;
    var c := p.client;
    ReadAllNoError(ss, c);
    ReadAllFirstError(ss, c);
    var k' :| FirstErrorAt(c.recordReplies, |ss|, k', ReadAll(ss, c).firstError.value);
    FirstErrorAtUnique(c.recordReplies, |ss|, k, e, k', ReadAll(ss, c).firstError.value);
    ReadAllShards(ss, c);
    ReadAllClient(ss, c);
    ReadAllEvents(ss, c);
  }

  /** Proof step: unfolds the stale branch of a cycle whose reads all
      succeeded, where the list is deleted and a discovery pass runs on the
      client as the reads left it. */
  lemma CycleRediscovers(p: Poll, arn: Option<Arn>)
    requires p.shards.Some?
    requires var sweep := ReadAll(p.shards.value, p.client);
             sweep.firstError.None? && !sweep.unanswered && Stale(sweep.shards)
    ensures var sweep := ReadAll(p.shards.value, p.client);
            var found := Discover(sweep.client, arn);
            var deleted := Poll(None, p.events + sweep.events, p.done, found.client);
            Cycle(p, arn) ==
              if found.outcome.Stalled? then CycleRun(deleted, Waiting)
              else if found.outcome.Failed? then
                CycleRun(deleted.(events := deleted.events + [ErrorEvent(found.outcome.error)], done := p.done + 1),
                         Errored(found.outcome.error))
              else Cycle(deleted.(shards := Some(found.outcome.shards)), arn)
  {
  }

  /** Whether a cycle reruns itself on a rediscovered list. */
  predicate Reruns(p: Poll, arn: Option<Arn>)
  {
    p.shards.Some? &&
    var sweep := ReadAll(p.shards.value, p.client);
    sweep.firstError.None? && !sweep.unanswered && Stale(sweep.shards) &&
    Discover(sweep.client, arn).outcome.Found?
  }

  /** The shard list a cycle goes on with after a successful rediscovery. */
  function Rediscovered(p: Poll, arn: Option<Arn>): Poll
    requires p.shards.Some?
  {
    var sweep := ReadAll(p.shards.value, p.client);
    var found := Discover(sweep.client, arn);
    Poll(if found.outcome.Found? then Some(found.outcome.shards) else None,
         p.events + sweep.events, p.done, found.client)
  }

  /** A cycle that rediscovers successfully is the cycle over the new list. */
  lemma CycleReruns(p: Poll, arn: Option<Arn>)
    requires Reruns(p, arn)
    ensures |Rediscovered(p, arn).client.describeReplies| < |p.client.describeReplies|
    ensures Cycle(p, arn) == Cycle(Rediscovered(p, arn), arn)
  {
  }

  /** `job.done` is called exactly once by a cycle that completes or ends
      with an error, and never by one that waits or throws. */
  lemma {:induction false} CycleCountsDone(p: Poll, arn: Option<Arn>)
    decreases |p.client.describeReplies|
    ensures var r := Cycle(p, arn);
            r.state.done == p.done + (if r.end.Completed? || r.end.Errored? then 1 else 0)
  {
    if Reruns(p, arn) {
      CycleReruns(p, arn);
      CycleCountsDone(Rediscovered(p, arn), arn);
    }
  }

  /** A completed cycle leaves a shard list that is not stale: non-empty,
      and every shard with an iterator. */
  lemma {:induction false} CompletedIsFresh(p: Poll, arn: Option<Arn>)
    decreases |p.client.describeReplies|
    ensures var r := Cycle(p, arn);
            r.end.Completed? ==> r.state.shards.Some? && !Stale(r.state.shards.value)
  {
    if Reruns(p, arn) {
      CycleReruns(p, arn);
      CompletedIsFresh(Rediscovered(p, arn), arn);
    }
  }

  /** A cycle that ends with an error has emitted that error as its last
      event. */
  lemma {:induction false} ErroredEmitsError(p: Poll, arn: Option<Arn>)
    decreases |p.client.describeReplies|
    ensures var r := Cycle(p, arn);
            r.end.Errored? ==> |r.state.events| > 0 && r.state.events[|r.state.events| - 1] == ErrorEvent(r.end.error)
  {
    if p.shards.Some? {
      var sweep := ReadAll(p.shards.value, p.client);
      if sweep.firstError.None? && !sweep.unanswered && Stale(sweep.shards) {
        if Reruns(p, arn) {
          CycleReruns(p, arn);
          ErroredEmitsError(Rediscovered(p, arn), arn);
        }
      }
    }
  }

  /** A cycle throws exactly when it starts without a shard list. */
  lemma {:induction false} ThrowsIffDeleted(p: Poll, arn: Option<Arn>)
    decreases |p.client.describeReplies|
    ensures Cycle(p, arn).end.Threw? <==> p.shards.None?
  {
    if Reruns(p, arn) {
      CycleReruns(p, arn);
      ThrowsIffDeleted(Rediscovered(p, arn), arn);
    }
  }

  /** A cycle only appends events. */
  lemma {:induction false} CycleAppendsEvents(p: Poll, arn: Option<Arn>)
    decreases |p.client.describeReplies|
    ensures var r := Cycle(p, arn);
            |p.events| <= |r.state.events| && r.state.events[..|p.events|] == p.events
  {
    if Reruns(p, arn) {
      var q := Rediscovered(p, arn);
      CycleReruns(p, arn);
      CycleAppendsEvents(q, arn);
      var evs := Cycle(q, arn).state.events;
      assert evs[..|q.events|][..|p.events|] == p.events;
    }
  }

  /** Reads that all succeed, on an empty list or with at least one of them
      reporting no next iterator, then a successful discovery pass: the
      cycle goes on with the shards found, on the client as the reads and
      the pass left it. */
  lemma SelfHealingRediscovers(p: Poll, arn: Option<Arn>)
    requires p.shards.Some?
    requires var n := |p.shards.value|;
             var rs := p.client.recordReplies;
             n <= |rs| && (forall k :: 0 <= k < n ==> rs[k].Ok?) &&
             (n == 0 || exists k :: 0 <= k < n && !Truthy(rs[k].value.nextShardIterator))
    requires Walk(p.client.describeReplies).Some?
    requires AllOk(p.client.iteratorReplies, |OpenAcross(Walk(p.client.describeReplies).value)|)
    ensures var ss := p.shards.value;
            var c := p.client;
            var ps := Walk(c.describeReplies).value;
            var open := OpenAcross(ps);
            |ps| <= |c.describeReplies| && |open| <= |c.iteratorReplies| &&
            Cycle(p, arn) ==
              Cycle(Poll(Some(WithIterators(open, c.iteratorReplies)), p.events + ReadAll(ss, c).events, p.done,
                         StreamClient(c.describeReplies[|ps|..], c.iteratorReplies[|open|..], c.recordReplies[|ss|..],
                                      c.calls + RecordCalls(ss) + WalkCalls(arn, None, ps))), arn)
  {
    var ss := p.shards.value;
    var c := p.client;
    var sweep := ReadAll(ss, c);
    var c1 := sweep.client;
    assert sweep.firstError.None? && !sweep.unanswered && Stale(sweep.shards) &&
           c1 == StreamClient(c.describeReplies, c.iteratorReplies, c.recordReplies[|ss|..], c.calls + RecordCalls(ss)) by {
      ReadAllShards(ss, c);
      ReadAllNoError(ss, c);
      ReadAllUnanswered(ss, c);
      ReadAllClient(ss, c);
      if |ss| > 0 {
        var k :| 0 <= k < |ss| && !Truthy(c.recordReplies[k].value.nextShardIterator);
        assert !HasIterator(sweep.shards[k]);
      }
    }
    assert Discover(c1, arn).outcome.Found? by {
      DiscoverSucceedsIff(c1, arn);
    }
    DiscoverFound(c1, arn);
    CycleRediscovers(p, arn);
  }

  /** Self-healing: when every read reports no next iterator, the cycle
      runs exactly one discovery pass, installs the shards it finds and
      reads them within the same cycle, completing once. */
  lemma SelfHealing(p: Poll, arn: Option<Arn>)
    requires p.shards.Some?
    requires var n := |p.shards.value|;
             var rs := p.client.recordReplies;
             n <= |rs| && forall k :: 0 <= k < n ==> rs[k].Ok? && !Truthy(rs[k].value.nextShardIterator)
    requires Walk(p.client.describeReplies).Some?
    requires var open := OpenAcross(Walk(p.client.describeReplies).value);
             AllOk(p.client.iteratorReplies, |open|) &&
             Healthy(p.client.recordReplies, |p.shards.value|, |open|)
    ensures var ss := p.shards.value;
            var c := p.client;
            var ps := Walk(c.describeReplies).value;
            var open := OpenAcross(ps);
            var ns := WithIterators(open, c.iteratorReplies);
            var r := Cycle(p, arn);
            r.end == Completed && r.state.done == p.done + 1 &&
            r.state.shards.Some? && |r.state.shards.value| == |open| &&
            (forall k :: 0 <= k < |open| ==> r.state.shards.value[k].id == open[k].shardId) &&
            r.state.client.calls == c.calls + RecordCalls(ss) + WalkCalls(arn, None, ps) + RecordCalls(ns)
  {
    var ss := p.shards.value;
    var c := p.client;
    var ps := Walk(c.describeReplies).value;
    var open := OpenAcross(ps);
    var ns := WithIterators(open, c.iteratorReplies);
    if |ss| > 0 {
      assert !Truthy(c.recordReplies[0].value.nextShardIterator);
    }
    SelfHealingRediscovers(p, arn);
    var next := Poll(Some(ns), p.events + ReadAll(ss, c).events, p.done,
                     StreamClient(c.describeReplies[|ps|..], c.iteratorReplies[|open|..], c.recordReplies[|ss|..],
                                  c.calls + RecordCalls(ss) + WalkCalls(arn, None, ps)));
    assert |ns| == |open| && forall k :: 0 <= k < |open| ==> ns[k].id == open[k].shardId by {
      WithIteratorsAt(open, c.iteratorReplies);
    }
    assert Healthy(next.client.recordReplies, 0, |ns|) by {
      HealthyDrop(c.recordReplies, |ss|, |ns|);
    }
    HealthyCycle(next, arn);
    assert Cycle(next, arn).state.client.calls == next.client.calls + RecordCalls(ns) by {
      HealthyCycleOutput(next, arn);
    }
  }

  /** Unbounded rediscovery: while every page lists no open shard, each
      cycle over the empty list rediscovers, finds nothing, and runs again;
      a single cycle makes one `describeStream` request per page the
      service answers plus one that is never answered, and never calls
      `job.done`. */
  lemma {:induction false} EmptyDiscoveryNeverCompletes(p: Poll, arn: Option<Arn>)
    requires p.shards == Some([])
    requires forall j :: 0 <= j < |p.client.describeReplies| ==>
               p.client.describeReplies[j].Ok? &&
               OpenShards(p.client.describeReplies[j].value.shards) == [] &&
               !Truthy(p.client.describeReplies[j].value.lastEvaluatedShardId)
    ensures var r := Cycle(p, arn);
            r.end == Waiting && r.state.done == p.done && r.state.events == p.events &&
            r.state.client.describeReplies == [] &&
            |DescribeStarts(r.state.client.calls)| == |DescribeStarts(p.client.calls)| + |p.client.describeReplies| + 1
    decreases |p.client.describeReplies|
  {
    var c := p.client;
    assert ReadAll([], c) == Reads([], [], c, None, false);
    var c1 := c.AfterDescribe(arn, None);
    assert DescribeStarts(c1.calls) == DescribeStarts(c.calls) + [None] by {
      DescribeStartsAppend(c.calls, [DescribeStream(arn, None)]);
    }
    if c.describeReplies != [] {
      var page := c.describeReplies[0].value;
      assert OpenShards(page.shards) == [];
      assert AttachFrom(c1, arn, [], 0) == DiscoveryRun(Found([]), c1);
      assert Discover(c, arn) == DiscoveryRun(Found([]), c1);
      var next := Poll(Some([]), p.events + [], p.done, c1);
      assert p.events + [] == p.events;
      assert Cycle(p, arn) == Cycle(next, arn);
      forall j | 0 <= j < |c1.describeReplies|
        ensures c1.describeReplies[j] == c.describeReplies[j + 1]
      {
      }
      EmptyDiscoveryNeverCompletes(next, arn);
    }
  }

  /** A rediscovery that fails leaves the shard list deleted: the cycle
      ends with the error, and the next cycle throws before reading
      anything. */
  lemma FailedRediscoveryThenThrows(p: Poll, arn: Option<Arn>)
    requires p.shards.Some?
    requires var sweep := ReadAll(p.shards.value, p.client);
             sweep.firstError.None? && !sweep.unanswered && Stale(sweep.shards) &&
             Discover(sweep.client, arn).outcome.Failed?
    ensures var r := Cycle(p, arn);
            r.end.Errored? && r.state.shards.None? &&
            Cycle(r.state, arn) == CycleRun(r.state, Threw)
  {
    CycleRediscovers(p, arn);
  }
}
