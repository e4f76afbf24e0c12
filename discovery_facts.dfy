/** What a discovery pass reads, keeps and requests, proved against the
    reference definitions of the `Discovery` module. */
module DiscoveryFacts {
  import opened StreamService
  import opened Discovery

  // ---------------------------------------------------------------------
  // Small facts about the reference definitions

  lemma {:induction false} WithIteratorsAppend(a: seq<ShardDescription>, b: seq<ShardDescription>,
                                               replies: seq<Result<Option<Iterator>>>)
    requires |a| + |b| <= |replies|
    ensures WithIterators(a + b, replies) == WithIterators(a, replies) + WithIterators(b, replies[|a|..])
  {
    if a == [] {
      assert a + b == b;
    } else {
      assert (a + b)[0] == a[0] && (a + b)[1..] == a[1..] + b;
      WithIteratorsAppend(a[1..], b, replies[1..]);
      assert replies[1..][|a| - 1..] == replies[|a|..];
    }
  }

  lemma AllOkAppend(replies: seq<Result<Option<Iterator>>>, m: nat, n: nat)
    requires m <= |replies| && AllOk(replies, m) && AllOk(replies[m..], n)
    ensures AllOk(replies, m + n)
  {
    forall k | m <= k < m + n
      ensures replies[k].Ok?
    {
      assert replies[m..][k - m] == replies[k];
    }
  }

  lemma AllOkDrop(replies: seq<Result<Option<Iterator>>>, m: nat, n: nat)
    requires AllOk(replies, m + n)
    ensures AllOk(replies, m) && AllOk(replies[m..], n)
  {
    forall k | 0 <= k < n
      ensures replies[m..][k].Ok?
    {
      assert replies[m..][k] == replies[m + k];
    }
  }

  lemma WalkNext(replies: seq<Result<Page>>)
    requires replies != [] && replies[0].Ok? && Truthy(replies[0].value.lastEvaluatedShardId)
    requires Walk(replies[1..]).Some?
    ensures Walk(replies) == Some([replies[0].value] + Walk(replies[1..]).value)
  {
  }

  lemma OpenAcrossCons(page: Page, rest: seq<Page>)
    ensures OpenAcross([page] + rest) == OpenShards(page.shards) + OpenAcross(rest)
  {
    assert ([page] + rest)[1..] == rest;
  }

  lemma WalkCallsCons(arn: Option<Arn>, start: Option<ShardId>, page: Page, rest: seq<Page>)
    ensures WalkCalls(arn, start, [page] + rest) ==
            [DescribeStream(arn, start)] + IteratorCalls(arn, OpenShards(page.shards))
            + WalkCalls(arn, page.lastEvaluatedShardId, rest)
  {
    assert ([page] + rest)[1..] == rest;
  }

  lemma AppendAssoc<T>(a: seq<T>, b: seq<T>, c: seq<T>)
    ensures (a + b) + c == a + (b + c)
  {
  }

  lemma DropDrop<T>(s: seq<T>, a: nat, b: nat)
    requires a + b <= |s|
    ensures s[a..][b..] == s[a + b..]
  {
  }

  lemma CallsChain(before: seq<Call>, head: seq<Call>, mid: seq<Call>, tail: seq<Call>)
    requires mid == before + head
    ensures mid + tail == before + (head + tail)
  {
  }

  /** Shards put in front twice are put in front once, in order. */
  lemma PrependPrepend(a: seq<Shard>, b: seq<Shard>, r: DiscoveryRun)
    ensures Prepend(a, Prepend(b, r)) == Prepend(a + b, r)
  {
    if r.outcome.Found? {
      assert a + (b + r.outcome.shards) == (a + b) + r.outcome.shards;
    }
  }

  // ---------------------------------------------------------------------
  // The iterator requests of one page

  /** One iterator request answered without error. */
  lemma AttachFromNext(c: StreamClient, arn: Option<Arn>, open: seq<ShardDescription>, i: nat)
    requires i < |open| && c.iteratorReplies != [] && c.iteratorReplies[0].Ok?
    ensures AttachFrom(c, arn, open, i) ==
            Prepend([Shard(open[i].shardId, c.iteratorReplies[0].value)], AttachFrom(c.AfterIterator(arn, open[i].shardId), arn, open, i + 1))
  {
  }

  /** A page's iterator requests succeed exactly when the next replies are
      all answers without error; the shards then carry those iterators, in
      order. */
  lemma {:induction false} AttachFromFound(c: StreamClient, arn: Option<Arn>, open: seq<ShardDescription>, i: nat)
    requires i <= |open|
    ensures AttachFrom(c, arn, open, i).outcome.Found? <==> AllOk(c.iteratorReplies, |open| - i)
    ensures AttachFrom(c, arn, open, i).outcome.Found? ==>
              AttachFrom(c, arn, open, i).outcome.shards == WithIterators(open[i..], c.iteratorReplies)
    decreases |open| - i
  {
    if i < |open| {
      var c1 := c.AfterIterator(arn, open[i].shardId);
      AttachFromFound(c1, arn, open, i + 1);
      assert open[i..][0] == open[i] && open[i..][1..] == open[i + 1..];
      if c.iteratorReplies != [] && c.iteratorReplies[0].Ok? && AllOk(c1.iteratorReplies, |open| - i - 1) {
        assert AllOk(c.iteratorReplies, |open| - i) by {
          forall k | 0 < k < |open| - i
            ensures c.iteratorReplies[k].Ok?
          {
            assert c1.iteratorReplies[k - 1] == c.iteratorReplies[k];
          }
        }
      }
      if AllOk(c.iteratorReplies, |open| - i) {
        assert c.iteratorReplies[0].Ok?;
        assert AllOk(c1.iteratorReplies, |open| - i - 1) by {
          forall k | 0 <= k < |open| - i - 1
            ensures c1.iteratorReplies[k].Ok?
          {
            assert c1.iteratorReplies[k] == c.iteratorReplies[k + 1];
          }
        }
      }
    }
  }

  /** A successful page uses up one iterator reply per open shard and logs
      one LATEST request per open shard. */
  lemma {:induction false} AttachFromClient(c: StreamClient, arn: Option<Arn>, open: seq<ShardDescription>, i: nat)
    requires i <= |open| && AttachFrom(c, arn, open, i).outcome.Found?
    ensures |open| - i <= |c.iteratorReplies|
    ensures AttachFrom(c, arn, open, i).client ==
            StreamClient(c.describeReplies, c.iteratorReplies[|open| - i..], c.recordReplies,
                         c.calls + IteratorCalls(arn, open[i..]))
    decreases |open| - i
  {
    if i == |open| {
      assert c.iteratorReplies[0..] == c.iteratorReplies;
      assert c.calls + [] == c.calls;
    } else {
      var c1 := c.AfterIterator(arn, open[i].shardId);
      var call := GetShardIterator(arn, open[i].shardId, Latest);
      assert c.iteratorReplies != [] && c.iteratorReplies[0].Ok?;
      assert AttachFrom(c1, arn, open, i + 1).outcome.Found? &&
             AttachFrom(c, arn, open, i).client == AttachFrom(c1, arn, open, i + 1).client by {
        AttachFromNext(c, arn, open, i);
      }
      AttachFromClient(c1, arn, open, i + 1);
      assert c1.iteratorReplies[|open| - (i + 1)..] == c.iteratorReplies[|open| - i..] by {
        DropDrop(c.iteratorReplies, 1, |open| - (i + 1));
      }
      assert IteratorCalls(arn, open[i..]) == [call] + IteratorCalls(arn, open[i + 1..]) by {
        assert open[i..][0] == open[i] && open[i..][1..] == open[i + 1..];
      }
      AppendAssoc(c.calls, [call], IteratorCalls(arn, open[i + 1..]));
    }
  }

  /** A page fails with the error of the first iterator reply that is an
      error, all replies before it being answers. */
  lemma {:induction false} AttachFromFailed(c: StreamClient, arn: Option<Arn>, open: seq<ShardDescription>, i: nat)
    requires i <= |open| && AttachFrom(c, arn, open, i).outcome.Failed?
    ensures exists k :: 0 <= k < |open| - i && k < |c.iteratorReplies| && AllOk(c.iteratorReplies, k)
                        && c.iteratorReplies[k] == Err(AttachFrom(c, arn, open, i).outcome.error)
    decreases |open| - i
  {
    if c.iteratorReplies[0].Err? {
      assert AllOk(c.iteratorReplies, 0);
    } else {
      var c1 := c.AfterIterator(arn, open[i].shardId);
      AttachFromFailed(c1, arn, open, i + 1);
      var k :| 0 <= k < |open| - i - 1 && k < |c1.iteratorReplies| && AllOk(c1.iteratorReplies, k)
               && c1.iteratorReplies[k] == Err(AttachFrom(c, arn, open, i).outcome.error);
      assert c.iteratorReplies[k + 1] == c1.iteratorReplies[k];
      assert AllOk(c.iteratorReplies, k + 1) by {
        forall j | 0 < j < k + 1
          ensures c.iteratorReplies[j].Ok?
        {
          assert c.iteratorReplies[j] == c1.iteratorReplies[j - 1];
        }
      }
    }
  }

  /** Conversely, when the reply for the `k`-th remaining shard is an error
      and every reply before it is an answer, the page fails with exactly
      that error. */
  lemma {:induction false} AttachFromFailsOnError(c: StreamClient, arn: Option<Arn>, open: seq<ShardDescription>, i: nat, k: nat)
    requires i <= |open| && k < |open| - i && k < |c.iteratorReplies|
    requires AllOk(c.iteratorReplies, k) && c.iteratorReplies[k].Err?
    ensures AttachFrom(c, arn, open, i).outcome == Failed(c.iteratorReplies[k].error)
    decreases k
  {
    if k > 0 {
      var c1 := c.AfterIterator(arn, open[i].shardId);
      assert c1.iteratorReplies == c.iteratorReplies[1..];
      assert AllOk(c1.iteratorReplies, k - 1) by {
        forall j | 0 <= j < k - 1
          ensures c1.iteratorReplies[j].Ok?
        {
          assert c1.iteratorReplies[j] == c.iteratorReplies[j + 1];
        }
      }
      AttachFromFailsOnError(c1, arn, open, i + 1, k - 1);
      AttachFromNext(c, arn, open, i);
    }
  }

  // ---------------------------------------------------------------------
  // The walk over the pages

  /** One step of the walk, with the page's iterator requests named. */
  lemma DiscoverFromNext(c: StreamClient, arn: Option<Arn>, start: Option<ShardId>)
    requires c.describeReplies != [] && c.describeReplies[0].Ok?
    ensures var page := c.describeReplies[0].value;
            var att := AttachFrom(c.AfterDescribe(arn, start), arn, OpenShards(page.shards), 0);
            DiscoverFrom(c, arn, start) ==
              if !att.outcome.Found? || !Truthy(page.lastEvaluatedShardId) then att
              else Prepend(att.outcome.shards, DiscoverFrom(att.client, arn, page.lastEvaluatedShardId))
  {
  }

  /** A `describeStream` call that is not answered, or answered with an
      error, stalls the walk. */
  lemma DiscoverFromStalls(c: StreamClient, arn: Option<Arn>, start: Option<ShardId>)
    requires c.describeReplies == [] || c.describeReplies[0].Err?
    ensures DiscoverFrom(c, arn, start) == DiscoveryRun(Stalled, c.AfterDescribe(arn, start))
  {
  }

  /** The first step of a successful walk: its page was answered, the
      page's iterators were all attached, and the walk either ends with
      that page or goes on successfully from its `LastEvaluatedShardId`. */
  lemma DiscoverFromRest(c: StreamClient, arn: Option<Arn>, start: Option<ShardId>)
    requires DiscoverFrom(c, arn, start).outcome.Found?
    ensures c.describeReplies != [] && c.describeReplies[0].Ok?
    ensures var page := c.describeReplies[0].value;
            var att := AttachFrom(c.AfterDescribe(arn, start), arn, OpenShards(page.shards), 0);
            att.outcome.Found? && att.client.describeReplies == c.describeReplies[1..] &&
            if Truthy(page.lastEvaluatedShardId) then
              DiscoverFrom(att.client, arn, page.lastEvaluatedShardId).outcome.Found? &&
              DiscoverFrom(c, arn, start).client == DiscoverFrom(att.client, arn, page.lastEvaluatedShardId).client
            else DiscoverFrom(c, arn, start) == att
  {
    DiscoverFromNext(c, arn, start);
  }

  /** A successful walk has read a complete run of pages, every iterator
      request on the way was answered without error, and the shards are the
      open shards of those pages, each with the iterator of its reply. */
  lemma {:induction false} DiscoverFromShards(c: StreamClient, arn: Option<Arn>, start: Option<ShardId>)
    requires DiscoverFrom(c, arn, start).outcome.Found?
    ensures Walk(c.describeReplies).Some?
    ensures var open := OpenAcross(Walk(c.describeReplies).value);
            AllOk(c.iteratorReplies, |open|) &&
            DiscoverFrom(c, arn, start).outcome.shards == WithIterators(open, c.iteratorReplies)
    decreases |c.describeReplies|
  {
    DiscoverFromRest(c, arn, start);
    var page := c.describeReplies[0].value;
    var c1 := c.AfterDescribe(arn, start);
    var open0 := OpenShards(page.shards);
    var att := AttachFrom(c1, arn, open0, 0);
    assert AllOk(c.iteratorReplies, |open0|) && att.outcome.shards == WithIterators(open0, c.iteratorReplies) by {
      AttachFromFound(c1, arn, open0, 0);
      assert open0[0..] == open0;
    }
    if Truthy(page.lastEvaluatedShardId) {
      var next := page.lastEvaluatedShardId;
      var c2 := att.client;
      assert c2.iteratorReplies == c.iteratorReplies[|open0|..] by {
        AttachFromClient(c1, arn, open0, 0);
      }
      var restRun := DiscoverFrom(c2, arn, next);
      assert DiscoverFrom(c, arn, start) == Prepend(att.outcome.shards, restRun) by {
        DiscoverFromNext(c, arn, start);
      }
      DiscoverFromShards(c2, arn, next);
      var rest := Walk(c2.describeReplies).value;
      assert Walk(c.describeReplies) == Some([page] + rest) by { WalkNext(c.describeReplies); }
      assert OpenAcross([page] + rest) == open0 + OpenAcross(rest) by { OpenAcrossCons(page, rest); }
      AllOkAppend(c.iteratorReplies, |open0|, |OpenAcross(rest)|);
      WithIteratorsAppend(open0, OpenAcross(rest), c.iteratorReplies);
    } else {
      assert OpenAcross([page]) == open0 by { OpenAcrossCons(page, []); assert open0 + [] == open0; }
    }
  }


  /** A successful walk uses up exactly the pages it read. */
  lemma {:induction false} DiscoverFromPages(c: StreamClient, arn: Option<Arn>, start: Option<ShardId>)
    requires DiscoverFrom(c, arn, start).outcome.Found?
    ensures Walk(c.describeReplies).Some?
    ensures |Walk(c.describeReplies).value| <= |c.describeReplies|
    ensures DiscoverFrom(c, arn, start).client.describeReplies == c.describeReplies[|Walk(c.describeReplies).value|..]
    decreases |c.describeReplies|
  {
    DiscoverFromRest(c, arn, start);
    var page := c.describeReplies[0].value;
    var att := AttachFrom(c.AfterDescribe(arn, start), arn, OpenShards(page.shards), 0);
    var c2 := att.client;
    if Truthy(page.lastEvaluatedShardId) {
      var next := page.lastEvaluatedShardId;
      DiscoverFromPages(c2, arn, next);
      var rest := Walk(c2.describeReplies).value;
      assert Walk(c.describeReplies) == Some([page] + rest) by { WalkNext(c.describeReplies); }
      DropDrop(c.describeReplies, 1, |rest|);
    }
  }


  /** The first step of a successful walk, in terms of the client the
      walk goes on with: the page and one iterator reply per open shard of
      it are used up. */
  lemma DiscoverFromAfterPage(c: StreamClient, arn: Option<Arn>, start: Option<ShardId>) returns (c2: StreamClient)
    requires DiscoverFrom(c, arn, start).outcome.Found?
    ensures c.describeReplies != [] && c.describeReplies[0].Ok?
    ensures var open0 := OpenShards(c.describeReplies[0].value.shards);
            |open0| <= |c.iteratorReplies| && c2.iteratorReplies == c.iteratorReplies[|open0|..]
    ensures c2.describeReplies == c.describeReplies[1..]
    ensures var next := c.describeReplies[0].value.lastEvaluatedShardId;
            Truthy(next) ==> DiscoverFrom(c2, arn, next).outcome.Found? &&
                             DiscoverFrom(c, arn, start).client == DiscoverFrom(c2, arn, next).client
    ensures !Truthy(c.describeReplies[0].value.lastEvaluatedShardId) ==>
              DiscoverFrom(c, arn, start).client == c2
  {
    assert c.describeReplies != [] && c.describeReplies[0].Ok? by { DiscoverFromRest(c, arn, start); }
    var page := c.describeReplies[0].value;
    var c1 := c.AfterDescribe(arn, start);
    var open0 := OpenShards(page.shards);
    var att := AttachFrom(c1, arn, open0, 0);
    c2 := att.client;
    var next := page.lastEvaluatedShardId;
    assert att.outcome.Found? && c2.describeReplies == c.describeReplies[1..] &&
           (Truthy(next) ==> DiscoverFrom(c2, arn, next).outcome.Found? &&
                             DiscoverFrom(c, arn, start).client == DiscoverFrom(c2, arn, next).client) &&
           (!Truthy(next) ==> DiscoverFrom(c, arn, start).client == c2) by {
      DiscoverFromRest(c, arn, start);
    }
    assert |open0| <= |c.iteratorReplies| && c2.iteratorReplies == c.iteratorReplies[|open0|..] by {
      assert c1.iteratorReplies == c.iteratorReplies;
      AttachFromClient(c1, arn, open0, 0);
    }
  }

  /** The number of open shards of a complete run of pages, counted from
      its first page. */
  lemma WalkOpenCount(replies: seq<Result<Page>>)
    requires replies != [] && replies[0].Ok?
    requires Truthy(replies[0].value.lastEvaluatedShardId) ==> Walk(replies[1..]).Some?
    ensures Walk(replies).Some?
    ensures |OpenAcross(Walk(replies).value)| ==
            |OpenShards(replies[0].value.shards)| +
            (if Truthy(replies[0].value.lastEvaluatedShardId) then |OpenAcross(Walk(replies[1..]).value)| else 0)
  {
    var page := replies[0].value;
    if Truthy(page.lastEvaluatedShardId) {
      WalkNext(replies);
      OpenAcrossCons(page, Walk(replies[1..]).value);
    } else {
      OpenAcrossCons(page, []);
    }
  }

  /** A successful walk uses up one iterator reply per open shard of the
      pages it read. */
  lemma {:induction false} DiscoverFromIterators(c: StreamClient, arn: Option<Arn>, start: Option<ShardId>)
    requires DiscoverFrom(c, arn, start).outcome.Found?
    ensures Walk(c.describeReplies).Some?
    ensures |OpenAcross(Walk(c.describeReplies).value)| <= |c.iteratorReplies|
    ensures DiscoverFrom(c, arn, start).client.iteratorReplies ==
            c.iteratorReplies[|OpenAcross(Walk(c.describeReplies).value)|..]
    decreases |c.describeReplies|
  {
    var c2 := DiscoverFromAfterPage(c, arn, start);
    var page := c.describeReplies[0].value;
    var m0 := |OpenShards(page.shards)|;
    var its := c.iteratorReplies;
    if Truthy(page.lastEvaluatedShardId) {
      var next := page.lastEvaluatedShardId;
      DiscoverFromIterators(c2, arn, next);
      var n := |OpenAcross(Walk(c2.describeReplies).value)|;
      WalkOpenCount(c.describeReplies);
      var m := |OpenAcross(Walk(c.describeReplies).value)|;
      assert m == m0 + n;
      calc {
        DiscoverFrom(c, arn, start).client.iteratorReplies;
        DiscoverFrom(c2, arn, next).client.iteratorReplies;
        c2.iteratorReplies[n..];
        its[m0..][n..];
        { DropDrop(its, m0, n); }
        its[m..];
      }
    } else {
      WalkOpenCount(c.describeReplies);
      assert DiscoverFrom(c, arn, start).client.iteratorReplies == its[m0..];
    }
  }

  /** A successful walk makes exactly the requests of `WalkCalls`. */
  lemma {:induction false} DiscoverFromCalls(c: StreamClient, arn: Option<Arn>, start: Option<ShardId>)
    requires DiscoverFrom(c, arn, start).outcome.Found?
    ensures Walk(c.describeReplies).Some?
    ensures DiscoverFrom(c, arn, start).client.calls == c.calls + WalkCalls(arn, start, Walk(c.describeReplies).value)
    decreases |c.describeReplies|
  {
    DiscoverFromRest(c, arn, start);
    var page := c.describeReplies[0].value;
    var c1 := c.AfterDescribe(arn, start);
    var open0 := OpenShards(page.shards);
    var att := AttachFrom(c1, arn, open0, 0);
    var c2 := att.client;
    var head := [DescribeStream(arn, start)] + IteratorCalls(arn, open0);
    assert c2.calls == c.calls + head by {
      AttachFromClient(c1, arn, open0, 0);
      assert open0[0..] == open0;
      AppendAssoc(c.calls, [DescribeStream(arn, start)], IteratorCalls(arn, open0));
    }
    if Truthy(page.lastEvaluatedShardId) {
      var next := page.lastEvaluatedShardId;
      DiscoverFromCalls(c2, arn, next);
      var rest := Walk(c2.describeReplies).value;
      assert Walk(c.describeReplies) == Some([page] + rest) by { WalkNext(c.describeReplies); }
      assert c2.calls + WalkCalls(arn, next, rest) == c.calls + WalkCalls(arn, start, [page] + rest) by {
        CallsChain(c.calls, head, c2.calls, WalkCalls(arn, next, rest));
        WalkCallsCons(arn, start, page, rest);
      }
    } else {
      assert WalkCalls(arn, start, [page]) == head by { WalkCallsCons(arn, start, page, []); assert head + [] == head; }
    }
  }

  /** A walk succeeds when its pages are all there and every iterator
      request it makes is answered without error. */
  lemma {:induction false} DiscoverFromComplete(c: StreamClient, arn: Option<Arn>, start: Option<ShardId>)
    requires Walk(c.describeReplies).Some?
    requires AllOk(c.iteratorReplies, |OpenAcross(Walk(c.describeReplies).value)|)
    ensures DiscoverFrom(c, arn, start).outcome.Found?
    decreases |c.describeReplies|
  {
    var page := c.describeReplies[0].value;
    var c1 := c.AfterDescribe(arn, start);
    var open0 := OpenShards(page.shards);
    var att := AttachFrom(c1, arn, open0, 0);
    var ps := Walk(c.describeReplies).value;
    assert OpenAcross(ps) == open0 + OpenAcross(ps[1..]);
    assert AllOk(c.iteratorReplies, |open0|);
    assert att.outcome.Found? by { AttachFromFound(c1, arn, open0, 0); }
    if Truthy(page.lastEvaluatedShardId) {
      var next := page.lastEvaluatedShardId;
      var c2 := att.client;
      assert c2.describeReplies == c.describeReplies[1..] && c2.iteratorReplies == c.iteratorReplies[|open0|..] by {
        AttachFromClient(c1, arn, open0, 0);
      }
      assert Walk(c2.describeReplies) == Some(ps[1..]);
      assert AllOk(c2.iteratorReplies, |OpenAcross(ps[1..])|) by {
        forall k | 0 <= k < |OpenAcross(ps[1..])|
          ensures c2.iteratorReplies[k].Ok?
        {
          assert c2.iteratorReplies[k] == c.iteratorReplies[|open0| + k];
        }
      }
      DiscoverFromComplete(c2, arn, next);
      DiscoverFromNext(c, arn, start);
    } else {
      DiscoverFromNext(c, arn, start);
    }
  }

  /** A walk fails only with the error of an iterator reply, the first one
      that is an error. */
  lemma {:induction false} DiscoverFromFailed(c: StreamClient, arn: Option<Arn>, start: Option<ShardId>)
    requires DiscoverFrom(c, arn, start).outcome.Failed?
    ensures exists k :: 0 <= k < |c.iteratorReplies| && AllOk(c.iteratorReplies, k)
                        && c.iteratorReplies[k] == Err(DiscoverFrom(c, arn, start).outcome.error)
    decreases |c.describeReplies|
  {
    var e := DiscoverFrom(c, arn, start).outcome.error;
    assert c.describeReplies != [] && c.describeReplies[0].Ok? by {
      if c.describeReplies == [] || c.describeReplies[0].Err? {
        DiscoverFromStalls(c, arn, start);
      }
    }
    var page := c.describeReplies[0].value;
    var c1 := c.AfterDescribe(arn, start);
    var open0 := OpenShards(page.shards);
    var att := AttachFrom(c1, arn, open0, 0);
    var next := page.lastEvaluatedShardId;
    var c2 := att.client;
    assert att.outcome.Failed? || att.outcome.Found?;
    if att.outcome.Failed? {
      assert att.outcome.error == e by { DiscoverFromNext(c, arn, start); }
      AttachFromFailed(c1, arn, open0, 0);
    } else {
      assert DiscoverFrom(c2, arn, next).outcome == Failed(e) by { DiscoverFromNext(c, arn, start); }
      assert c2.iteratorReplies == c.iteratorReplies[|open0|..] && AllOk(c.iteratorReplies, |open0|) by {
        AttachFromClient(c1, arn, open0, 0);
        AttachFromFound(c1, arn, open0, 0);
      }
      DiscoverFromFailed(c2, arn, next);
      var k :| 0 <= k < |c2.iteratorReplies| && AllOk(c2.iteratorReplies, k) && c2.iteratorReplies[k] == Err(e);
      var w := |open0| + k;
      assert 0 <= w < |c.iteratorReplies| && AllOk(c.iteratorReplies, w) && c.iteratorReplies[w] == Err(e) by {
        AllOkAppend(c.iteratorReplies, |open0|, k);
      }
    }
  }

  /** Conversely, when the answered pages reach the `k`-th open shard, an
      error in the reply for it, every reply before it being an answer,
      fails the walk with exactly that error: it neither stalls nor
      succeeds, whatever the later pages would be. */
  lemma {:induction false} DiscoverFromFailsOnError(c: StreamClient, arn: Option<Arn>, start: Option<ShardId>, k: nat)
    requires Reaches(c.describeReplies, k)
    requires k < |c.iteratorReplies| && AllOk(c.iteratorReplies, k) && c.iteratorReplies[k].Err?
    ensures DiscoverFrom(c, arn, start).outcome == Failed(c.iteratorReplies[k].error)
    decreases |c.describeReplies|
  {
    var page := c.describeReplies[0].value;
    var c1 := c.AfterDescribe(arn, start);
    var open0 := OpenShards(page.shards);
    DiscoverFromNext(c, arn, start);
    if k < |open0| {
      AttachFromFailsOnError(c1, arn, open0, 0, k);
    } else {
      AllOkDrop(c.iteratorReplies, |open0|, k - |open0|);
      AttachFromFound(c1, arn, open0, 0);
      AttachFromClient(c1, arn, open0, 0);
      DiscoverFromFailsOnError(AttachFrom(c1, arn, open0, 0).client, arn, page.lastEvaluatedShardId, k - |open0|);
    }
  }

  /** A complete run of pages reaches each of its open shards. */
  lemma {:induction false} WalkReaches(replies: seq<Result<Page>>, k: nat)
    requires Walk(replies).Some? && k < |OpenAcross(Walk(replies).value)|
    ensures Reaches(replies, k)
    decreases |replies|
  {
    var page := replies[0].value;
    var n := |OpenShards(page.shards)|;
    if Truthy(page.lastEvaluatedShardId) {
      var rest := Walk(replies[1..]).value;
      OpenAcrossCons(page, rest);
      if k >= n {
        WalkReaches(replies[1..], k - n);
      }
    } else {
      OpenAcrossCons(page, []);
    }
  }

  // ---------------------------------------------------------------------
  // Facts about the reference definitions used by the statements below

  /** Shard `k` of `WithIterators` is open shard `k` with the iterator of
      reply `k`. */
  lemma {:induction false} WithIteratorsAt(open: seq<ShardDescription>, replies: seq<Result<Option<Iterator>>>)
    requires |open| <= |replies|
    ensures |WithIterators(open, replies)| == |open|
    ensures forall k :: 0 <= k < |open| ==>
              WithIterators(open, replies)[k] == Shard(open[k].shardId, IteratorOf(replies[k]))
  {
    if open != [] {
      WithIteratorsAt(open[1..], replies[1..]);
      forall k | 0 < k < |open|
        ensures WithIterators(open, replies)[k] == Shard(open[k].shardId, IteratorOf(replies[k]))
      {
        assert open[1..][k - 1] == open[k] && replies[1..][k - 1] == replies[k];
      }
    }
  }

  /** The shards kept across the pages are the open ones of those pages. */
  lemma {:induction false} OpenAcrossMembers(ps: seq<Page>)
    ensures forall d :: d in OpenAcross(ps) <==> IsOpen(d) && exists j :: 0 <= j < |ps| && d in ps[j].shards
  {
    if ps != [] {
      OpenAcrossMembers(ps[1..]);
      forall d | IsOpen(d) && (exists j :: 0 <= j < |ps| && d in ps[j].shards)
        ensures d in OpenAcross(ps)
      {
        var j :| 0 <= j < |ps| && d in ps[j].shards;
        if j > 0 {
          assert ps[1..][j - 1] == ps[j];
        }
      }
      forall d | d in OpenAcross(ps[1..])
        ensures exists j :: 0 <= j < |ps| && d in ps[j].shards
      {
        var j :| 0 <= j < |ps| - 1 && d in ps[1..][j].shards;
        assert ps[j + 1] == ps[1..][j];
      }
    }
  }

  lemma {:induction false} DescribeStartsAppend(a: seq<Call>, b: seq<Call>)
    ensures DescribeStarts(a + b) == DescribeStarts(a) + DescribeStarts(b)
  {
    if a == [] {
      assert a + b == b;
    } else {
      assert (a + b)[0] == a[0] && (a + b)[1..] == a[1..] + b;
      DescribeStartsAppend(a[1..], b);
    }
  }

  lemma {:induction false} IteratorCallsStarts(arn: Option<Arn>, open: seq<ShardDescription>)
    ensures DescribeStarts(IteratorCalls(arn, open)) == []
  {
    if open != [] {
      IteratorCallsStarts(arn, open[1..]);
      DescribeStartsAppend([GetShardIterator(arn, open[0].shardId, Latest)], IteratorCalls(arn, open[1..]));
    }
  }

  /** A walk makes one `describeStream` request per page: the first from
      `start`, each later one from the previous page's
      `LastEvaluatedShardId`. */
  lemma {:induction false} WalkCallsStarts(arn: Option<Arn>, start: Option<ShardId>, ps: seq<Page>)
    ensures var starts := DescribeStarts(WalkCalls(arn, start, ps));
            |starts| == |ps| &&
            (|ps| > 0 ==> starts[0] == start) &&
            forall j :: 0 < j < |ps| ==> starts[j] == ps[j - 1].lastEvaluatedShardId
    decreases |ps|
  {
    if ps != [] {
      var head := [DescribeStream(arn, start)];
      var its := IteratorCalls(arn, OpenShards(ps[0].shards));
      var tail := WalkCalls(arn, ps[0].lastEvaluatedShardId, ps[1..]);
      WalkCallsStarts(arn, ps[0].lastEvaluatedShardId, ps[1..]);
      IteratorCallsStarts(arn, OpenShards(ps[0].shards));
      DescribeStartsAppend(head + its, tail);
      DescribeStartsAppend(head, its);
      assert DescribeStarts(head) == [start];
      var starts := DescribeStarts(WalkCalls(arn, start, ps));
      assert starts == [start] + DescribeStarts(tail);
      forall j | 0 < j < |ps|
        ensures starts[j] == ps[j - 1].lastEvaluatedShardId
      {
        if j > 1 {
          assert ps[1..][j - 2] == ps[j - 1];
        }
      }
    }
  }

  /** The pages of a complete walk are the first replies, in order; every
      page but the last has a `LastEvaluatedShardId` and the last has none. */
  lemma {:induction false} WalkPages(replies: seq<Result<Page>>)
    requires Walk(replies).Some?
    ensures var ps := Walk(replies).value;
            0 < |ps| <= |replies| &&
            (forall j :: 0 <= j < |ps| ==> replies[j] == Ok(ps[j])) &&
            (forall j :: 0 <= j < |ps| - 1 ==> Truthy(ps[j].lastEvaluatedShardId)) &&
            !Truthy(ps[|ps| - 1].lastEvaluatedShardId)
  {
    if Truthy(replies[0].value.lastEvaluatedShardId) {
      WalkPages(replies[1..]);
      var ps := Walk(replies).value;
      assert ps[1..] == Walk(replies[1..]).value;
      forall j | 0 < j < |ps|
        ensures replies[j] == Ok(ps[j])
      {
        assert replies[1..][j - 1] == replies[j];
      }
    }
  }

  // ---------------------------------------------------------------------
  // A whole discovery pass

  /** Discovery succeeds exactly when the `describeStream` replies hold a
      complete run of pages and every iterator request is answered without
      error. */
  lemma DiscoverSucceedsIff(c: StreamClient, arn: Option<Arn>)
    ensures Discover(c, arn).outcome.Found? <==>
            Walk(c.describeReplies).Some? &&
            AllOk(c.iteratorReplies, |OpenAcross(Walk(c.describeReplies).value)|)
  {
    if Discover(c, arn).outcome.Found? {
      DiscoverFromShards(c, arn, None);
    }
    if Walk(c.describeReplies).Some? && AllOk(c.iteratorReplies, |OpenAcross(Walk(c.describeReplies).value)|) {
      DiscoverFromComplete(c, arn, None);
    }
  }

  /** What a successful pass gives: the open shards of every page read, in
      order, each with its LATEST iterator; the pages and iterator replies it
      used up; and its requests. */
  lemma DiscoverFound(c: StreamClient, arn: Option<Arn>)
    requires Discover(c, arn).outcome.Found?
    ensures Walk(c.describeReplies).Some?
    ensures var ps := Walk(c.describeReplies).value;
            var open := OpenAcross(ps);
            var r := Discover(c, arn);
            |ps| <= |c.describeReplies| && |open| <= |c.iteratorReplies| &&
            r.outcome.shards == WithIterators(open, c.iteratorReplies) &&
            r.client == StreamClient(c.describeReplies[|ps|..], c.iteratorReplies[|open|..], c.recordReplies,
                                     c.calls + WalkCalls(arn, None, ps))
  {
    DiscoverFromShards(c, arn, None);
    DiscoverFromPages(c, arn, None);
    DiscoverFromIterators(c, arn, None);
    DiscoverFromCalls(c, arn, None);
  }

  /** Every shard found is open, was listed on a page read, and carries the
      iterator answered for it; none is missing. */
  lemma DiscoverKeepsOpenShards(c: StreamClient, arn: Option<Arn>)
    requires Discover(c, arn).outcome.Found?
    ensures Walk(c.describeReplies).Some?
    ensures var ps := Walk(c.describeReplies).value;
            var open := OpenAcross(ps);
            var ws := Discover(c, arn).outcome.shards;
            |ws| == |open| <= |c.iteratorReplies| &&
            (forall k :: 0 <= k < |ws| ==>
               IsOpen(open[k]) && (exists j :: 0 <= j < |ps| && open[k] in ps[j].shards) &&
               c.iteratorReplies[k].Ok? && ws[k] == Shard(open[k].shardId, c.iteratorReplies[k].value)) &&
            (forall j, d :: 0 <= j < |ps| && d in ps[j].shards && IsOpen(d) ==> d in open)
  {
    DiscoverFromShards(c, arn, None);
    var ps := Walk(c.describeReplies).value;
    var open := OpenAcross(ps);
    var ws := Discover(c, arn).outcome.shards;
    assert ws == WithIterators(open, c.iteratorReplies);
    WithIteratorsAt(open, c.iteratorReplies);
    OpenAcrossMembers(ps);
    forall k | 0 <= k < |ws|
      ensures IsOpen(open[k]) && (exists j :: 0 <= j < |ps| && open[k] in ps[j].shards) &&
              c.iteratorReplies[k].Ok? && ws[k] == Shard(open[k].shardId, c.iteratorReplies[k].value)
    {
      assert open[k] in open;
    }
  }

  /** Pagination: one `describeStream` request per page read, the first
      without `ExclusiveStartShardId`, each later one from the previous
      page's `LastEvaluatedShardId`; the walk stops at the first page
      without one. */
  lemma DiscoverPagination(c: StreamClient, arn: Option<Arn>)
    requires Discover(c, arn).outcome.Found?
    ensures Walk(c.describeReplies).Some?
    ensures var ps := Walk(c.describeReplies).value;
            var starts := DescribeStarts(Discover(c, arn).client.calls);
            var before := |DescribeStarts(c.calls)|;
            0 < |ps| <= |c.describeReplies| &&
            (forall j :: 0 <= j < |ps| ==> c.describeReplies[j] == Ok(ps[j])) &&
            (forall j :: 0 <= j < |ps| - 1 ==> Truthy(ps[j].lastEvaluatedShardId)) &&
            !Truthy(ps[|ps| - 1].lastEvaluatedShardId) &&
            |starts| == before + |ps| &&
            starts[..before] == DescribeStarts(c.calls) &&
            starts[before] == None &&
            (forall j :: 0 <= j < |ps| - 1 ==> starts[before + 1 + j] == ps[j].lastEvaluatedShardId)
  {
    DiscoverFromCalls(c, arn, None);
    var ps := Walk(c.describeReplies).value;
    WalkPages(c.describeReplies);
    WalkCallsStarts(arn, None, ps);
    DescribeStartsAppend(c.calls, WalkCalls(arn, None, ps));
    var walkStarts := DescribeStarts(WalkCalls(arn, None, ps));
    forall j | 0 <= j < |ps| - 1
      ensures walkStarts[j + 1] == ps[j].lastEvaluatedShardId
    {
    }
  }

  /** A pass fails only with the first error among the iterator replies: a
      `describeStream` error is never reported. */
  lemma DiscoverFailed(c: StreamClient, arn: Option<Arn>)
    requires Discover(c, arn).outcome.Failed?
    ensures exists k :: 0 <= k < |c.iteratorReplies| && AllOk(c.iteratorReplies, k)
                        && c.iteratorReplies[k] == Err(Discover(c, arn).outcome.error)
  {
    DiscoverFromFailed(c, arn, None);
  }

  /** When the pages run into a `describeStream` error (or run out) before
      a last page, the pass never ends with shards; if moreover no iterator
      reply is an error, it never ends at all: the error is only logged and
      the caller is never called back. */
  lemma DescribeErrorIsSilent(c: StreamClient, arn: Option<Arn>)
    requires Walk(c.describeReplies).None?
    ensures !Discover(c, arn).outcome.Found?
    ensures AllOk(c.iteratorReplies, |c.iteratorReplies|) ==> Discover(c, arn).outcome.Stalled?
  {
    if Discover(c, arn).outcome.Found? {
      DiscoverFromShards(c, arn, None);
    }
    if Discover(c, arn).outcome.Failed? {
      DiscoverFromFailed(c, arn, None);
    }
  }

  /** A first `describeStream` reply that is an error stalls the pass after
      that single request. */
  lemma FirstDescribeErrorStalls(c: StreamClient, arn: Option<Arn>)
    requires c.describeReplies != [] && c.describeReplies[0].Err?
    ensures Discover(c, arn).outcome.Stalled?
    ensures Discover(c, arn).client.calls == c.calls + [DescribeStream(arn, None)]
  {
  }

  /** Of a closed and an open shard listed on a single page, only the open
      one is kept, with the iterator answered for it. */
  lemma OneOfTwoShardsIsOpen(arn: Option<Arn>, it: Iterator)
    ensures var closed := ShardDescription("123", Some("1234"));
            var open := ShardDescription("456", None);
            var c := StreamClient([Ok(Page([closed, open], None))], [Ok(Some(it))], [], []);
            Discover(c, arn).outcome == Found([Shard("456", Some(it))])
  {
    var closed := ShardDescription("123", Some("1234"));
    var open := ShardDescription("456", None);
    var c := StreamClient([Ok(Page([closed, open], None))], [Ok(Some(it))], [], []);
    assert OpenShards([closed, open]) == [open] by {
      assert [closed, open][1..] == [open];
      assert [open][1..] == [];
    }
    var c1 := c.AfterDescribe(arn, None);
    var shard := Shard("456", Some(it));
    assert AttachFrom(c1, arn, [open], 0).outcome == Found([shard]) by {
      AttachFromNext(c1, arn, [open], 0);
      assert [shard] + [] == [shard];
    }
    DiscoverFromNext(c, arn, None);
  }

}
