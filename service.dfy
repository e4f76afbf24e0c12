/** Values exchanged with the DynamoDB Streams service, and the client that
    the subscriber keeps in its `ddbStream` field.

    The service itself is not modelled: a `StreamClient` carries, for each
    kind of call, the replies the service gives to successive calls of that
    kind, and it logs every request made. A call made after the replies of
    its kind are used up is never answered, as a request whose callback
    never fires. */
module StreamService {

  datatype Option<+T> = None | Some(value: T)

  datatype Error = Error(message: string)

  /** The `(err, data)` pair a Node-style callback receives. */
  datatype Result<+T> = Ok(value: T) | Err(error: Error)

  /** JavaScript truthiness of a string value that may be `undefined`:
      both `undefined` and the empty string are falsy. */
  predicate Truthy(s: Option<string>)
  {
    s.Some? && s.value != ""
  }

  type Arn = string
  type ShardId = string
  type Iterator = string

  /** A shard as `describeStream` lists it; only the end of its sequence
      number range matters here. */
  datatype ShardDescription = ShardDescription(shardId: ShardId, endingSequenceNumber: Option<string>)

  /** One page of a `describeStream` answer. */
  datatype Page = Page(shards: seq<ShardDescription>, lastEvaluatedShardId: Option<ShardId>)

  /** Attribute values of the DynamoDB wire format (string and number). */
  datatype AttributeValue = S(s: string) | N(n: string)

  type AttributeMap = map<string, AttributeValue>

  /** The `dynamodb` part of a stream record; `keys` is its `Keys` map. */
  datatype StreamData = StreamData(keys: Option<AttributeMap>)

  datatype StreamRecord = StreamRecord(eventName: string, dynamodb: Option<StreamData>)

  /** A `getRecords` answer. */
  datatype Batch = Batch(records: seq<StreamRecord>, nextShardIterator: Option<Iterator>)

  const Latest: string := "LATEST"

  /** A request made to the service, with the parameters that matter. */
  datatype Call =
    | DescribeStream(streamArn: Option<Arn>, exclusiveStartShardId: Option<ShardId>)
    | GetShardIterator(streamArn: Option<Arn>, shardId: ShardId, shardIteratorType: string)
    | GetRecords(shardIterator: Option<Iterator>)

  /** The stream client: the replies still to come, per kind of call, and
      the requests made so far. */
  datatype StreamClient = StreamClient(
    describeReplies: seq<Result<Page>>,
    iteratorReplies: seq<Result<Option<Iterator>>>,
    recordReplies: seq<Result<Batch>>,
    calls: seq<Call>)
  {
    /** The answer the next `describeStream` call receives, if any. */
    function DescribeAnswer(): Option<Result<Page>>
    {
      if describeReplies == [] then None else Some(describeReplies[0])
    }

    /** The client once a `describeStream` call has been made. */
    function AfterDescribe(arn: Option<Arn>, start: Option<ShardId>): StreamClient
    {
      StreamClient(if describeReplies == [] then [] else describeReplies[1..],
                   iteratorReplies, recordReplies, calls + [DescribeStream(arn, start)])
    }

    function IteratorAnswer(): Option<Result<Option<Iterator>>>
    {
      if iteratorReplies == [] then None else Some(iteratorReplies[0])
    }

    /** The client once a LATEST `getShardIterator` call has been made. */
    function AfterIterator(arn: Option<Arn>, shardId: ShardId): StreamClient
    {
      StreamClient(describeReplies, if iteratorReplies == [] then [] else iteratorReplies[1..],
                   recordReplies, calls + [GetShardIterator(arn, shardId, Latest)])
    }

    function RecordsAnswer(): Option<Result<Batch>>
    {
      if recordReplies == [] then None else Some(recordReplies[0])
    }

    /** The client once a `getRecords` call has been made. */
    function AfterRecords(shardIterator: Option<Iterator>): StreamClient
    {
      StreamClient(describeReplies, iteratorReplies,
                   if recordReplies == [] then [] else recordReplies[1..], calls + [GetRecords(shardIterator)])
    }
  }
}
