/** The Azure Table and Queue handlers: the operations a table transaction
    carries, the stamping of an entity with its partition and row keys, and
    the messages sent to a queue. The storage service is a sink that records
    what it receives and answers queries from a fixed table of results. */
module AzureApi {
  import opened Base
  import Utils

  /** A table entity as the caller builds it: property name to value. */
  type Entity = map<string, Value>

  /** An entity as it is sent: every value turned into its string form. */
  type StringEntity = map<string, string>

  /** One `(kind, entity)` operation of a table transaction. */
  datatype TableOperation = TableOperation(kind: string, entity: StringEntity)

  const PartitionKey := "PartitionKey"
  const RowKey := "RowKey"

  /** `{key: str(value) for key, value in e.items()}` */
  function Stringified(e: Entity): (s: StringEntity)
    ensures s.Keys == e.Keys
    ensures forall k :: k in e ==> s[k] == ToStr(e[k])
  {
    map k | k in e :: ToStr(e[k])
  }

  /** Stringifying loses no text and no integer: text values are sent as
      they are, integers as decimals that read back to the same number. */
  lemma StringifiedReadsBack(e: Entity, k: string)
    requires k in e
    ensures e[k].Text? ==> Stringified(e)[k] == e[k].s
    ensures e[k].Int? ==> ParseDecimal(Stringified(e)[k]) == e[k].i
  {
  }

  /** The loop that copies an entity key by key with `str(value)`. */
  method StringifyEntity(entity: Entity) returns (converted: StringEntity)
    ensures converted == Stringified(entity)
  {
    converted := map[];
    var remaining := entity.Keys;
    while remaining != {}
      invariant remaining <= entity.Keys
      invariant converted.Keys == entity.Keys - remaining
      invariant forall k :: k in converted ==> converted[k] == ToStr(entity[k])
      decreases |remaining|
    {
      var key :| key in remaining;
      converted := converted[key := ToStr(entity[key])];
      remaining := remaining - {key};
    }
  }

  /** The operations `inset_into_table` builds: one upsert per entity, in order. */
  function Upserts(entities: seq<Entity>): (ops: seq<TableOperation>)
    ensures |ops| == |entities|
    ensures forall i :: 0 <= i < |entities| ==> ops[i].kind == "upsert" && ops[i].entity.Keys == entities[i].Keys
    ensures forall i, k :: 0 <= i < |entities| && k in entities[i] ==> ops[i].entity[k] == ToStr(entities[i][k])
  {
    seq(|entities|, i requires 0 <= i < |entities| => TableOperation("upsert", Stringified(entities[i])))
  }

  /** `e` after `e.update({"PartitionKey": partition})` and `e.update({"RowKey": row})`. */
  function Stamped(e: Entity, partition: string, row: string): (s: Entity)
    ensures s.Keys == e.Keys + {PartitionKey, RowKey}
    ensures s[PartitionKey] == Text(partition) && s[RowKey] == Text(row)
    ensures forall k :: k in e && k != PartitionKey && k != RowKey ==> s[k] == e[k]
  {
    e[PartitionKey := Text(partition)][RowKey := Text(row)]
  }

  /** Stamping overwrites both keys whatever they held before: stamping an
      already stamped entity again is the same as stamping the original. */
  lemma StampTwice(e: Entity, partition: string, row: string, partition2: string, row2: string)
    ensures Stamped(Stamped(e, partition, row), partition2, row2) == Stamped(e, partition2, row2)
  {
    var once, twice := Stamped(Stamped(e, partition, row), partition2, row2), Stamped(e, partition2, row2);
    assert once.Keys == twice.Keys;
  }

  /** `current` is `original` stamped with the keys `current` holds. */
  ghost predicate StampedFrom(current: Entity, original: Entity)
  {
    && PartitionKey in current && current[PartitionKey].Text?
    && RowKey in current && current[RowKey].Text?
    && current == Stamped(original, current[PartitionKey].s, current[RowKey].s)
  }

  /** A Python dictionary that is shared with the caller and updated in place. */
  class EntityDict {
    var items: Entity

    constructor (items: Entity)
      ensures this.items == items
    {
      this.items := items;
    }
  }

  /** `OpTableHandler` over one storage account. */
  class TableHandler {
    /** The entities `query_entities(query)` yields from a table, in order. */
    const queryAnswer: (string, string) -> seq<Entity>
    /** Every `submit_transaction` received: the table and its operations, in order. */
    var transactions: seq<(string, seq<TableOperation>)>

    constructor (queryAnswer: (string, string) -> seq<Entity>)
      ensures this.queryAnswer == queryAnswer && transactions == []
    {
      this.queryAnswer := queryAnswer;
      transactions := [];
    }

    /** `query_entities(table_name, query)`: every entity the query yields, in order. */
    method QueryEntities(tableName: string, query: string) returns (entitiesList: seq<Entity>)
      ensures entitiesList == queryAnswer(tableName, query)
    {
      var entities := queryAnswer(tableName, query);
      entitiesList := [];
      for i := 0 to |entities|
        invariant entitiesList == entities[..i]
      {
        entitiesList := entitiesList + [entities[i]];
      }
      assert entities[..|entities|] == entities;
    }

    /** `inset_into_table(table_name, entities)`: exactly one transaction is
        submitted, holding one upsert per entity, in order, each the entity
        with every value stringified. */
    method InsetIntoTable(tableName: string, entities: seq<Entity>)
      modifies this
      ensures transactions == old(transactions) + [(tableName, Upserts(entities))]
    {
      var operations: seq<TableOperation> := [];
      for i := 0 to |entities|
        invariant operations == Upserts(entities[..i])
        invariant transactions == old(transactions)
      {
        var converted := StringifyEntity(entities[i]);
        operations := operations + [TableOperation("upsert", converted)];
      }
      assert entities[..|entities|] == entities;
      transactions := transactions + [(tableName, operations)];
    }

    /** `create_entity(my_entity)`, with `datetime.now()` given as `now` and
        the random draws as `draws`: the caller's dictionary gains (or has
        overwritten) its partition key, today's `yyyymmdd`, and an 8-character
        random row key; the result is a separate, stringified copy of it. */
    method CreateEntity(myEntity: EntityDict, now: Utils.DateTime, draws: seq<nat>) returns (convertedEntity: StringEntity)
      requires Utils.ValidDateTime(now) && 8 <= |draws|
      modifies myEntity
      ensures myEntity.items == Stamped(old(myEntity.items), Utils.GetTime(now).dateQuery, Utils.CreateRandom(8, draws))
      ensures convertedEntity == Stringified(myEntity.items)
    {
      var dateQuery := Utils.GetTime(now).dateQuery;
      myEntity.items := myEntity.items[PartitionKey := Text(dateQuery)];
      myEntity.items := myEntity.items[RowKey := Text(Utils.CreateRandom(8, draws))];
      convertedEntity := StringifyEntity(myEntity.items);
    }
  }

  /** What `create_entity` returns: the entity's own properties as strings,
      the partition key naming the date of `now` as 8 digits, and a row key
      of 8 upper-case letters and digits. */
  lemma CreatedEntityKeys(e: Entity, now: Utils.DateTime, draws: seq<nat>)
    requires Utils.ValidDateTime(now) && 8 <= |draws|
    ensures var s := Stringified(Stamped(e, Utils.GetTime(now).dateQuery, Utils.CreateRandom(8, draws)));
            && s.Keys == e.Keys + {PartitionKey, RowKey}
            && |s[PartitionKey]| == 8
            && (forall j :: 0 <= j < 8 ==> '0' <= s[PartitionKey][j] <= '9')
            && DigitsValue(s[PartitionKey][..4]) == now.year
            && DigitsValue(s[PartitionKey][4..6]) == now.month
            && DigitsValue(s[PartitionKey][6..]) == now.day
            && |s[RowKey]| == 8
            && (forall j :: 0 <= j < 8 ==> 'A' <= s[RowKey][j] <= 'Z' || '0' <= s[RowKey][j] <= '9')
            && (forall k :: k in e && k != PartitionKey && k != RowKey ==> s[k] == ToStr(e[k]))
  {
    Utils.GetTimeDates(now);
  }

  /** `OpQueuesHandler`: the messages sent to one queue, in order. */
  class QueueHandler {
    const queueName: string
    var sent: seq<string>

    constructor (queueName: string)
      ensures this.queueName == queueName && sent == []
    {
      this.queueName := queueName;
      sent := [];
    }

    /** `insert_queque_msg(message)`: the message is sent once, after the earlier ones. */
    method InsertQueueMessage(message: string)
      modifies this
      ensures sent == old(sent) + [message]
    {
      sent := sent + [message];
    }
  }
}
