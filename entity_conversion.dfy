/** `convert_entities`: the list helper that stamps and stringifies a list of
    entity dictionaries through a table handler. It sits apart from the
    other helpers because it calls into the table handler, which itself uses
    those helpers. */
module EntityConversion {
  import Utils
  import opened AzureApi

  /** The clock readings and random draws of successive `create_entity` calls. */
  predicate ValidReadings(clock: seq<Utils.DateTime>, draws: seq<seq<nat>>)
  {
    && |clock| == |draws|
    && forall i :: 0 <= i < |clock| ==> Utils.ValidDateTime(clock[i]) && 8 <= |draws[i]|
  }

  /** The partition and row keys the successive `create_entity` calls stamp:
      the date of each clock reading and an 8-character random string. */
  function Stamps(clock: seq<Utils.DateTime>, draws: seq<seq<nat>>): (stamps: seq<(string, string)>)
    requires ValidReadings(clock, draws)
    ensures |stamps| == |clock|
  {
    seq(|clock|, i requires 0 <= i < |clock| => (Utils.GetTime(clock[i]).dateQuery, Utils.CreateRandom(8, draws[i])))
  }

  /** The converted entities of a list of dictionaries: one per dictionary,
      in order, the i-th stamped with `stamps[i]` and stringified. */
  function ConvertedAll(originals: seq<Entity>, stamps: seq<(string, string)>): seq<StringEntity>
    requires |originals| == |stamps|
  {
    seq(|originals|, i requires 0 <= i < |originals| => Stringified(Stamped(originals[i], stamps[i].0, stamps[i].1)))
  }

  /** `convert_entities(table_client, entities)`, with the clock reading and
      the random draws of the i-th `create_entity` call given as `clock[i]`
      and `draws[i]`. The result holds one converted entity per dictionary,
      in order; each is the dictionary as it was on entry, stamped with its
      own call's keys and stringified, even when the same dictionary occurs
      more than once in the list. Every dictionary is left as it was on entry
      plus its two keys, and those are the keys of the last call that stamped
      it. */
  method ConvertEntities(tableClient: TableHandler, entities: seq<EntityDict>,
                         clock: seq<Utils.DateTime>, draws: seq<seq<nat>>)
    returns (entitiesConverted: seq<StringEntity>)
    requires |clock| == |entities| && ValidReadings(clock, draws)
    modifies set e | e in entities
    ensures entitiesConverted == ConvertedAll(old(ItemsOf(entities)), Stamps(clock, draws))
    ensures forall i :: 0 <= i < |entities| ==> StampedFrom(entities[i].items, old(entities[i].items))
    ensures forall i :: 0 <= i < |entities| && LastOccurrence(entities, i, |entities|) ==>
      entities[i].items == Stamped(old(entities[i].items), Stamps(clock, draws)[i].0, Stamps(clock, draws)[i].1)
  {
    ghost var originals := ItemsOf(entities);
    entitiesConverted := [];
    ConvertingStarts(entities, originals, clock, draws);
    for i := 0 to |entities|
      invariant Converting(entities, originals, clock, draws, i, entitiesConverted)
    {
      entitiesConverted := ConvertNext(tableClient, entities, originals, clock, draws, i, entitiesConverted);
    }
    ConvertingEnds(entities, originals, clock, draws, entitiesConverted);
  }

  /** Before the first iteration nothing is converted and nothing stamped. */
  lemma ConvertingStarts(entities: seq<EntityDict>, originals: seq<Entity>,
                         clock: seq<Utils.DateTime>, draws: seq<seq<nat>>)
    requires |originals| == |entities| == |clock| && ValidReadings(clock, draws)
    requires forall k :: 0 <= k < |entities| ==> originals[k] == entities[k].items
    ensures Converting(entities, originals, clock, draws, 0, [])
  {
  }

  /** After the last iteration every dictionary is converted and stamped. */
  lemma ConvertingEnds(entities: seq<EntityDict>, originals: seq<Entity>,
                       clock: seq<Utils.DateTime>, draws: seq<seq<nat>>, converted: seq<StringEntity>)
    requires Converting(entities, originals, clock, draws, |entities|, converted)
    ensures converted == ConvertedAll(originals, Stamps(clock, draws))
    ensures forall k :: 0 <= k < |entities| ==> StampedFrom(entities[k].items, originals[k])
    ensures forall k :: 0 <= k < |entities| && LastOccurrence(entities, k, |entities|) ==>
      entities[k].items == Stamped(originals[k], Stamps(clock, draws)[k].0, Stamps(clock, draws)[k].1)
  {
    assert originals[..|entities|] == originals;
    assert Stamps(clock, draws)[..|entities|] == Stamps(clock, draws);
  }

  /** What `convert_entities` has done after its first `i` iterations: the
      first `i` conversions are collected, those dictionaries are stamped,
      the last call to stamp each holds, and every other dictionary is
      untouched or (when it also occurs earlier in the list) stamped.
      `originals` are the dictionaries' contents on entry. */
  ghost predicate Converting(entities: seq<EntityDict>, originals: seq<Entity>,
                             clock: seq<Utils.DateTime>, draws: seq<seq<nat>>, i: nat,
                             converted: seq<StringEntity>)
    reads set e | e in entities
  {
    && |clock| == |entities| && ValidReadings(clock, draws)
    && ConvertingItems(entities, ItemsOf(entities), originals, Stamps(clock, draws), i, converted)
  }

  /** `Converting` over a snapshot `items` of the dictionaries' contents and
      the keys `stamps` of the successive calls. Equal objects have equal
      originals and equal contents. */
  ghost predicate ConvertingItems(entities: seq<EntityDict>, items: seq<Entity>, originals: seq<Entity>,
                                  stamps: seq<(string, string)>, i: nat, converted: seq<StringEntity>)
  {
    && |items| == |originals| == |stamps| == |entities| && i <= |entities|
    && (forall k, j :: 0 <= k < |entities| && 0 <= j < |entities| && entities[k] == entities[j] ==>
          originals[k] == originals[j] && items[k] == items[j])
    && converted == ConvertedAll(originals[..i], stamps[..i])
    && (forall k :: 0 <= k < |entities| ==> items[k] == originals[k] || StampedFrom(items[k], originals[k]))
    && (forall k :: 0 <= k < i ==> StampedFrom(items[k], originals[k]))
    && (forall k :: 0 <= k < i && LastOccurrence(entities, k, i) ==>
          items[k] == Stamped(originals[k], stamps[k].0, stamps[k].1))
  }

  /** The dictionary at position `k` does not occur again before position `n`,
      so the `k`-th call is the last to stamp it among the first `n`. */
  predicate LastOccurrence(entities: seq<EntityDict>, k: nat, n: nat)
    requires k < n <= |entities|
  {
    forall j :: k < j < n ==> entities[j] != entities[k]
  }

  /** One iteration of `convert_entities`: the i-th dictionary goes through
      `create_entity` and its conversion is appended. */
  method ConvertNext(tableClient: TableHandler, entities: seq<EntityDict>, ghost originals: seq<Entity>,
                     clock: seq<Utils.DateTime>, draws: seq<seq<nat>>, i: nat, converted: seq<StringEntity>)
    returns (next: seq<StringEntity>)
    requires i < |entities| && Converting(entities, originals, clock, draws, i, converted)
    modifies entities[i]
    ensures Converting(entities, originals, clock, draws, i + 1, next)
  {
    var el := entities[i];
    ghost var stamps := Stamps(clock, draws);
    ghost var before := ItemsOf(entities);
    var entity := ConvertOne(tableClient, el, clock[i], draws[i], originals[i], stamps[i].0, stamps[i].1);
    ghost var after := ItemsOf(entities);
    forall k | 0 <= k < |entities| && entities[k] != el
      ensures after[k] == before[k]
    {
    }
    next := converted + [entity];
    ConvertingStep(entities, before, after, originals, stamps, i, converted, entity);
  }

  /** Stamping the i-th dictionary, and with it every position holding the
      same object, takes `ConvertingItems` from `i` to `i + 1`. */
  lemma ConvertingStep(entities: seq<EntityDict>, before: seq<Entity>, after: seq<Entity>,
                       originals: seq<Entity>, stamps: seq<(string, string)>, i: nat,
                       converted: seq<StringEntity>, entity: StringEntity)
    requires i < |entities| && ConvertingItems(entities, before, originals, stamps, i, converted)
    requires |after| == |entities|
    requires after[i] == Stamped(originals[i], stamps[i].0, stamps[i].1) && StampedFrom(after[i], originals[i])
    requires forall k :: 0 <= k < |entities| && entities[k] == entities[i] ==> after[k] == after[i]
    requires forall k :: 0 <= k < |entities| && entities[k] != entities[i] ==> after[k] == before[k]
    requires entity == Stringified(Stamped(originals[i], stamps[i].0, stamps[i].1))
    ensures ConvertingItems(entities, after, originals, stamps, i + 1, converted + [entity])
  {
    ConvertedAllAppend(originals, stamps, i);
    forall k | 0 <= k < i + 1 && LastOccurrence(entities, k, i + 1)
      ensures after[k] == Stamped(originals[k], stamps[k].0, stamps[k].1)
    {
      if k < i {
        assert entities[i] != entities[k];
        assert LastOccurrence(entities, k, i);
      }
    }
  }

  /** Converting one more dictionary appends its conversion. */
  lemma ConvertedAllAppend(originals: seq<Entity>, stamps: seq<(string, string)>, i: nat)
    requires |originals| == |stamps| && i < |originals|
    ensures ConvertedAll(originals[..i + 1], stamps[..i + 1])
            == ConvertedAll(originals[..i], stamps[..i]) + [Stringified(Stamped(originals[i], stamps[i].0, stamps[i].1))]
  {
    var longer, shorter := ConvertedAll(originals[..i + 1], stamps[..i + 1]), ConvertedAll(originals[..i], stamps[..i]);
    forall k | 0 <= k < i
      ensures longer[k] == shorter[k]
    {
      assert originals[..i + 1][k] == originals[..i][k] && stamps[..i + 1][k] == stamps[..i][k];
    }
  }

  /** `create_entity` on a dictionary
      that is untouched or already stamped leaves it stamped with this call's
      keys over its original properties, and returns it stringified. */
  method ConvertOne(tableClient: TableHandler, el: EntityDict, now: Utils.DateTime, draws: seq<nat>,
                    ghost original: Entity, ghost partition: string, ghost row: string)
    returns (entity: StringEntity)
    requires Utils.ValidDateTime(now) && 8 <= |draws|
    requires partition == Utils.GetTime(now).dateQuery && row == Utils.CreateRandom(8, draws)
    requires el.items == original || StampedFrom(el.items, original)
    modifies el
    ensures el.items == Stamped(original, partition, row) && StampedFrom(el.items, original)
    ensures entity == Stringified(Stamped(original, partition, row))
  {
    ghost var before := el.items;
    entity := tableClient.CreateEntity(el, now, draws);
    StampStep(before, original, partition, row, el.items);
  }

  /** One `create_entity` call on a dictionary that is either untouched or
      already stamped leaves it stamped with the new keys over its original
      properties. */
  lemma StampStep(before: Entity, original: Entity, partition: string, row: string, after: Entity)
    requires before == original || StampedFrom(before, original)
    requires after == Stamped(before, partition, row)
    ensures after == Stamped(original, partition, row)
    ensures StampedFrom(after, original)
  {
    if before != original {
      StampTwice(original, before[PartitionKey].s, before[RowKey].s, partition, row);
    }
  }

  /** The current contents of each dictionary, in order. */
  ghost function ItemsOf(entities: seq<EntityDict>): (items: seq<Entity>)
    reads set e | e in entities
    ensures |items| == |entities|
    ensures forall k :: 0 <= k < |entities| ==> items[k] == entities[k].items
  {
    if entities == [] then [] else [entities[0].items] + ItemsOf(entities[1..])
  }
}
