/** How the consumer's derived rows land in DynamoDB (SparkDynamoDBConsumer
    with its DynamoDBWriter): which item each row becomes and under which
    key, for the raw archive, the windowed aggregations and the alerts. */
module ConsumerPipeline {
  import opened Wrappers
  import opened Values
  import opened ConsumerEvents
  import opened WindowedAggregation
  import opened DynamoDBWriter

  /** A column of a row with distinct names is absent from the item when
      null, and stored as its attribute otherwise. */
  lemma ColumnInItem(row: Row, i: nat)
    requires NamesDistinct(row) && i < |row|
    ensures row[i].1 == Null ==> row[i].0 !in ItemOf(row)
    ensures row[i].1 != Null ==> row[i].0 in ItemOf(row) && ItemOf(row)[row[i].0] == Attribute(row[i].1)
  {
    if row[i].1 == Null {
      ItemHasNonNullColumns(row, row[i].0);
    } else {
      ItemStoresEachColumn(row, i);
    }
  }

  /** The attribute `name` holds the string `o` when it is present, and is
      absent when it is null. */
  predicate Copied(item: Item, name: string, o: Option<string>)
  {
    (name in item <==> o.Some?) && (o.Some? ==> item[name] == Str(o.value))
  }

  /** The raw-archive item carries the event's own fields unchanged, and
      its processing time as text. */
  lemma RawItemCopiesEvent(e: Event)
    ensures var item := ItemOf(RawRow(e));
      && Copied(item, "event_id", e.eventId)
      && Copied(item, "timestamp", e.timestamp)
      && Copied(item, "city", e.city)
      && Copied(item, "event_type", e.eventType)
      && Copied(item, "severity", e.severity)
      && Copied(item, "description", e.description)
      && "processing_time" in item && item["processing_time"] == Str(TimestampText(e.processingTime))
  {
    var row := RawRow(e);
    ColumnInItem(row, 0); ColumnInItem(row, 1); ColumnInItem(row, 2); ColumnInItem(row, 3);
    ColumnInItem(row, 4); ColumnInItem(row, 5); ColumnInItem(row, 6);
  }

  /** A raw event can be archived exactly when its `event_id` and timestamp
      are present; its key is that pair. */
  lemma RawEventKey(e: Event)
    ensures PrimaryKeyOf(RawEventsTable, ItemOf(RawRow(e))) ==
      if e.eventId.Some? && e.timestamp.Some? then Some(PrimaryKey(e.eventId.value, Some(e.timestamp.value))) else None
  {
    var row := RawRow(e);
    ColumnInItem(row, 0);
    ColumnInItem(row, 1);
  }

  /** A message delivered again in a later micro-batch is archived under the
      same key, so its second put overwrites the first. */
  lemma ReplayedMessageKeepsItsKey(m: Message, now1: nat, now2: nat, write1: int, write2: int)
    ensures PrimaryKeyOf(RawEventsTable, ItemFor(RawRow(Enrich(m, now1)), RawEventsTable, write1))
         == PrimaryKeyOf(RawEventsTable, ItemFor(RawRow(Enrich(m, now2)), RawEventsTable, write2))
    ensures PrimaryKeyOf(RawEventsTable, ItemFor(RawRow(Enrich(m, now1)), RawEventsTable, write1)).Some?
        <==> m.city.Some? && m.eventType.Some? && m.timestamp.Some?
  {
    KeyIgnoresWriteTime(RawRow(Enrich(m, now1)), RawEventsTable, write1, write1);
    KeyIgnoresWriteTime(RawRow(Enrich(m, now2)), RawEventsTable, write2, write2);
    RawEventKey(Enrich(m, now1));
    RawEventKey(Enrich(m, now2));
  }

  /** The alert item carries the event's fields unchanged. */
  lemma AlertItemCopiesEvent(e: Event)
    requires IsAlert(e)
    ensures var item := ItemOf(AlertRow(e));
      && Copied(item, "city", e.city)
      && Copied(item, "timestamp", e.timestamp)
      && Copied(item, "event_type", e.eventType)
      && Copied(item, "severity", e.severity)
      && Copied(item, "description", e.description)
      && Copied(item, "event_id", e.eventId)
      && "processing_time" in item && item["processing_time"] == Str(TimestampText(e.processingTime))
  {
    var row := AlertRow(e);
    ColumnInItem(row, 0); ColumnInItem(row, 1); ColumnInItem(row, 2); ColumnInItem(row, 3);
    ColumnInItem(row, 4); ColumnInItem(row, 5); ColumnInItem(row, 6);
  }

  /** An alert can be stored exactly when its city and timestamp are
      present; its key is that pair. */
  lemma AlertKey(e: Event)
    requires IsAlert(e)
    ensures PrimaryKeyOf(AlertsTable, ItemOf(AlertRow(e))) ==
      if e.city.Some? && e.timestamp.Some? then Some(PrimaryKey(e.city.value, Some(e.timestamp.value))) else None
  {
    var row := AlertRow(e);
    ColumnInItem(row, 0);
    ColumnInItem(row, 1);
  }

  /** The aggregation item is keyed by the group's partition key. */
  lemma AggregationKey(k: GroupKey, a: Agg)
    ensures PrimaryKeyOf(AggregationsTable, ItemOf(AggRow(k, a))) ==
      if PartitionKey(k).Some? then Some(PrimaryKey(PartitionKey(k).value, None)) else None
  {
    ColumnInItem(AggRow(k, a), 0);
  }

  /** The aggregation item holds the window bounds and last update as text,
      the group's city and type, its count, and the severities as a list in
      the same order. */
  lemma AggregationItem(k: GroupKey, a: Agg)
    ensures var item := ItemOf(AggRow(k, a));
      && "window_start" in item && item["window_start"] == Str(TimestampText(k.windowStart))
      && "window_end" in item && item["window_end"] == Str(TimestampText(k.windowStart + WindowWidth))
      && Copied(item, "city", k.city)
      && Copied(item, "event_type", k.eventType)
      && "event_count" in item && item["event_count"] == Num(a.eventCount)
      && "severities" in item && item["severities"].List? && |item["severities"].elems| == |a.severities|
      && (forall i :: 0 <= i < |a.severities| ==> item["severities"].elems[i] == Str(a.severities[i]))
      && "last_updated" in item && item["last_updated"] == Str(TimestampText(a.lastUpdated))
  {
    var row := AggRow(k, a);
    ColumnInItem(row, 1); ColumnInItem(row, 2); ColumnInItem(row, 3);
    ColumnInItem(row, 4); ColumnInItem(row, 5); ColumnInItem(row, 6); ColumnInItem(row, 7);
  }

  /** Two different groups never overwrite each other's aggregation item,
      provided city and type hold no '#'. */
  lemma GroupsDoNotCollide(k1: GroupKey, a1: Agg, k2: GroupKey, a2: Agg)
    requires k1 != k2
    requires PartitionKey(k1).Some? && PartitionKey(k2).Some?
    requires '#' !in k1.city.value && '#' !in k1.eventType.value
    requires '#' !in k2.city.value && '#' !in k2.eventType.value
    requires k1.windowStart % WindowWidth == 0 && k2.windowStart % WindowWidth == 0
    ensures PrimaryKeyOf(AggregationsTable, ItemOf(AggRow(k1, a1))) != PrimaryKeyOf(AggregationsTable, ItemOf(AggRow(k2, a2)))
  {
    AggregationKey(k1, a1);
    AggregationKey(k2, a2);
    PartitionKeyInjective(k1, k2);
  }
}
