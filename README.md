# CityStream: a Dafny model of the event pipeline's logic

CityStream is a real-time pipeline. A producer generates city events and sends them to Kafka. A Spark
Structured Streaming consumer derives three result streams and writes each of them to a DynamoDB table. A
Spring Boot API then reads those tables back. This project models what each of these parts computes,
and proves what it promises.

- **Consumer derivations** (`consumer_events.dfy`, `windowed_aggregation.dfy`):
  - the `processing_time` and `event_id` columns;
  - the raw-archive projection;
  - five-minute tumbling windows on processing time under a ten-minute watermark, with each group's
    count, collected severities and latest processing time;
  - the aggregate's `partition_key`;
  - the high/critical alert filter.

  The watermark, the per-group state kept across micro-batches and the eviction of closed windows are
  one small state machine, `Step`, run over micro-batches by `Run`.
- **The consumer's sink** (`dynamodb_writer.dfy`, `consumer_pipeline.dfy`). `DynamoDBWriter.process`
  works imperatively:
  - it loops over the row's columns into an item;
  - it copies a sequence into a list;
  - it adds a `ttl` to raw events;
  - it puts the item.

  A put replaces the item stored at the item's key. The key schemas are: raw events by
  (`event_id`, `timestamp`), aggregations by `partition_key`, and alerts by (`city`, `timestamp`). From
  these, the model proves that replaying a batch, or retrying one after a partial write, leaves the
  table as a single successful write would.
- **Read-side API** (`api_items.dfy`, `api.dfy`, with `sorting.dfy`, `text.dfy`, `java_int.dfy`).
  Each handler folds the items of a scan into its response:
  - `itemToMap`;
  - the `limit`-then-sort of `getEventsByCity` and `getAggregations`;
  - the newest-first sort of `getAlerts`;
  - the per-type and per-city sums of `getSummary` and `getCities`;
  - the totals and severity tallies of `getStats`.

  Java `int` arithmetic wraps at 32 bits. Java's sorts are stable and driven by `String.compareTo`.
  An exception inside a handler becomes a 500 response, modelled as `Err(InternalServerError)`.
- **Producer** (`producer_metrics.dfy`, `event_generator.dfy`):
  - `KafkaProducerService` is a class. Its counter and latency fields are updated by `SendEvent`,
    `RecordSuccess` and `RecordFailure`, and read by `GetMetrics`.
  - `EventGeneratorService` has three fixed vocabularies and `generateDescription`. `generateEvent`
    builds one event from three random indices and sends it.

Clock readings, random choices, the items a scan returns, and the answers of Kafka and DynamoDB are all
parameters.

Four behaviours of the code are easy to misread. The model states each as the code has it:

- **Dropping late events.** A window is not kept open until the watermark passes
  `window_end + lateness`: Spark's watermark already subtracts the ten-minute lateness. It drops an
  event, and evicts a window's state, once `window_end <= watermark` (`IsOpen`, `Step`). Because
  windows are assigned by processing time, an event stamped with the batch clock is never late
  (`MonotoneClockDropsNothing`).
- **The `ttl` clock.** `ttl` is not processing time plus 30 days. The writer reads the clock at write
  time, once per row (`SparkDynamoDBConsumer.java:260`). A retried raw-event put therefore carries a
  new `ttl`: the key and every other attribute are unchanged, but the item is not identical
  (`RetryAfterPartialWrite` is stated for the retry's own seconds).
- **Messages missing key fields.** A message missing `city`, `event_type` or `timestamp` is not dropped
  as a parse error. `from_json` turns the missing field into null, and `concat` then makes `event_id`
  null. The raw item lacks its key attribute, the put fails, and `process` throws, so the micro-batch
  fails (`ReplayedMessageKeepsItsKey`, `Writer.Process` with `MissingKey`). An alert without `city` or
  `timestamp` fails the same way in the alerts table (`AlertKey`). A message missing only `severity` or
  `description` keeps its `event_id` and is archived normally; without a severity it is not an alert.
- **The breakdown sum.** `event_type_breakdown` sums to `total_events` only as Java `int`
  arithmetic, modulo 2^32 (`BreakdownAddsUpToTotal`).

## Model

| member | source | states |
|---|---|---|
| ConsumerEvents.EventId | consumer/src/main/java/com/citystream/consumer/SparkDynamoDBConsumer.java:90-96 | the id exists exactly when city, event_type and timestamp all do (Spark's concat is null otherwise); it is their text joined by two dashes |
| ConsumerEvents.EventIdIdentifiesMessage | consumer/src/main/java/com/citystream/consumer/SparkDynamoDBConsumer.java:90-96 | two messages get the same id iff they agree on city, event_type and timestamp (when city and type hold no '-'), so identical fields always give the same id |
| ConsumerEvents.Enrich | consumer/src/main/java/com/citystream/consumer/SparkDynamoDBConsumer.java:85-96 | processing_time is the batch clock; the parsed fields are carried unchanged |
| ConsumerEvents.EnrichBatch | consumer/src/main/java/com/citystream/consumer/SparkDynamoDBConsumer.java:89 | every event of a micro-batch gets the same processing time, one event per message in order |
| ConsumerEvents.RawRow | consumer/src/main/java/com/citystream/consumer/SparkDynamoDBConsumer.java:100-108 | the raw projection has seven distinct columns, event_id first and processing_time last |
| ConsumerEvents.Alerts | consumer/src/main/java/com/citystream/consumer/SparkDynamoDBConsumer.java:160-161 | the alert stream holds every high or critical event as often as the input does, and nothing else |
| ConsumerEvents.AlertsOfConcat | consumer/src/main/java/com/citystream/consumer/SparkDynamoDBConsumer.java:160-161 | filtering commutes with concatenation: alerts keep stream order however the stream is cut into batches |
| ConsumerEvents.AlertRow | consumer/src/main/java/com/citystream/consumer/SparkDynamoDBConsumer.java:162-170 | the alert projection has seven distinct columns; severity and event_id are the event's |
| WindowedAggregation.WindowStart | consumer/src/main/java/com/citystream/consumer/SparkDynamoDBConsumer.java:123 | window_start <= processing_time < window_start + 5 min, and the start is aligned to 5 min |
| WindowedAggregation.WindowIsUnique | consumer/src/main/java/com/citystream/consumer/SparkDynamoDBConsumer.java:123 | an instant lies in exactly one aligned window |
| WindowedAggregation.WindowEndStartsNextWindow | consumer/src/main/java/com/citystream/consumer/SparkDynamoDBConsumer.java:140-141 | the instant at a window's end starts the next window |
| WindowedAggregation.MembersAreTheGroup | consumer/src/main/java/com/citystream/consumer/SparkDynamoDBConsumer.java:122-126 | a group holds exactly the events of its (window, city, event_type) key, each as often as the stream |
| WindowedAggregation.CollectSeverities | consumer/src/main/java/com/citystream/consumer/SparkDynamoDBConsumer.java:129 | collect_list keeps the non-null severities in order; its length is the group size iff no severity is null |
| WindowedAggregation.CollectSeveritiesSelectsPresent | consumer/src/main/java/com/citystream/consumer/SparkDynamoDBConsumer.java:129 | whichever severities are null, collect_list yields the severities at exactly the positions where one is present, in stream order |
| WindowedAggregation.LatestProcessingTime | consumer/src/main/java/com/citystream/consumer/SparkDynamoDBConsumer.java:130 | max(processing_time) is at least every member's and equals one of them |
| WindowedAggregation.SummaryDescribesGroup | consumer/src/main/java/com/citystream/consumer/SparkDynamoDBConsumer.java:127-130 | event_count is the group size; severities are exactly the group's non-null severities in stream order, as many as the group when none is null; last_updated is the group's latest processing time |
| WindowedAggregation.Combine | consumer/src/main/java/com/citystream/consumer/SparkDynamoDBConsumer.java:127-130 | merging stored state with new events adds the counts, appends the new severities after the stored ones and keeps the later update |
| WindowedAggregation.SummarizeSnoc | consumer/src/main/java/com/citystream/consumer/SparkDynamoDBConsumer.java:127-130 | the aggregate of a group plus one event is the merge of the two aggregates |
| WindowedAggregation.CombineAssociative | consumer/src/main/java/com/citystream/consumer/SparkDynamoDBConsumer.java:127-130 | merging is associative, so the state does not depend on how events are batched |
| WindowedAggregation.FoldIsPerGroupSummary | consumer/src/main/java/com/citystream/consumer/SparkDynamoDBConsumer.java:122-130 | folding events one by one gives per group the stored aggregate merged with that group's summary; other groups are untouched |
| WindowedAggregation.MembersOfAccepted | consumer/src/main/java/com/citystream/consumer/SparkDynamoDBConsumer.java:121 | the lateness filter keeps every event of an open window and none of a closed one |
| WindowedAggregation.NextWatermark | consumer/src/main/java/com/citystream/consumer/SparkDynamoDBConsumer.java:121 | the watermark never decreases, is at least every observed processing time minus 10 min, and is the old one or one of those |
| WindowedAggregation.Step | consumer/src/main/java/com/citystream/consumer/SparkDynamoDBConsumer.java:120-131 | a micro-batch keeps state only for open windows, emits (update mode) only kept groups with their new value, never a closed window, and does not move the watermark back |
| WindowedAggregation.StepAccumulates | consumer/src/main/java/com/citystream/consumer/SparkDynamoDBConsumer.java:120-131 | per open group, the new state is the old one merged with the batch's events of that group, and the group is emitted iff it had some |
| WindowedAggregation.OnTimeEventIsAccepted | consumer/src/main/java/com/citystream/consumer/SparkDynamoDBConsumer.java:121 | an event no older than the watermark finds its window open |
| WindowedAggregation.MonotoneClockDropsNothing | consumer/src/main/java/com/citystream/consumer/SparkDynamoDBConsumer.java:89-121 | with a clock that does not go back, no event of a batch is dropped as late and the watermark stays behind the clock |
| WindowedAggregation.RunWatermarkMonotone | consumer/src/main/java/com/citystream/consumer/SparkDynamoDBConsumer.java:121 | over any run of micro-batches the watermark never regresses |
| WindowedAggregation.ClosedWindowIsFrozen | consumer/src/main/java/com/citystream/consumer/SparkDynamoDBConsumer.java:121 | a window closed by the watermark is never emitted or kept by any later micro-batch |
| WindowedAggregation.PartitionKey | consumer/src/main/java/com/citystream/consumer/SparkDynamoDBConsumer.java:133-139 | the partition_key exists exactly when city and event_type do |
| WindowedAggregation.PartitionKeyInjective | consumer/src/main/java/com/citystream/consumer/SparkDynamoDBConsumer.java:133-139 | two groups get the same partition_key iff they are the same group, when city and type hold no '#' |
| WindowedAggregation.WholeSeconds | consumer/src/main/java/com/citystream/consumer/SparkDynamoDBConsumer.java:138 | a window start is a whole number of seconds, so formatting it to seconds loses nothing |
| WindowedAggregation.AggRow | consumer/src/main/java/com/citystream/consumer/SparkDynamoDBConsumer.java:132-147 | the aggregation row has eight distinct columns |
| DynamoDBWriter.Attribute | consumer/src/main/java/com/citystream/consumer/SparkDynamoDBConsumer.java:241-254 | a sequence becomes a list of the same elements, a timestamp its text, anything else itself; never null |
| DynamoDBWriter.ItemHasNonNullColumns | consumer/src/main/java/com/citystream/consumer/SparkDynamoDBConsumer.java:238-240 | an attribute is in the item iff some column of that name is non-null |
| DynamoDBWriter.ItemStoresEachColumn | consumer/src/main/java/com/citystream/consumer/SparkDynamoDBConsumer.java:238-256 | with distinct column names every non-null column is stored as its attribute |
| DynamoDBWriter.TtlOnlyOnRawEvents | consumer/src/main/java/com/citystream/consumer/SparkDynamoDBConsumer.java:258-262 | only raw-event items have a ttl, equal to the write second plus 2592000; otherwise the item is the columns alone |
| DynamoDBWriter.CopyToList | consumer/src/main/java/com/citystream/consumer/SparkDynamoDBConsumer.java:243-249 | the list holds the sequence's elements in order |
| DynamoDBWriter.BuildItem | consumer/src/main/java/com/citystream/consumer/SparkDynamoDBConsumer.java:235-262 | the loop builds exactly the item of the row, with the ttl on raw events |
| DynamoDBWriter.Puts | consumer/src/main/java/com/citystream/consumer/SparkDynamoDBConsumer.java:264 | one put per row, each row's item stamped with its own write second |
| DynamoDBWriter.ApplyOverlays | consumer/src/main/java/com/citystream/consumer/SparkDynamoDBConsumer.java:264 | a sequence of puts overlays the table; every put's key is written and no other |
| DynamoDBWriter.ReplayIsIdempotent | consumer/src/main/java/com/citystream/consumer/SparkDynamoDBConsumer.java:264 | writing the same puts again leaves the table unchanged |
| DynamoDBWriter.PutsKeys | consumer/src/main/java/com/citystream/consumer/SparkDynamoDBConsumer.java:264 | the i-th put is keyed by the i-th row's key, whatever the write seconds |
| DynamoDBWriter.PrefixKeysCovered | consumer/src/main/java/com/citystream/consumer/SparkDynamoDBConsumer.java:264-271 | every key written by part of a batch is written by the whole batch |
| DynamoDBWriter.RetryAfterPartialWrite | consumer/src/main/java/com/citystream/consumer/SparkDynamoDBConsumer.java:264-271 | a batch that failed part-way and is retried in full leaves the table as the retry alone would |
| DynamoDBWriter.Writer.constructor | consumer/src/main/java/com/citystream/consumer/SparkDynamoDBConsumer.java:208-211 | the writer is bound to its table |
| DynamoDBWriter.Writer.Process | consumer/src/main/java/com/citystream/consumer/SparkDynamoDBConsumer.java:233-272 | the put succeeds iff the item has its key attributes and the service accepts it; then exactly that key is replaced, otherwise it throws and the table is unchanged |
| DynamoDBWriter.Writer.ProcessPartition | consumer/src/main/java/com/citystream/consumer/SparkDynamoDBConsumer.java:233-272 | rows are put in order, each at its own write second, until one throws; the table then holds exactly the puts of the rows before it |
| ConsumerPipeline.ColumnInItem | consumer/src/main/java/com/citystream/consumer/SparkDynamoDBConsumer.java:238-256 | a null column is absent from the item; a non-null one is present as its attribute |
| ConsumerPipeline.RawItemCopiesEvent | consumer/src/main/java/com/citystream/consumer/SparkDynamoDBConsumer.java:100-108 | the raw item holds each of the event's fields iff present and unchanged, with processing_time as text |
| ConsumerPipeline.RawEventKey | consumer/src/main/java/com/citystream/consumer/SparkDynamoDBConsumer.java:99-102 | a raw event has a key iff event_id and timestamp are present, and the key is that pair |
| ConsumerPipeline.ReplayedMessageKeepsItsKey | consumer/src/main/java/com/citystream/consumer/SparkDynamoDBConsumer.java:85-102 | the same message in a later batch is archived under the same key (it overwrites); it has one iff city, type and timestamp are present |
| ConsumerPipeline.AlertItemCopiesEvent | consumer/src/main/java/com/citystream/consumer/SparkDynamoDBConsumer.java:160-170 | the alert item holds city, timestamp, event_type, severity, description, event_id unchanged and processing_time as text |
| ConsumerPipeline.AlertKey | consumer/src/main/java/com/citystream/consumer/SparkDynamoDBConsumer.java:159-164 | an alert has a key iff city and timestamp are present, and the key is that pair |
| ConsumerPipeline.AggregationKey | consumer/src/main/java/com/citystream/consumer/SparkDynamoDBConsumer.java:133-139 | an aggregate is keyed by its group's partition_key |
| ConsumerPipeline.AggregationItem | consumer/src/main/java/com/citystream/consumer/SparkDynamoDBConsumer.java:140-147 | the aggregate item holds the window bounds and last update as text, city, type, count, and the severities as a list in order |
| ConsumerPipeline.GroupsDoNotCollide | consumer/src/main/java/com/citystream/consumer/SparkDynamoDBConsumer.java:133-152 | two different groups never overwrite each other's aggregate, when city and type hold no '#' |
| CityStreamApi.ItemToMap | api/src/main/java/com/citystream/api/CityStreamApiApplication.java:341-350 | copies every non-null attribute unchanged and omits the null ones |
| CityStreamApi.AllAttributes | api/src/main/java/com/citystream/api/CityStreamApiApplication.java:82 | itemToMap applied to each item, in order |
| CityStreamApi.NewestFirstIsPreorder | api/src/main/java/com/citystream/api/CityStreamApiApplication.java:83-84 | the descending compareTo comparator is total and transitive |
| CityStreamApi.SortNewestFirst | api/src/main/java/com/citystream/api/CityStreamApiApplication.java:185-186 | the sort succeeds iff fewer than two items or all have the string key; then it is a permutation in descending order |
| CityStreamApi.FirstThenSorted | api/src/main/java/com/citystream/api/CityStreamApiApplication.java:79-85 | fails iff the limit is negative or the comparator throws; otherwise the first min(limit, n) scanned items, mapped, reordered descending |
| CityStreamApi.GetEventsByCity | api/src/main/java/com/citystream/api/CityStreamApiApplication.java:79-92 | at most limit events, exactly the first ones scanned, newest timestamp first; count is the list's size |
| CityStreamApi.GetAggregations | api/src/main/java/com/citystream/api/CityStreamApiApplication.java:267-282 | at most limit windows, the first ones scanned, latest window_start first; count is the list's size |
| CityStreamApi.GetAlerts | api/src/main/java/com/citystream/api/CityStreamApiApplication.java:185-194 | every fetched alert, newest first; count is its size; city is echoed iff given |
| CityStreamApi.TallyTotal | api/src/main/java/com/citystream/api/CityStreamApiApplication.java:115-122 | the running total is the sum of all event_counts, as a Java int |
| CityStreamApi.TallyKeys | api/src/main/java/com/citystream/api/CityStreamApiApplication.java:117-121 | the map has an entry for every key value read and no other |
| CityStreamApi.TallyEntries | api/src/main/java/com/citystream/api/CityStreamApiApplication.java:117-121 | each entry is the sum of its key's event_counts, as a Java int |
| CityStreamApi.TallyIsSumsPerKey | api/src/main/java/com/citystream/api/CityStreamApiApplication.java:215-222 | the per-key map has exactly the values read as keys, each with its sum |
| CityStreamApi.SumByAttribute | api/src/main/java/com/citystream/api/CityStreamApiApplication.java:114-123 | the loop succeeds iff every item has an event_count, and then yields the per-key sums and the total |
| CityStreamApi.GetSummary | api/src/main/java/com/citystream/api/CityStreamApiApplication.java:114-128 | total_events is the sum of all event_counts; the breakdown has a key iff some item has that type, valued at that type's sum; fails iff an event_count is missing |
| CityStreamApi.BreakdownAddsUpToTotal | api/src/main/java/com/citystream/api/CityStreamApiApplication.java:120-127 | the breakdown's entries add up to total_events (as Java ints) |
| CityStreamApi.Entries | api/src/main/java/com/citystream/api/CityStreamApiApplication.java:224 | the entry stream lists every map entry once |
| CityStreamApi.LargestFirst | api/src/main/java/com/citystream/api/CityStreamApiApplication.java:229-231 | the comparator puts larger totals first and is total and transitive |
| CityStreamApi.CityTotals | api/src/main/java/com/citystream/api/CityStreamApiApplication.java:225-228 | one (city, total_events) per entry, in order |
| CityStreamApi.NullCityEntry | api/src/main/java/com/citystream/api/CityStreamApiApplication.java:218-227 | a null city entry comes from an item without a city |
| CityStreamApi.EveryItemHasCity | api/src/main/java/com/citystream/api/CityStreamApiApplication.java:218-227 | with no null entry, every item has a city |
| CityStreamApi.EntriesAreCityTotals | api/src/main/java/com/citystream/api/CityStreamApiApplication.java:215-228 | the entries are exactly the distinct cities, each with its total |
| CityStreamApi.CityTotalsDistinct | api/src/main/java/com/citystream/api/CityStreamApiApplication.java:224-228 | distinct map keys give distinct cities |
| CityStreamApi.SortedCitiesDistinct | api/src/main/java/com/citystream/api/CityStreamApiApplication.java:229-232 | sorting keeps the same totals, one per city |
| CityStreamApi.SortedTotals | api/src/main/java/com/citystream/api/CityStreamApiApplication.java:229-232 | the sorted list has the same totals, one per city, largest first |
| CityStreamApi.SortedCityTotals | api/src/main/java/com/citystream/api/CityStreamApiApplication.java:224-236 | one entry per distinct city with its total, largest first, as many as there are cities |
| CityStreamApi.GetCities | api/src/main/java/com/citystream/api/CityStreamApiApplication.java:215-236 | succeeds iff every item has a count and a city; then one entry per distinct city with its total, largest first, count the number of cities |
| CityStreamApi.SeverityKeys | api/src/main/java/com/citystream/api/CityStreamApiApplication.java:314-322 | the tally has high, critical and every severity read, and no other key |
| CityStreamApi.SeverityEntries | api/src/main/java/com/citystream/api/CityStreamApiApplication.java:314-322 | each entry is the number of alerts with that severity, so high and critical start at 0 |
| CityStreamApi.SumCounts | api/src/main/java/com/citystream/api/CityStreamApiApplication.java:303-306 | the sum of the event_counts as a Java int; fails iff one is missing |
| CityStreamApi.GetStats | api/src/main/java/com/citystream/api/CityStreamApiApplication.java:303-327 | total_events_processed is the sum of event_counts; the two tallies count exactly the high and critical alerts |
| CityStreamApi.SeverityCountsBounded | api/src/main/java/com/citystream/api/CityStreamApiApplication.java:318-327 | each alert increments one counter only: high plus critical never exceeds the alerts scanned |
| ApiItems.IntOf | api/src/main/java/com/citystream/api/CityStreamApiApplication.java:119 | getInt yields a 32-bit value, none when the attribute is missing |
| ApiItems.ValuesAreRead | api/src/main/java/com/citystream/api/CityStreamApiApplication.java:117-118 | a value is among the keys read iff some item reads as it |
| ApiItems.DistinctValues | api/src/main/java/com/citystream/api/CityStreamApiApplication.java:117-121 | the values read, each once |
| ApiItems.GroupsPartitionTotal | api/src/main/java/com/citystream/api/CityStreamApiApplication.java:114-123 | the per-value sums over the distinct values add up to the total sum |
| ApiItems.WrappedGroupsAgree | api/src/main/java/com/citystream/api/CityStreamApiApplication.java:120-122 | adding wrapped per-value sums wraps to the same int as adding the exact ones |
| JavaInt.Wrap32 | api/src/main/java/com/citystream/api/CityStreamApiApplication.java:121-122 | Java int arithmetic: always a 32-bit value, unchanged when already one |
| JavaInt.WrapIsModulo | api/src/main/java/com/citystream/api/CityStreamApiApplication.java:121-122 | wrapping is reduction modulo 2^32 |
| JavaInt.WrapAddLeft | api/src/main/java/com/citystream/api/CityStreamApiApplication.java:121-122 | wrapping the running sum at each step gives the wrapped exact sum |
| Sorting.Sort | api/src/main/java/com/citystream/api/CityStreamApiApplication.java:83-85 | the stable sort's result is sorted by the comparator and a permutation of its input |
| Sorting.InsertSorted | api/src/main/java/com/citystream/api/CityStreamApiApplication.java:83-85 | inserting into a sorted list keeps it sorted |
| Sorting.PermutationKeepsDistinct | api/src/main/java/com/citystream/api/CityStreamApiApplication.java:229-232 | reordering a list without repeats leaves it without repeats |
| Text.NatToStringInjective | consumer/src/main/java/com/citystream/consumer/SparkDynamoDBConsumer.java:138 | different instants render as different text |
| Text.Join3Injective | consumer/src/main/java/com/citystream/consumer/SparkDynamoDBConsumer.java:133-139 | joining with a delimiter absent from the first two parts is injective |
| Text.LexLeqTotal | api/src/main/java/com/citystream/api/CityStreamApiApplication.java:84 | String.compareTo orders any two strings |
| Text.LexLeqTransitive | api/src/main/java/com/citystream/api/CityStreamApiApplication.java:84 | String.compareTo is transitive |
| Text.LexLeqAntisymmetric | api/src/main/java/com/citystream/api/CityStreamApiApplication.java:84 | strings each at most the other are equal |
| KafkaProducer.MinLatency | producer/src/main/java/com/citystream/producer/service/KafkaProducerService.java:94 | the min fold from Long.MAX_VALUE is at most every latency |
| KafkaProducer.MaxLatency | producer/src/main/java/com/citystream/producer/service/KafkaProducerService.java:97 | the max fold from 0 is at least every latency |
| KafkaProducer.LatenciesSnoc | producer/src/main/java/com/citystream/producer/service/KafkaProducerService.java:90-98 | one more latency adds to the sum and may lower the min or raise the max |
| KafkaProducer.MinLatencyIsAttained | producer/src/main/java/com/citystream/producer/service/KafkaProducerService.java:38-94 | the min is one of the latencies once there is one, else the sentinel |
| KafkaProducer.MaxLatencyIsAttained | producer/src/main/java/com/citystream/producer/service/KafkaProducerService.java:39-97 | the max is one of the latencies or the initial 0 |
| KafkaProducer.MinAtMostMax | producer/src/main/java/com/citystream/producer/service/KafkaProducerService.java:94-97 | once a send succeeded, min <= max |
| KafkaProducer.SumBetweenMinAndMax | producer/src/main/java/com/citystream/producer/service/KafkaProducerService.java:91-97 | count * min <= total latency <= count * max, so the average lies between them |
| KafkaProducer.ReportedMinOfLatencies | producer/src/main/java/com/citystream/producer/service/KafkaProducerService.java:140 | the reported min is 0 before any success, and the true min once a latency below the sentinel was recorded |
| KafkaProducer.ProducerService.constructor | producer/src/main/java/com/citystream/producer/service/KafkaProducerService.java:35-39 | counters start at 0, min at Long.MAX_VALUE, max at 0 |
| KafkaProducer.ProducerService.RecordSuccess | producer/src/main/java/com/citystream/producer/service/KafkaProducerService.java:60-63 | successCount grows by one; the latency is added to the total and folded into min and max; failures unchanged |
| KafkaProducer.ProducerService.RecordFailure | producer/src/main/java/com/citystream/producer/service/KafkaProducerService.java:76-86 | failureCount grows by one and nothing else changes |
| KafkaProducer.ProducerService.SendEvent | producer/src/main/java/com/citystream/producer/service/KafkaProducerService.java:47-88 | a serialization failure counts a failure and sends nothing; a synchronous throw from send escapes and changes no counter; otherwise the event is sent keyed by its city and counts a success with its latency or a failure, exactly one counter growing by one |
| KafkaProducer.ProducerService.GetMetrics | producer/src/main/java/com/citystream/producer/service/KafkaProducerService.java:124-145 | totalEvents = successes + failures; min reported 0 before any success, else the stored min, at most max |
| EventGenerator.GenerateDescription | producer/src/main/java/com/citystream/producer/service/EventGeneratorService.java:45-53 | a known type's description starts with the severity; any other type gives "City event detected" |
| EventGenerator.DescriptionIdentifiesType | producer/src/main/java/com/citystream/producer/service/EventGeneratorService.java:46-50 | with the severity fixed, the description tells the four types apart |
| EventGenerator.MakeEvent | producer/src/main/java/com/citystream/producer/service/EventGeneratorService.java:30-39 | the event's type, city and severity are the chosen vocabulary entries; its description begins with its severity, never the default |
| EventGenerator.GenerateEvent | producer/src/main/java/com/citystream/producer/service/EventGeneratorService.java:28-43 | one event is built and sent exactly once; an exception escaping the send escapes here and counts nothing |

## Left out

- Spark session setup, the Kafka source, `writeStream`/`start`, checkpoints, `awaitAnyTermination` and
  the console query are not modelled. They are runtime plumbing.
- `from_json` is not modelled: messages arrive already parsed, with each field possibly null.
- Jackson serialisation is not modelled: whether an event serializes is a parameter of `SendEvent`.
- `DynamoDBWriter.open`/`close` are not modelled: creating and shutting down a client is I/O.
- The three queries run concurrently, and the producer's callback runs asynchronously. The model takes
  them one at a time: `SendEvent` handles Kafka's answer at once.
- Scan and query filtering, the alerts cutoff, `withMaxResultSize` and paging all happen in DynamoDB.
  The items they return are parameters of the handlers.
- `health()`, `generated_at`, `successRate`, `avgLatencyMs`, `eventsPerSecond`, `uptimeSeconds` and log
  output are not modelled. They are clock reads, floating point or logging.
  `SumBetweenMinAndMax` bounds the total from which the average is derived.
- KafkaProducer.ProducerService.RecordSuccess: the `LongAdder` total and the counters are unbounded
  integers. Their 64-bit wrap-around is not modelled; it would take 2^63 milliseconds of latency.
- KafkaProducer.ProducerService.SendEvent: the latency is given as a value within `long` range. Its
  measurement with `Instant.now` is not modelled.
- DynamoDBWriter.TimestampText: `Timestamp.toString` is replaced by the decimal microseconds. The
  calendar format is not modelled. `Timestamp.toString` renders local time without an offset, and no
  time zone is set, so it gives distinct texts for distinct instants only in a zone without daylight
  saving, such as UTC. The model assumes such a zone.
- WindowedAggregation.DateFormat: `date_format(..., "yyyy-MM-dd'T'HH:mm:ss")` is replaced by the
  decimal whole seconds. The real format renders the session's local time without an offset, so it is
  injective on window starts only in a zone without daylight saving, such as UTC. At a fall-back
  transition, two window starts an hour apart get the same text and their `partition_key`s collide.
  `PartitionKeyInjective` and `GroupsDoNotCollide` hold under that assumption.
- ConsumerEvents.EventIdIdentifiesMessage: injectivity is stated only for cities and types without '-'.
  This holds for the producer's vocabularies, but a free-form city such as "a-b" can collide.
- WindowedAggregation.PartitionKeyInjective: injectivity is stated only for cities and types without
  '#', as the keys need.
- DynamoDBWriter.PrimaryKeyOf: the service's other item checks (size limits, empty strings, attribute
  types) are not modelled. A put is rejected only for a missing key, or as the service's answer.
- ApiItems.TextOf: `getString` on a number attribute returns its text in the SDK. Here it is treated
  as absent. The items read here hold strings under the fields read.
- ApiItems.IntOf: `getInt` on a string attribute holding digits parses it in the SDK. Here it is
  treated as missing, which fails the handler.
- ApiItems.Count: an item without an `event_count` counts 0. Sums are only used when every item has
  one, because the handler fails otherwise.
- Text.LexLeq: compares Dafny characters, not Java's UTF-16 code units. The two orders differ only
  above the Basic Multilingual Plane.
- CityStreamApi.Entries: the `HashMap` iteration order is not modelled. Any order is allowed, so the
  relative order of cities with equal totals is not determined.
- The producer-side `CityEvent` bean, `MetricsController` and `HealthController` are not modelled.
  They only read and write fields.
