/** The consumer's per-event derivations (SparkDynamoDBConsumer): the parsed
    event with its processing time and `event_id`, the raw-archive row, and
    the alert filter with its row. */
module ConsumerEvents {
  import opened Wrappers
  import opened Text
  import opened Values

  /** A message after `from_json` with the consumer's schema: every field is
      null when the JSON lacks it. */
  datatype Message = Message(
    city: Option<string>,
    eventType: Option<string>,
    severity: Option<string>,
    description: Option<string>,
    timestamp: Option<string>)

  /** A message with the columns the consumer adds: `processing_time` (the
      micro-batch's `current_timestamp`, in microseconds) and `event_id`. */
  datatype Event = Event(
    city: Option<string>,
    eventType: Option<string>,
    severity: Option<string>,
    description: Option<string>,
    timestamp: Option<string>,
    processingTime: nat,
    eventId: Option<string>)

  /** Spark's `concat(city, "-", event_type, "-", timestamp)`: null as soon
      as one of the three columns is null. */
  function EventId(m: Message): (id: Option<string>)
    ensures id.Some? <==> m.city.Some? && m.eventType.Some? && m.timestamp.Some?
    ensures id.Some? ==> |id.value| == |m.city.value| + |m.eventType.value| + |m.timestamp.value| + 2
    ensures id.Some? ==> id.value == m.city.value + "-" + m.eventType.value + "-" + m.timestamp.value
  {
    if m.city.Some? && m.eventType.Some? && m.timestamp.Some? then
      Some(Join3(m.city.value, m.eventType.value, m.timestamp.value, '-'))
    else
      None
  }

  /** The columns added to every message of a micro-batch stamped at `now`. */
  function Enrich(m: Message, now: nat): (e: Event)
    ensures e.processingTime == now
    ensures (e.city, e.eventType, e.severity, e.description, e.timestamp)
         == (m.city, m.eventType, m.severity, m.description, m.timestamp)
  {
    Event(m.city, m.eventType, m.severity, m.description, m.timestamp, now, EventId(m))
  }

  /** A micro-batch: every message gets the same processing time. */
  function EnrichBatch(ms: seq<Message>, now: nat): (es: seq<Event>)
    ensures |es| == |ms|
    ensures forall i :: 0 <= i < |ms| ==> es[i] == Enrich(ms[i], now)
  {
    if |ms| == 0 then [] else EnrichBatch(ms[..|ms| - 1], now) + [Enrich(ms[|ms| - 1], now)]
  }

  /** Two messages with the same id agree on city, type and timestamp,
      provided city and type hold no '-' (true of the producer's
      vocabularies); the id depends on nothing else. */
  lemma EventIdIdentifiesMessage(m1: Message, m2: Message)
    requires EventId(m1).Some? && EventId(m2).Some?
    requires '-' !in m1.city.value && '-' !in m1.eventType.value
    requires '-' !in m2.city.value && '-' !in m2.eventType.value
    ensures EventId(m1) == EventId(m2) <==>
      m1.city == m2.city && m1.eventType == m2.eventType && m1.timestamp == m2.timestamp
  {
    if EventId(m1) == EventId(m2) {
      Join3Injective(m1.city.value, m1.eventType.value, m1.timestamp.value,
                     m2.city.value, m2.eventType.value, m2.timestamp.value, '-');
    }
  }

  /** A string column: null stays null. */
  function StrOrNull(o: Option<string>): (v: Value)
    ensures v == Null <==> o.None?
  {
    if o.Some? then Str(o.value) else Null
  }

  /** The raw-archive projection: event_id, timestamp, city, event_type,
      severity, description, processing_time. */
  function RawRow(e: Event): (row: Row)
    ensures NamesDistinct(row)
    ensures |row| == 7 && row[0] == ("event_id", StrOrNull(e.eventId))
    ensures row[6] == ("processing_time", Timestamp(e.processingTime))
  {
    [("event_id", StrOrNull(e.eventId)),
     ("timestamp", StrOrNull(e.timestamp)),
     ("city", StrOrNull(e.city)),
     ("event_type", StrOrNull(e.eventType)),
     ("severity", StrOrNull(e.severity)),
     ("description", StrOrNull(e.description)),
     ("processing_time", Timestamp(e.processingTime))]
  }

  /** `severity isin ("high", "critical")`; a null severity never passes. */
  predicate IsAlert(e: Event)
  {
    e.severity == Some("high") || e.severity == Some("critical")
  }

  /** The alert stream: the high and critical events, in order. */
  function Alerts(es: seq<Event>): (r: seq<Event>)
    ensures |r| <= |es|
    ensures forall e :: e in r ==> IsAlert(e) && e in es
    ensures forall e :: IsAlert(e) ==> multiset(r)[e] == multiset(es)[e]
    ensures forall e :: !IsAlert(e) ==> multiset(r)[e] == 0
  {
    if |es| == 0 then []
    else
      var prefix := es[..|es| - 1];
      var last := es[|es| - 1];
      assert es == prefix + [last];
      Alerts(prefix) + (if IsAlert(last) then [last] else [])
  }

  /** Filtering commutes with concatenation, so alerts keep the order of the
      stream, however it is cut into micro-batches. */
  lemma {:induction false} AlertsOfConcat(a: seq<Event>, b: seq<Event>)
    ensures Alerts(a + b) == Alerts(a) + Alerts(b)
    decreases |b|
  {
    if |b| != 0 {
      var b' := b[..|b| - 1];
      assert (a + b)[..|a + b| - 1] == a + b';
      assert (a + b)[|a + b| - 1] == b[|b| - 1];
      AlertsOfConcat(a, b');
    } else {
      assert a + b == a;
    }
  }

  /** The alert projection: city, timestamp, event_type, severity,
      description, processing_time, event_id, all copied unchanged. */
  function AlertRow(e: Event): (row: Row)
    requires IsAlert(e)
    ensures NamesDistinct(row)
    ensures |row| == 7
    ensures row[3] == ("severity", Str(e.severity.value))
    ensures row[6] == ("event_id", StrOrNull(e.eventId))
  {
    [("city", StrOrNull(e.city)),
     ("timestamp", StrOrNull(e.timestamp)),
     ("event_type", StrOrNull(e.eventType)),
     ("severity", StrOrNull(e.severity)),
     ("description", StrOrNull(e.description)),
     ("processing_time", Timestamp(e.processingTime)),
     ("event_id", StrOrNull(e.eventId))]
  }
}
