/** The synthetic event source (EventGeneratorService): three fixed
    vocabularies, a description per event type, and the scheduled task that
    builds one event and hands it to the producer. The random choices are
    given as indices and the clock reading as a parameter. */
module EventGenerator {
  import opened KafkaProducer

  const EventTypes: seq<string> := ["traffic", "weather", "incident", "construction"]
  const Cities: seq<string> := ["SF", "NYC", "LA", "Chicago", "Seattle", "Boston"]
  const Severities: seq<string> := ["low", "medium", "high", "critical"]

  const DefaultDescription: string := "City event detected"

  /** `generateDescription`: the severity followed by the event type's own
      phrase, or a fixed text for a type outside the vocabulary. */
  function GenerateDescription(eventType: string, severity: string): (d: string)
    ensures eventType in EventTypes ==> |severity| < |d| && d[..|severity|] == severity
    ensures eventType !in EventTypes ==> d == DefaultDescription
  {
    match eventType
    case "traffic" => severity + " traffic congestion detected"
    case "weather" => severity + " weather condition reported"
    case "incident" => severity + " incident reported, emergency services notified"
    case "construction" => severity + " construction work in progress"
    case _ => DefaultDescription
  }

  /** With the severity fixed, the description tells the four event types
      apart: their phrases all have different lengths. */
  lemma DescriptionIdentifiesType(t1: string, t2: string, severity: string)
    requires t1 in EventTypes && t2 in EventTypes
    requires GenerateDescription(t1, severity) == GenerateDescription(t2, severity)
    ensures t1 == t2
  {
    assert |GenerateDescription(t1, severity)| == |GenerateDescription(t2, severity)|;
  }

  /** The event `generateEvent` builds from its three random choices. */
  function MakeEvent(typeIndex: nat, cityIndex: nat, severityIndex: nat, now: nat): (e: CityEvent)
    requires typeIndex < |EventTypes| && cityIndex < |Cities| && severityIndex < |Severities|
    ensures e.eventType in EventTypes && e.city in Cities && e.severity in Severities
    ensures e.eventType == EventTypes[typeIndex] && e.city == Cities[cityIndex] && e.severity == Severities[severityIndex]
    ensures e.timestamp == now
    ensures |e.severity| < |e.description| && e.description[..|e.severity|] == e.severity
    ensures e.description != DefaultDescription
  {
    var eventType := EventTypes[typeIndex];
    var severity := Severities[severityIndex];
    var d := GenerateDescription(eventType, severity);
    assert d != DefaultDescription by {
      assert |d| != |DefaultDescription|;
    }
    CityEvent(Cities[cityIndex], eventType, severity, d, now)
  }

  /** `generateEvent`: builds one event from the vocabularies and sends it,
      exactly once, through the producer; an exception escaping `sendEvent`
      escapes here too. */
  method GenerateEvent(producer: ProducerService, typeIndex: nat, cityIndex: nat, severityIndex: nat, now: nat,
                       serializes: bool, delivery: Delivery) returns (escaped: bool)
    requires typeIndex < |EventTypes| && cityIndex < |Cities| && severityIndex < |Severities|
    requires producer.Valid() && (delivery.Acknowledged? ==> IsLong(delivery.latencyMs))
    modifies producer
    ensures producer.Valid()
    ensures escaped <==> serializes && delivery.Thrown?
    ensures producer.requested == old(producer.requested) + [MakeEvent(typeIndex, cityIndex, severityIndex, now)]
    ensures producer.successCount + producer.failureCount
         == old(producer.successCount) + old(producer.failureCount) + (if escaped then 0 else 1)
  {
    var event := MakeEvent(typeIndex, cityIndex, severityIndex, now);
    escaped := producer.SendEvent(event, serializes, delivery);
  }
}
