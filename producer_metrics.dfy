/** The producer's send path and its metrics (KafkaProducerService): success
    and failure counters, and the sum, minimum and maximum of the latencies
    of acknowledged sends. Kafka's asynchronous acknowledgement is given to
    `SendEvent` as a parameter and handled at once. */
module KafkaProducer {

  const LongMax: int := 0x7fff_ffff_ffff_ffff
  const LongMin: int := -0x8000_0000_0000_0000

  predicate IsLong(x: int) { LongMin <= x <= LongMax }

  /** The producer-side event; the timestamp is the clock reading taken when
      it was built. */
  datatype CityEvent = CityEvent(city: string, eventType: string, severity: string, description: string, timestamp: nat)

  /** How Kafka answered a send, with the milliseconds it took; `Thrown` is
      `kafkaTemplate.send` throwing before it returns a future (an unknown
      topic, a closed producer, a full buffer), which `sendEvent` does not
      catch. */
  datatype Delivery = Acknowledged(latencyMs: int) | Failed(latencyMs: int) | Thrown

  /** The integer part of `ProducerMetrics`. */
  datatype ProducerMetrics = ProducerMetrics(totalEvents: int, successCount: int, failureCount: int,
                                             minLatencyMs: int, maxLatencyMs: int)

  // ---------------------------------------------------------------------
  // What the metrics fields stand for

  function Sum(ls: seq<int>): int
  {
    if |ls| == 0 then 0 else Sum(ls[..|ls| - 1]) + ls[|ls| - 1]
  }

  /** `Math.min` folded over the latencies from the `Long.MAX_VALUE` sentinel. */
  function MinLatency(ls: seq<int>): (m: int)
    ensures m <= LongMax
    ensures forall i :: 0 <= i < |ls| ==> m <= ls[i]
  {
    if |ls| == 0 then LongMax
    else
      var m := MinLatency(ls[..|ls| - 1]);
      var last := ls[|ls| - 1];
      if m <= last then m else last
  }

  /** `Math.max` folded over the latencies from 0. */
  function MaxLatency(ls: seq<int>): (m: int)
    ensures 0 <= m
    ensures forall i :: 0 <= i < |ls| ==> ls[i] <= m
  {
    if |ls| == 0 then 0
    else
      var m := MaxLatency(ls[..|ls| - 1]);
      var last := ls[|ls| - 1];
      if m >= last then m else last
  }

  /** One more latency adds to the sum and may lower the minimum or raise
      the maximum. */
  lemma LatenciesSnoc(ls: seq<int>, x: int)
    ensures Sum(ls + [x]) == Sum(ls) + x
    ensures MinLatency(ls + [x]) == if MinLatency(ls) <= x then MinLatency(ls) else x
    ensures MaxLatency(ls + [x]) == if MaxLatency(ls) >= x then MaxLatency(ls) else x
  {
    assert (ls + [x])[..|ls|] == ls;
  }

  predicate AllLong(ls: seq<int>)
  {
    forall i :: 0 <= i < |ls| ==> IsLong(ls[i])
  }

  /** Recording a `long` latency keeps every latency a `long`; RecordSuccess
      needs it to re-establish Valid(). */
  lemma AllLongSnoc(ls: seq<int>, x: int)
    requires AllLong(ls) && IsLong(x)
    ensures AllLong(ls + [x])
  {
  }

  /** The minimum is one of the latencies, or the sentinel when there are
      none. */
  lemma {:induction false} MinLatencyIsAttained(ls: seq<int>)
    requires AllLong(ls)
    ensures MinLatency(ls) == LongMax || exists i :: 0 <= i < |ls| && ls[i] == MinLatency(ls)
    ensures |ls| > 0 ==> exists i :: 0 <= i < |ls| && ls[i] == MinLatency(ls)
  {
    if |ls| != 0 {
      var prefix := ls[..|ls| - 1];
      MinLatencyIsAttained(prefix);
      if MinLatency(ls) != ls[|ls| - 1] {
        var i :| 0 <= i < |prefix| && prefix[i] == MinLatency(prefix);
        assert ls[i] == prefix[i];
      }
    }
  }

  /** The maximum is one of the latencies, or 0 when none is larger. */
  lemma {:induction false} MaxLatencyIsAttained(ls: seq<int>)
    ensures MaxLatency(ls) == 0 || exists i :: 0 <= i < |ls| && ls[i] == MaxLatency(ls)
  {
    if |ls| != 0 {
      var prefix := ls[..|ls| - 1];
      MaxLatencyIsAttained(prefix);
      if MaxLatency(ls) != ls[|ls| - 1] && MaxLatency(ls) != 0 {
        var i :| 0 <= i < |prefix| && prefix[i] == MaxLatency(prefix);
        assert ls[i] == prefix[i];
      }
    }
  }

  /** Once a send has been acknowledged, the minimum does not exceed the
      maximum. */
  lemma MinAtMostMax(ls: seq<int>)
    requires |ls| > 0
    ensures MinLatency(ls) <= MaxLatency(ls)
  {
    assert MinLatency(ls) <= ls[0] <= MaxLatency(ls);
  }

  /** The running total lies between `count * min` and `count * max`, so the
      average latency the metrics derive from it lies between the two. */
  lemma {:induction false} SumBetweenMinAndMax(ls: seq<int>)
    ensures |ls| * MinLatency(ls) <= Sum(ls) <= |ls| * MaxLatency(ls)
  {
    if |ls| != 0 {
      var prefix, last := ls[..|ls| - 1], ls[|ls| - 1];
      SumBetweenMinAndMax(prefix);
      LowerBoundStep(|prefix|, MinLatency(ls), MinLatency(prefix), Sum(prefix), last);
      UpperBoundStep(|prefix|, MaxLatency(ls), MaxLatency(prefix), Sum(prefix), last);
    }
  }

  /** One more value at least `lo`, with `lo` below the earlier bound. */
  lemma LowerBoundStep(n: nat, lo: int, prev: int, sum: int, x: int)
    requires n * prev <= sum && lo <= prev && lo <= x
    ensures (n + 1) * lo <= sum + x
  {
    assert n * lo <= n * prev by {
      assert n * prev - n * lo == n * (prev - lo);
    }
  }

  /** One more value at most `hi`, with `hi` above the earlier bound. */
  lemma UpperBoundStep(n: nat, hi: int, prev: int, sum: int, x: int)
    requires sum <= n * prev && prev <= hi && x <= hi
    ensures sum + x <= (n + 1) * hi
  {
    assert n * prev <= n * hi by {
      assert n * hi - n * prev == n * (hi - prev);
    }
  }

  /** `minLatencyMs.get() == Long.MAX_VALUE ? 0 : minLatencyMs.get()` */
  function ReportedMin(min: int): int
  {
    if min == LongMax then 0 else min
  }

  /** The reported minimum is 0 before the first acknowledgement and the
      true minimum once some latency is below `Long.MAX_VALUE`. */
  lemma ReportedMinOfLatencies(ls: seq<int>)
    requires AllLong(ls)
    ensures |ls| == 0 ==> ReportedMin(MinLatency(ls)) == 0
    ensures (exists i :: 0 <= i < |ls| && ls[i] < LongMax) ==>
              ReportedMin(MinLatency(ls)) == MinLatency(ls) && exists i :: 0 <= i < |ls| && ls[i] == MinLatency(ls)
  {
    MinLatencyIsAttained(ls);
  }

  // ---------------------------------------------------------------------
  // The service

  class ProducerService {
    var successCount: int
    var failureCount: int
    var totalLatencyMs: int
    var minLatencyMs: int
    var maxLatencyMs: int
    /** The records handed to Kafka, as (message key, event). */
    var sent: seq<(string, CityEvent)>
    /** Latencies of the acknowledged sends, oldest first. */
    ghost var latencies: seq<int>
    /** Every event `sendEvent` was called with, oldest first. */
    ghost var requested: seq<CityEvent>

    ghost predicate Valid()
      reads this
    {
      && AllLong(latencies)
      && successCount == |latencies|
      && 0 <= failureCount
      && totalLatencyMs == Sum(latencies)
      && minLatencyMs == MinLatency(latencies)
      && maxLatencyMs == MaxLatency(latencies)
      && |sent| <= |requested|
    }

    constructor()
      ensures Valid()
      ensures successCount == 0 && failureCount == 0 && totalLatencyMs == 0
      ensures minLatencyMs == LongMax && maxLatencyMs == 0
      ensures latencies == [] && sent == [] && requested == []
    {
      successCount, failureCount, totalLatencyMs := 0, 0, 0;
      minLatencyMs, maxLatencyMs := LongMax, 0;
      sent, latencies, requested := [], [], [];
    }

    /** `successCount.increment()` then `updateLatencyMetrics(latencyMs)`. */
    method RecordSuccess(latencyMs: int)
      requires Valid() && IsLong(latencyMs)
      modifies this
      ensures Valid()
      ensures latencies == old(latencies) + [latencyMs]
      ensures successCount == old(successCount) + 1
      ensures failureCount == old(failureCount)
      ensures totalLatencyMs == old(totalLatencyMs) + latencyMs
      ensures minLatencyMs == (if old(minLatencyMs) <= latencyMs then old(minLatencyMs) else latencyMs)
      ensures maxLatencyMs == (if old(maxLatencyMs) >= latencyMs then old(maxLatencyMs) else latencyMs)
      ensures sent == old(sent) && requested == old(requested)
    {
      LatenciesSnoc(latencies, latencyMs);
      AllLongSnoc(latencies, latencyMs);
      var newMin := if minLatencyMs <= latencyMs then minLatencyMs else latencyMs;
      var newMax := if maxLatencyMs >= latencyMs then maxLatencyMs else latencyMs;
      successCount, totalLatencyMs := successCount + 1, totalLatencyMs + latencyMs;
      minLatencyMs, maxLatencyMs := newMin, newMax;
      latencies := latencies + [latencyMs];
    }

    /** `failureCount.increment()`: nothing else changes. */
    method RecordFailure()
      requires Valid()
      modifies this
      ensures Valid()
      ensures failureCount == old(failureCount) + 1
      ensures successCount == old(successCount) && latencies == old(latencies)
      ensures totalLatencyMs == old(totalLatencyMs)
      ensures minLatencyMs == old(minLatencyMs) && maxLatencyMs == old(maxLatencyMs)
      ensures sent == old(sent) && requested == old(requested)
    {
      failureCount := failureCount + 1;
    }

    /** `sendEvent`: an event that fails to serialize counts as a failure and
        is not sent; otherwise it is sent keyed by its city, and Kafka's
        answer counts as a success with its latency or as a failure. A
        synchronous throw from `send` escapes (`escaped`) and counts as
        neither. */
    method SendEvent(event: CityEvent, serializes: bool, delivery: Delivery) returns (escaped: bool)
      requires Valid() && (delivery.Acknowledged? ==> IsLong(delivery.latencyMs))
      modifies this
      ensures Valid()
      ensures escaped <==> serializes && delivery.Thrown?
      ensures requested == old(requested) + [event]
      ensures sent == if serializes && !delivery.Thrown? then old(sent) + [(event.city, event)] else old(sent)
      ensures successCount + failureCount == old(successCount) + old(failureCount) + (if escaped then 0 else 1)
      ensures if serializes && delivery.Acknowledged? then
                latencies == old(latencies) + [delivery.latencyMs]
                && successCount == old(successCount) + 1 && failureCount == old(failureCount)
              else
                latencies == old(latencies)
                && failureCount == old(failureCount) + (if escaped then 0 else 1)
                && successCount == old(successCount)
                && totalLatencyMs == old(totalLatencyMs)
                && minLatencyMs == old(minLatencyMs) && maxLatencyMs == old(maxLatencyMs)
    {
      requested := requested + [event];
      if !serializes {
        RecordFailure();
        return false;
      }
      if delivery.Thrown? {
        return true;
      }
      var key := event.city;
      sent := sent + [(key, event)];
      match delivery {
        case Acknowledged(latency) => RecordSuccess(latency);
        case Failed(_) => RecordFailure();
      }
      escaped := false;
    }

    /** `getMetrics`: a snapshot of the counters; the minimum is reported as 0
        until a latency below `Long.MAX_VALUE` has been recorded. */
    method GetMetrics() returns (m: ProducerMetrics)
      requires Valid()
      ensures m.successCount == |latencies|
      ensures m.totalEvents == m.successCount + m.failureCount == |latencies| + failureCount
      ensures m.maxLatencyMs == MaxLatency(latencies)
      ensures |latencies| == 0 ==> m.minLatencyMs == 0 && m.maxLatencyMs == 0
      ensures (exists i :: 0 <= i < |latencies| && latencies[i] < LongMax) ==>
                m.minLatencyMs == MinLatency(latencies) <= m.maxLatencyMs
    {
      var successes := successCount;
      var failures := failureCount;
      var total := successes + failures;
      ReportedMinOfLatencies(latencies);
      if |latencies| > 0 {
        MinAtMostMax(latencies);
      }
      m := ProducerMetrics(total, successes, failures, ReportedMin(minLatencyMs), maxLatencyMs);
    }
  }
}
