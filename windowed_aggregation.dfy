/** The consumer's windowed aggregation (SparkDynamoDBConsumer): five-minute
    tumbling windows on `processing_time`, a ten-minute watermark, grouping by
    (window, city, event_type) with count, collected severities and latest
    processing time, and the `partition_key` of each aggregate row. */
module WindowedAggregation {
  import opened Wrappers
  import opened Text
  import opened Values
  import opened ConsumerEvents

  const MicrosPerSecond: nat := 1_000_000
  /** `window(processing_time, "5 minutes")` */
  const WindowWidth: nat := 300 * MicrosPerSecond
  /** `withWatermark("processing_time", "10 minutes")` */
  const Lateness: nat := 600 * MicrosPerSecond

  // ---------------------------------------------------------------------
  // Windows

  /** Start of the tumbling window holding instant `t`. */
  function WindowStart(t: nat): (s: nat)
    ensures s <= t < s + WindowWidth
    ensures s % WindowWidth == 0
  {
    t - t % WindowWidth
  }

  /** Every instant lies in exactly one window: any aligned start whose
      window holds `t` is WindowStart(t). */
  lemma WindowIsUnique(t: nat, s: nat)
    requires s % WindowWidth == 0 && s <= t < s + WindowWidth
    ensures s == WindowStart(t)
  {
    var w := WindowStart(t);
    var a, b := s / WindowWidth, w / WindowWidth;
    assert s == a * WindowWidth && w == b * WindowWidth;
  }

  /** The instant at a window's end opens the next window. */
  lemma WindowEndStartsNextWindow(t: nat)
    ensures WindowStart(WindowStart(t) + WindowWidth) == WindowStart(t) + WindowWidth
  {
    var s := WindowStart(t) + WindowWidth;
    assert s % WindowWidth == 0 by {
      assert s == (t / WindowWidth + 1) * WindowWidth;
    }
    WindowIsUnique(s, s);
  }

  // ---------------------------------------------------------------------
  // Groups and their aggregates

  /** The grouping key (window, city, event_type); null city or type is a
      group of its own, as in Spark's groupBy. */
  datatype GroupKey = GroupKey(windowStart: nat, city: Option<string>, eventType: Option<string>)

  function KeyOf(e: Event): GroupKey
  {
    GroupKey(WindowStart(e.processingTime), e.city, e.eventType)
  }

  function WindowEnd(k: GroupKey): nat
  {
    k.windowStart + WindowWidth
  }

  /** `count("*")`, `collect_list("severity")`, `max("processing_time")`. */
  datatype Agg = Agg(eventCount: nat, severities: seq<string>, lastUpdated: nat)

  /** The events of group `k`, in stream order. */
  function Members(es: seq<Event>, k: GroupKey): (g: seq<Event>)
    ensures |g| <= |es|
  {
    if |es| == 0 then []
    else Members(es[..|es| - 1], k) + (if KeyOf(es[|es| - 1]) == k then [es[|es| - 1]] else [])
  }

  lemma MembersSnoc(es: seq<Event>, e: Event, k: GroupKey)
    ensures Members(es + [e], k) == Members(es, k) + (if KeyOf(e) == k then [e] else [])
  {
    assert (es + [e])[..|es|] == es;
  }

  /** A group holds exactly the events of its key, each as often as the
      stream does. */
  lemma {:induction false} MembersAreTheGroup(es: seq<Event>, k: GroupKey)
    ensures forall e :: e in Members(es, k) ==> e in es && KeyOf(e) == k
    ensures forall e :: KeyOf(e) == k ==> multiset(Members(es, k))[e] == multiset(es)[e]
  {
    if |es| != 0 {
      var prefix, last := es[..|es| - 1], es[|es| - 1];
      assert es == prefix + [last];
      MembersAreTheGroup(prefix, k);
    }
  }

  /** `collect_list`: the non-null severities, in order. */
  function CollectSeverities(es: seq<Event>): (r: seq<string>)
    ensures |r| <= |es|
    ensures (forall i :: 0 <= i < |es| ==> es[i].severity.Some?) <==> |r| == |es|
    ensures (forall i :: 0 <= i < |es| ==> es[i].severity.Some?) ==>
      forall i :: 0 <= i < |es| ==> r[i] == es[i].severity.value
    ensures forall s :: s in r ==> exists e :: e in es && e.severity == Some(s)
  {
    if |es| == 0 then []
    else
      var prefix, last := es[..|es| - 1], es[|es| - 1];
      assert forall e :: e in prefix ==> e in es;
      CollectSeverities(prefix) + (if last.severity.Some? then [last.severity.value] else [])
  }

  /** `sevs` is what `collect_list` yields for `es`: the severities read at
      the strictly increasing positions `idx`, which are every position whose
      severity is present. */
  ghost predicate SelectsPresent(es: seq<Event>, idx: seq<nat>, sevs: seq<string>)
  {
    && |idx| == |sevs|
    && (forall j :: 0 <= j < |idx| ==> idx[j] < |es| && es[idx[j]].severity == Some(sevs[j]))
    && (forall j, k :: 0 <= j < k < |idx| ==> idx[j] < idx[k])
    && (forall i :: 0 <= i < |es| && es[i].severity.Some? ==> i in idx)
  }

  /** `collect_list` keeps every non-null severity, in stream order, and
      nothing else, whichever severities are null. */
  lemma {:induction false} CollectSeveritiesSelectsPresent(es: seq<Event>)
    ensures exists idx :: SelectsPresent(es, idx, CollectSeverities(es))
  {
    if |es| == 0 {
      assert SelectsPresent(es, [], CollectSeverities(es));
    } else {
      var prefix, last := es[..|es| - 1], es[|es| - 1];
      assert es == prefix + [last];
      CollectSeveritiesSelectsPresent(prefix);
      var idx: seq<nat> :| SelectsPresent(prefix, idx, CollectSeverities(prefix));
      var sevs := CollectSeverities(prefix);
      SelectsPresentSnoc(prefix, last, idx, sevs);
      if last.severity.Some? {
        assert CollectSeverities(es) == sevs + [last.severity.value];
        assert SelectsPresent(es, idx + [|prefix|], CollectSeverities(es));
      } else {
        assert CollectSeverities(es) == sevs;
        assert SelectsPresent(es, idx, CollectSeverities(es));
      }
    }
  }

  /** One more event extends the selection by its severity, if present. */
  lemma SelectsPresentSnoc(es: seq<Event>, e: Event, idx: seq<nat>, sevs: seq<string>)
    requires SelectsPresent(es, idx, sevs)
    ensures e.severity.Some? ==> SelectsPresent(es + [e], idx + [|es|], sevs + [e.severity.value])
    ensures e.severity.None? ==> SelectsPresent(es + [e], idx, sevs)
  {
    var es' := es + [e];
    forall j | 0 <= j < |idx| ensures es'[idx[j]] == es[idx[j]] {
    }
    forall i | 0 <= i < |es| ensures es'[i] == es[i] {
    }
  }

  /** `max("processing_time")` of a non-empty group. */
  function LatestProcessingTime(es: seq<Event>): (t: nat)
    requires |es| > 0
    ensures forall e :: e in es ==> e.processingTime <= t
    ensures exists e :: e in es && e.processingTime == t
  {
    if |es| == 1 then es[0].processingTime
    else
      var prefix, last := es[..|es| - 1], es[|es| - 1];
      assert es == prefix + [last];
      var p := LatestProcessingTime(prefix);
      if p < last.processingTime then last.processingTime else p
  }

  /** The aggregate of a non-empty group computed in one pass. */
  function Summarize(g: seq<Event>): Agg
    requires |g| > 0
  {
    Agg(|g|, CollectSeverities(g), LatestProcessingTime(g))
  }

  /** Merging a stored aggregate with newer contributions, as Spark's
      state store does across micro-batches. */
  function Combine(a: Agg, b: Agg): (c: Agg)
    ensures c.eventCount == a.eventCount + b.eventCount
    ensures |c.severities| == |a.severities| + |b.severities|
    ensures c.severities[..|a.severities|] == a.severities
    ensures c.severities == a.severities + b.severities
    ensures a.lastUpdated <= c.lastUpdated && b.lastUpdated <= c.lastUpdated
    ensures c.lastUpdated == a.lastUpdated || c.lastUpdated == b.lastUpdated
  {
    Agg(a.eventCount + b.eventCount, a.severities + b.severities,
        if a.lastUpdated < b.lastUpdated then b.lastUpdated else a.lastUpdated)
  }

  /** A group's aggregate states what its events are: its count, exactly
      their severities, and their latest processing time. */
  lemma SummaryDescribesGroup(es: seq<Event>, k: GroupKey)
    requires |Members(es, k)| > 0
    ensures var g, a := Members(es, k), Summarize(Members(es, k));
      && a.eventCount == |g|
      && |a.severities| <= a.eventCount
      && ((forall e :: e in g ==> e.severity.Some?) ==> |a.severities| == a.eventCount)
      && (exists idx :: SelectsPresent(g, idx, a.severities))
      && (forall e :: e in es && KeyOf(e) == k ==> e.processingTime <= a.lastUpdated)
      && (exists e :: e in es && KeyOf(e) == k && e.processingTime == a.lastUpdated)
  {
    var g := Members(es, k);
    MembersAreTheGroup(es, k);
    CollectSeveritiesSelectsPresent(g);
    forall e | e in es && KeyOf(e) == k ensures e in g {
      assert multiset(g)[e] == multiset(es)[e] > 0;
    }
    if forall e :: e in g ==> e.severity.Some? {
      assert forall i :: 0 <= i < |g| ==> g[i] in g;
    }
  }

  /** A group's aggregate extended by one more event. */
  lemma SummarizeSnoc(g: seq<Event>, e: Event)
    requires |g| > 0
    ensures Summarize(g + [e]) == Combine(Summarize(g), Summarize([e]))
  {
    var ge := g + [e];
    assert ge[..|g|] == g && ge[|g|] == e;
    assert [e][..0] == [];
    assert CollectSeverities(ge) == CollectSeverities(g) + CollectSeverities([e]);
    assert LatestProcessingTime([e]) == e.processingTime;
  }

  lemma CombineAssociative(a: Agg, b: Agg, c: Agg)
    ensures Combine(Combine(a, b), c) == Combine(a, Combine(b, c))
  {
    assert (a.severities + b.severities) + c.severities == a.severities + (b.severities + c.severities);
  }

  /** One event folded into the running state. */
  function AddEvent(m: map<GroupKey, Agg>, e: Event): map<GroupKey, Agg>
  {
    var k := KeyOf(e);
    m[k := if k in m then Combine(m[k], Summarize([e])) else Summarize([e])]
  }

  /** The running state after a sequence of events, one at a time. */
  function Fold(m: map<GroupKey, Agg>, es: seq<Event>): map<GroupKey, Agg>
  {
    if |es| == 0 then m else AddEvent(Fold(m, es[..|es| - 1]), es[|es| - 1])
  }

  /** Folding events one at a time yields, per group, the stored aggregate
      merged with the summary of that group's new events; other groups keep
      their state. */
  lemma {:induction false} FoldIsPerGroupSummary(m: map<GroupKey, Agg>, es: seq<Event>, k: GroupKey)
    ensures k in Fold(m, es) <==> k in m || |Members(es, k)| > 0
    ensures |Members(es, k)| == 0 && k in m ==> Fold(m, es)[k] == m[k]
    ensures |Members(es, k)| > 0 && k !in m ==> Fold(m, es)[k] == Summarize(Members(es, k))
    ensures |Members(es, k)| > 0 && k in m ==>
      Fold(m, es)[k] == Combine(m[k], Summarize(Members(es, k)))
  {
    if |es| != 0 {
      var prefix, last := es[..|es| - 1], es[|es| - 1];
      FoldIsPerGroupSummary(m, prefix, k);
      var prev := Fold(m, prefix);
      assert Fold(m, es) == AddEvent(prev, last);
      var g := Members(prefix, k);
      if KeyOf(last) == k {
        assert Members(es, k) == g + [last];
        if |g| > 0 {
          SummarizeSnoc(g, last);
          if k in m {
            CombineAssociative(m[k], Summarize(g), Summarize([last]));
          }
        } else {
          assert g + [last] == [last];
        }
      } else {
        assert Members(es, k) == g;
      }
    }
  }

  // ---------------------------------------------------------------------
  // Watermark and micro-batches

  /** The aggregation query's state between micro-batches. */
  datatype StreamState = StreamState(groups: map<GroupKey, Agg>, watermark: int)

  /** No state and Spark's initial watermark of 0. */
  const Initial: StreamState := StreamState(map[], 0)

  /** A window still accepts events while its end is after the watermark. */
  predicate IsOpen(k: GroupKey, watermark: int)
  {
    WindowEnd(k) > watermark
  }

  /** The events of a batch whose window is still open. */
  function Accepted(batch: seq<Event>, watermark: int): (r: seq<Event>)
    ensures |r| <= |batch|
  {
    if |batch| == 0 then []
    else
      var last := batch[|batch| - 1];
      Accepted(batch[..|batch| - 1], watermark) + (if IsOpen(KeyOf(last), watermark) then [last] else [])
  }

  /** An open group loses none of its events to the lateness filter, a closed
      one keeps none. */
  lemma {:induction false} MembersOfAccepted(batch: seq<Event>, watermark: int, k: GroupKey)
    ensures Members(Accepted(batch, watermark), k) ==
      if IsOpen(k, watermark) then Members(batch, k) else []
  {
    if |batch| != 0 {
      var prefix, last := batch[..|batch| - 1], batch[|batch| - 1];
      MembersOfAccepted(prefix, watermark, k);
      var acc := Accepted(prefix, watermark);
      var tail := if KeyOf(last) == k then [last] else [];
      assert Members(batch, k) == Members(prefix, k) + tail;
      if IsOpen(KeyOf(last), watermark) {
        assert Accepted(batch, watermark) == acc + [last];
        MembersSnoc(acc, last, k);
        assert Members(Accepted(batch, watermark), k) == Members(acc, k) + tail;
        if !IsOpen(k, watermark) {
          assert tail == [];
        }
      } else {
        assert Accepted(batch, watermark) == acc;
        if IsOpen(k, watermark) {
          assert tail == [];
          assert Members(batch, k) == Members(prefix, k);
        }
      }
    }
  }

  /** The watermark after a batch: the largest processing time observed
      minus the lateness, never moving back. */
  function NextWatermark(watermark: int, batch: seq<Event>): (w: int)
    ensures watermark <= w
    ensures forall e :: e in batch ==> e.processingTime - Lateness <= w
    ensures w == watermark || exists e :: e in batch && w == e.processingTime - Lateness
  {
    if |batch| == 0 then watermark
    else
      var latest := LatestProcessingTime(batch) - Lateness;
      if watermark < latest then latest else watermark
  }

  /** What one micro-batch produces: the next state and the rows emitted in
      update mode (the groups this batch changed). */
  datatype BatchResult = BatchResult(state: StreamState, updates: map<GroupKey, Agg>)

  /** One micro-batch: drop events of closed windows, fold in the rest,
      evict closed windows' state, emit the changed groups, advance the
      watermark. */
  function Step(s: StreamState, batch: seq<Event>): (r: BatchResult)
    ensures s.watermark <= r.state.watermark
    ensures forall k :: k in r.state.groups ==> IsOpen(k, s.watermark)
    ensures forall k :: k in r.updates ==> k in r.state.groups && r.updates[k] == r.state.groups[k]
    ensures forall k :: !IsOpen(k, s.watermark) ==> k !in r.updates && k !in r.state.groups
  {
    var accepted := Accepted(batch, s.watermark);
    var merged := Fold(s.groups, accepted);
    var kept := map k | k in merged && IsOpen(k, s.watermark) :: merged[k];
    var updates := map k | k in kept && |Members(accepted, k)| > 0 :: kept[k];
    BatchResult(StreamState(kept, NextWatermark(s.watermark, batch)), updates)
  }

  /** Per open group, counts and severities accumulate across micro-batches:
      the stored aggregate is merged with the summary of the group's events
      in this batch, and the group is emitted exactly when it had some. */
  lemma StepAccumulates(s: StreamState, batch: seq<Event>, k: GroupKey)
    requires IsOpen(k, s.watermark)
    ensures var r := Step(s, batch);
      var g := Members(batch, k);
      && (k in r.updates <==> |g| > 0)
      && (|g| > 0 && k in s.groups ==> r.state.groups[k] == Combine(s.groups[k], Summarize(g)))
      && (|g| > 0 && k !in s.groups ==> r.state.groups[k] == Summarize(g))
      && (|g| == 0 ==> (k in r.state.groups <==> k in s.groups))
      && (|g| == 0 && k in s.groups ==> r.state.groups[k] == s.groups[k])
  {
    MembersOfAccepted(batch, s.watermark, k);
    FoldIsPerGroupSummary(s.groups, Accepted(batch, s.watermark), k);
  }

  /** An event no older than the watermark always finds its window open. */
  lemma OnTimeEventIsAccepted(e: Event, watermark: int)
    requires watermark <= e.processingTime
    ensures IsOpen(KeyOf(e), watermark)
  {
  }

  /** With processing time as event time every event of a batch stamped at
      `now` is on time as long as the clock has not gone back, and the
      watermark stays behind the clock: no data is ever dropped as late. */
  lemma {:induction false} MonotoneClockDropsNothing(s: StreamState, ms: seq<Message>, now: nat)
    requires s.watermark <= now
    ensures Accepted(EnrichBatch(ms, now), s.watermark) == EnrichBatch(ms, now)
    ensures NextWatermark(s.watermark, EnrichBatch(ms, now)) <= now
  {
    if |ms| != 0 {
      MonotoneClockDropsNothing(s, ms[..|ms| - 1], now);
      var batch := EnrichBatch(ms, now);
      assert batch[..|batch| - 1] == EnrichBatch(ms[..|ms| - 1], now);
      OnTimeEventIsAccepted(batch[|batch| - 1], s.watermark);
    }
  }

  /** The state after a sequence of micro-batches. */
  function Run(s: StreamState, batches: seq<seq<Event>>): StreamState
  {
    if |batches| == 0 then s else Step(Run(s, batches[..|batches| - 1]), batches[|batches| - 1]).state
  }

  /** The watermark never regresses over a run. */
  lemma {:induction false} RunWatermarkMonotone(s: StreamState, batches: seq<seq<Event>>)
    ensures s.watermark <= Run(s, batches).watermark
  {
    if |batches| != 0 {
      RunWatermarkMonotone(s, batches[..|batches| - 1]);
    }
  }

  /** A window closed by the watermark stays closed: no later micro-batch
      emits it or keeps state for it. */
  lemma {:induction false} ClosedWindowIsFrozen(s: StreamState, batches: seq<seq<Event>>, k: GroupKey)
    requires !IsOpen(k, s.watermark)
    ensures |batches| > 0 ==> k !in Run(s, batches).groups
    ensures forall i :: 0 <= i < |batches| ==> k !in Step(Run(s, batches[..i]), batches[i]).updates
  {
    forall i | 0 <= i < |batches|
      ensures k !in Step(Run(s, batches[..i]), batches[i]).updates
    {
      RunWatermarkMonotone(s, batches[..i]);
    }
    if |batches| != 0 {
      var p := Run(s, batches[..|batches| - 1]);
      RunWatermarkMonotone(s, batches[..|batches| - 1]);
      assert !IsOpen(k, p.watermark);
      assert Run(s, batches) == Step(p, batches[|batches| - 1]).state;
    }
  }

  // ---------------------------------------------------------------------
  // Aggregate rows

  /** `date_format(window.start, "yyyy-MM-dd'T'HH:mm:ss")`: the instant to
      whole seconds, rendered; distinct seconds render differently. */
  function DateFormat(t: nat): string
  {
    NatToString(t / MicrosPerSecond)
  }

  /** `concat(city, "#", event_type, "#", date_format(window.start))`, null
      when city or type is null. */
  function PartitionKey(k: GroupKey): (pk: Option<string>)
    ensures pk.Some? <==> k.city.Some? && k.eventType.Some?
  {
    if k.city.Some? && k.eventType.Some? then
      Some(Join3(k.city.value, k.eventType.value, DateFormat(k.windowStart), '#'))
    else
      None
  }

  /** Distinct groups get distinct partition keys, provided city and type
      hold no '#'. */
  lemma PartitionKeyInjective(k1: GroupKey, k2: GroupKey)
    requires PartitionKey(k1).Some? && PartitionKey(k2).Some?
    requires '#' !in k1.city.value && '#' !in k1.eventType.value
    requires '#' !in k2.city.value && '#' !in k2.eventType.value
    requires k1.windowStart % WindowWidth == 0 && k2.windowStart % WindowWidth == 0
    ensures PartitionKey(k1) == PartitionKey(k2) <==> k1 == k2
  {
    if PartitionKey(k1) == PartitionKey(k2) {
      Join3Injective(k1.city.value, k1.eventType.value, DateFormat(k1.windowStart),
                     k2.city.value, k2.eventType.value, DateFormat(k2.windowStart), '#');
      NatToStringInjective(k1.windowStart / MicrosPerSecond, k2.windowStart / MicrosPerSecond);
      WholeSeconds(k1.windowStart);
      WholeSeconds(k2.windowStart);
    }
  }

  /** A window start is a whole number of seconds, so formatting it to
      seconds loses nothing. */
  lemma WholeSeconds(t: nat)
    requires t % WindowWidth == 0
    ensures t == (t / MicrosPerSecond) * MicrosPerSecond
  {
    var k := (t / WindowWidth) * 300;
    assert t == k * 1_000_000;
    assert t / 1_000_000 == k;
  }

  /** The aggregation row: partition_key, window_start, window_end, city,
      event_type, event_count, severities, last_updated. */
  function AggRow(k: GroupKey, a: Agg): (row: Row)
    ensures NamesDistinct(row)
    ensures |row| == 8
  {
    [("partition_key", StrOrNull(PartitionKey(k))),
     ("window_start", Timestamp(k.windowStart)),
     ("window_end", Timestamp(WindowEnd(k))),
     ("city", StrOrNull(k.city)),
     ("event_type", StrOrNull(k.eventType)),
     ("event_count", Num(a.eventCount)),
     ("severities", List(seq(|a.severities|, i requires 0 <= i < |a.severities| => Str(a.severities[i])))),
     ("last_updated", Timestamp(a.lastUpdated))]
  }
}
