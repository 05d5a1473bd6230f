/** The consumer's sink (SparkDynamoDBConsumer.DynamoDBWriter): each row is
    turned into a DynamoDB item (null columns skipped, sequences copied into
    lists, timestamps rendered as text, a 30-day `ttl` on raw events only)
    and put into its table, where it replaces any item with the same key. */
module DynamoDBWriter {
  import opened Wrappers
  import opened Text
  import opened Values

  /** The three tables the consumer writes. */
  datatype Table = RawEventsTable | AggregationsTable | AlertsTable

  function TableName(t: Table): string
  {
    match t
    case RawEventsTable => "citystream-raw-events"
    case AggregationsTable => "citystream-aggregations"
    case AlertsTable => "citystream-alerts"
  }

  /** 30 days, in seconds. */
  const TtlSeconds: nat := 30 * 24 * 60 * 60

  /** `java.sql.Timestamp.toString()`, rendered so that distinct instants
      give distinct text. */
  function TimestampText(micros: nat): string
  {
    NatToString(micros)
  }

  /** The attribute stored for a non-null column value: a sequence becomes a
      list of the same elements, a timestamp its text, anything else itself. */
  function Attribute(v: Value): (a: Value)
    requires v != Null
    ensures a != Null
    ensures v.List? <==> a.List?
    ensures v.List? ==> a.elems == v.elems
    ensures v.Timestamp? ==> a == Str(TimestampText(v.micros))
    ensures !v.List? && !v.Timestamp? ==> a == v
  {
    match v
    case List(elems) => List(elems)
    case Timestamp(t) => Str(TimestampText(t))
    case _ => v
  }

  /** The item built from the columns of a row, in schema order. */
  function ItemOf(row: Row): Item
  {
    if |row| == 0 then map[]
    else
      var item := ItemOf(row[..|row| - 1]);
      var (name, v) := row[|row| - 1];
      if v == Null then item else item[name := Attribute(v)]
  }

  /** The item put for a row of `table` at wall-clock second `now`. */
  function ItemFor(row: Row, table: Table, now: int): Item
  {
    if TableName(table) == TableName(RawEventsTable) then ItemOf(row)["ttl" := Num(now + TtlSeconds)]
    else ItemOf(row)
  }

  /** An attribute is present exactly when some column of that name is
      non-null. */
  lemma {:induction false} ItemHasNonNullColumns(row: Row, name: string)
    ensures name in ItemOf(row) <==> exists i :: 0 <= i < |row| && row[i].0 == name && row[i].1 != Null
  {
    if |row| != 0 {
      var prefix := row[..|row| - 1];
      ItemHasNonNullColumns(prefix, name);
      if name in ItemOf(prefix) {
        var i :| 0 <= i < |prefix| && prefix[i].0 == name && prefix[i].1 != Null;
        assert row[i] == prefix[i];
      }
      if exists i :: 0 <= i < |row| && row[i].0 == name && row[i].1 != Null {
        var i :| 0 <= i < |row| && row[i].0 == name && row[i].1 != Null;
        if i < |prefix| {
          assert prefix[i] == row[i];
        }
      }
    }
  }

  /** With distinct column names, each non-null column is stored as its
      attribute: lists keep their elements and order, timestamps become
      text. */
  lemma {:induction false} ItemStoresEachColumn(row: Row, i: nat)
    requires NamesDistinct(row)
    requires i < |row| && row[i].1 != Null
    ensures row[i].0 in ItemOf(row) && ItemOf(row)[row[i].0] == Attribute(row[i].1)
  {
    var prefix := row[..|row| - 1];
    if i < |row| - 1 {
      assert prefix[i] == row[i];
      ItemStoresEachColumn(prefix, i);
      assert row[|row| - 1].0 != row[i].0;
    }
  }

  /** Only raw-event items get a `ttl`, and it is 30 days after the write;
      otherwise the item is the row's columns alone. */
  lemma TtlOnlyOnRawEvents(row: Row, table: Table, now: int)
    requires forall i :: 0 <= i < |row| ==> row[i].0 != "ttl"
    ensures "ttl" in ItemFor(row, table, now) <==> table == RawEventsTable
    ensures table == RawEventsTable ==> ItemFor(row, table, now)["ttl"] == Num(now + 2592000)
    ensures ItemFor(row, table, now) - {"ttl"} == ItemOf(row)
  {
    ItemHasNonNullColumns(row, "ttl");
    RawEventsTableName(table);
    if table == RawEventsTable {
      assert ItemFor(row, table, now) == ItemOf(row)["ttl" := Num(now + TtlSeconds)];
      assert ItemFor(row, table, now) - {"ttl"} == ItemOf(row);
    } else {
      assert ItemFor(row, table, now) == ItemOf(row);
    }
  }

  /** Only the raw-events table has the raw-events table's name, so the
      `ttl` branch of `process` is taken exactly for raw events
      (used by TtlOnlyOnRawEvents). */
  lemma RawEventsTableName(table: Table)
    ensures TableName(table) == TableName(RawEventsTable) <==> table == RawEventsTable
  {
    if table != RawEventsTable {
      assert |TableName(table)| != |TableName(RawEventsTable)|;
    }
  }

  // ---------------------------------------------------------------------
  // Building the item, as DynamoDBWriter.process does

  /** The copy of a Scala sequence into a Java list, element by element. */
  method CopyToList(elems: seq<Value>) returns (list: seq<Value>)
    ensures list == elems
  {
    list := [];
    var i := 0;
    while i < |elems|
      invariant 0 <= i <= |elems|
      invariant list == elems[..i]
    {
      list := list + [elems[i]];
      i := i + 1;
    }
  }

  /** The loop over the row's columns, then the `ttl`. */
  method BuildItem(row: Row, table: Table, now: int) returns (item: Item)
    ensures item == ItemFor(row, table, now)
  {
    item := map[];
    var i := 0;
    while i < |row|
      invariant 0 <= i <= |row|
      invariant item == ItemOf(row[..i])
    {
      assert row[..i + 1][..i] == row[..i];
      var (name, v) := row[i];
      if v != Null {
        if v.List? {
          var list := CopyToList(v.elems);
          item := item[name := List(list)];
        } else if v.Timestamp? {
          item := item[name := Str(TimestampText(v.micros))];
        } else {
          item := item[name := v];
        }
      }
      i := i + 1;
    }
    assert row[..i] == row;
    if TableName(table) == TableName(RawEventsTable) {
      item := item["ttl" := Num(now + TtlSeconds)];
    }
  }

  // ---------------------------------------------------------------------
  // Keys and puts

  /** A table's primary key: partition key and optional sort key. */
  datatype PrimaryKey = PrimaryKey(partition: string, sort: Option<string>)

  /** The key of an item under its table's key schema (raw events by
      event_id and timestamp, aggregations by partition_key, alerts by city
      and timestamp); none when a key attribute is missing or not a string,
      which the service rejects. */
  function PrimaryKeyOf(table: Table, item: Item): Option<PrimaryKey>
  {
    var (hash, range) := match table
      case RawEventsTable => ("event_id", Some("timestamp"))
      case AggregationsTable => ("partition_key", None)
      case AlertsTable => ("city", Some("timestamp"));
    if hash !in item || !item[hash].Str? then None
    else if range.None? then Some(PrimaryKey(item[hash].s, None))
    else if range.value !in item || !item[range.value].Str? then None
    else Some(PrimaryKey(item[hash].s, Some(item[range.value].s)))
  }

  /** The key of a row's item does not depend on when it is written. */
  lemma KeyIgnoresWriteTime(row: Row, table: Table, now1: int, now2: int)
    ensures PrimaryKeyOf(table, ItemFor(row, table, now1)) == PrimaryKeyOf(table, ItemFor(row, table, now2))
    ensures PrimaryKeyOf(table, ItemFor(row, table, now1)) == PrimaryKeyOf(table, ItemOf(row))
  {
  }

  /** A row can be put when its item has the table's key attributes. */
  predicate Keyed(table: Table, row: Row)
  {
    PrimaryKeyOf(table, ItemOf(row)).Some?
  }

  /** The puts of a sequence of keyed rows, row `i` written at second
      `nows[i]` (each `process` call reads the clock afresh). */
  function Puts(table: Table, rows: seq<Row>, nows: seq<int>): (ps: seq<(PrimaryKey, Item)>)
    requires |nows| == |rows|
    requires forall i :: 0 <= i < |rows| ==> Keyed(table, rows[i])
    ensures |ps| == |rows|
  {
    if |rows| == 0 then []
    else
      var row := rows[|rows| - 1];
      assert Keyed(table, row);
      Puts(table, rows[..|rows| - 1], nows[..|rows| - 1])
        + [(PrimaryKeyOf(table, ItemOf(row)).value, ItemFor(row, table, nows[|rows| - 1]))]
  }

  /** The table after a sequence of puts: each replaces the item at its key. */
  function Apply(contents: map<PrimaryKey, Item>, ps: seq<(PrimaryKey, Item)>): map<PrimaryKey, Item>
  {
    if |ps| == 0 then contents
    else Apply(contents, ps[..|ps| - 1])[ps[|ps| - 1].0 := ps[|ps| - 1].1]
  }

  /** Puts overlay the table with the last item written at each key. */
  lemma {:induction false} ApplyOverlays(contents: map<PrimaryKey, Item>, ps: seq<(PrimaryKey, Item)>)
    ensures Apply(contents, ps) == contents + Apply(map[], ps)
    ensures forall i :: 0 <= i < |ps| ==> ps[i].0 in Apply(map[], ps)
    ensures forall k :: k in Apply(map[], ps) ==> exists i :: 0 <= i < |ps| && ps[i].0 == k
  {
    ApplyIsOverlay(contents, ps);
    ApplyWritesEveryKey(ps);
    ApplyWritesOnlyTheirKeys(ps);
  }

  lemma {:induction false} ApplyIsOverlay(contents: map<PrimaryKey, Item>, ps: seq<(PrimaryKey, Item)>)
    ensures Apply(contents, ps) == contents + Apply(map[], ps)
  {
    if |ps| != 0 {
      ApplyIsOverlay(contents, ps[..|ps| - 1]);
    }
  }

  lemma {:induction false} ApplyWritesEveryKey(ps: seq<(PrimaryKey, Item)>)
    ensures forall i :: 0 <= i < |ps| ==> ps[i].0 in Apply(map[], ps)
  {
    if |ps| != 0 {
      var prefix := ps[..|ps| - 1];
      ApplyWritesEveryKey(prefix);
      forall i | 0 <= i < |prefix| ensures ps[i].0 in Apply(map[], ps) {
        assert prefix[i] == ps[i];
      }
    }
  }

  lemma {:induction false} ApplyWritesOnlyTheirKeys(ps: seq<(PrimaryKey, Item)>)
    ensures forall k :: k in Apply(map[], ps) ==> exists i :: 0 <= i < |ps| && ps[i].0 == k
  {
    if |ps| != 0 {
      var prefix := ps[..|ps| - 1];
      ApplyWritesOnlyTheirKeys(prefix);
      forall k | k in Apply(map[], ps) ensures exists i :: 0 <= i < |ps| && ps[i].0 == k {
        if k != ps[|ps| - 1].0 {
          assert k in Apply(map[], prefix);
          var i :| 0 <= i < |prefix| && prefix[i].0 == k;
          assert ps[i] == prefix[i];
        }
      }
    }
  }


  /** Overlaying `a` and then `b` is overlaying `b` alone when `b` covers
      every key of `a`. */
  lemma OverlayCovered<K, V>(c: map<K, V>, a: map<K, V>, b: map<K, V>)
    requires a.Keys <= b.Keys
    ensures (c + a) + b == c + b
  {
  }

  /** Writing the same puts again leaves the table unchanged. */
  lemma ReplayIsIdempotent(contents: map<PrimaryKey, Item>, ps: seq<(PrimaryKey, Item)>)
    ensures Apply(Apply(contents, ps), ps) == Apply(contents, ps)
  {
    ApplyOverlays(contents, ps);
    ApplyOverlays(Apply(contents, ps), ps);
    OverlayCovered(contents, Apply(map[], ps), Apply(map[], ps));
  }

  /** The i-th put is keyed by the i-th row's key, whatever its second. */
  lemma {:induction false} PutsKeys(table: Table, rows: seq<Row>, nows: seq<int>)
    requires |nows| == |rows|
    requires forall i :: 0 <= i < |rows| ==> Keyed(table, rows[i])
    ensures forall i :: 0 <= i < |rows| ==> Puts(table, rows, nows)[i].0 == PrimaryKeyOf(table, ItemOf(rows[i])).value
  {
    if |rows| != 0 {
      PutsKeys(table, rows[..|rows| - 1], nows[..|rows| - 1]);
    }
  }

  /** A micro-batch that failed part-way and is then retried in full, at
      later seconds, leaves the table exactly as a single successful write at
      the retry's seconds would: the partial write leaves no trace. */
  lemma RetryAfterPartialWrite(contents: map<PrimaryKey, Item>, table: Table, rows: seq<Row>,
                               n: nat, firstTry: seq<int>, retry: seq<int>)
    requires forall i :: 0 <= i < |rows| ==> Keyed(table, rows[i])
    requires n <= |rows| && |firstTry| == n && |retry| == |rows|
    ensures Apply(Apply(contents, Puts(table, rows[..n], firstTry)), Puts(table, rows, retry))
         == Apply(contents, Puts(table, rows, retry))
  {
    var partial, full := Puts(table, rows[..n], firstTry), Puts(table, rows, retry);
    var a, b := Apply(map[], partial), Apply(map[], full);
    PrefixKeysCovered(table, rows, n, firstTry, retry);
    ApplyOverlays(contents, partial);
    ApplyOverlays(Apply(contents, partial), full);
    ApplyOverlays(contents, full);
    calc {
      Apply(Apply(contents, partial), full);
      Apply(contents, partial) + b;
      (contents + a) + b;
      { OverlayCovered(contents, a, b); }
      contents + b;
      Apply(contents, full);
    }
  }

  /** Every key a prefix of the rows writes is written by all the rows. */
  lemma PrefixKeysCovered(table: Table, rows: seq<Row>, n: nat, nows1: seq<int>, nows2: seq<int>)
    requires forall i :: 0 <= i < |rows| ==> Keyed(table, rows[i])
    requires n <= |rows| && |nows1| == n && |nows2| == |rows|
    ensures Apply(map[], Puts(table, rows[..n], nows1)).Keys <= Apply(map[], Puts(table, rows, nows2)).Keys
  {
    PrefixPutsKeys(table, rows, n, nows1, nows2);
    KeysCovered(Puts(table, rows[..n], nows1), Puts(table, rows, nows2));
  }

  /** Puts whose keys begin another run of puts write no key it misses. */
  lemma KeysCovered(ps: seq<(PrimaryKey, Item)>, qs: seq<(PrimaryKey, Item)>)
    requires |ps| <= |qs|
    requires forall i :: 0 <= i < |ps| ==> ps[i].0 == qs[i].0
    ensures Apply(map[], ps).Keys <= Apply(map[], qs).Keys
  {
    ApplyWritesOnlyTheirKeys(ps);
    ApplyWritesEveryKey(qs);
    forall k | k in Apply(map[], ps) ensures k in Apply(map[], qs) {
      var i :| 0 <= i < |ps| && ps[i].0 == k;
      assert qs[i].0 == k;
    }
  }

  /** A prefix's i-th put and the whole batch's i-th put share their key. */
  lemma PrefixPutsKeys(table: Table, rows: seq<Row>, n: nat, nows1: seq<int>, nows2: seq<int>)
    requires forall i :: 0 <= i < |rows| ==> Keyed(table, rows[i])
    requires n <= |rows| && |nows1| == n && |nows2| == |rows|
    ensures forall i :: 0 <= i < n ==> Puts(table, rows[..n], nows1)[i].0 == Puts(table, rows, nows2)[i].0
  {
    PutsKeys(table, rows[..n], nows1);
    PutsKeys(table, rows, nows2);
    forall i | 0 <= i < n
      ensures Puts(table, rows[..n], nows1)[i].0 == Puts(table, rows, nows2)[i].0
    {
      assert rows[..n][i] == rows[i];
    }
  }

  /** One more keyed row put at the end of a prefix, at its own second. */
  lemma PutsSnoc(contents: map<PrimaryKey, Item>, table: Table, rows: seq<Row>, nows: seq<int>, n: nat)
    requires n < |rows| == |nows|
    requires forall i :: 0 <= i <= n ==> Keyed(table, rows[i])
    ensures Apply(contents, Puts(table, rows[..n + 1], nows[..n + 1]))
         == Apply(contents, Puts(table, rows[..n], nows[..n]))[PrimaryKeyOf(table, ItemOf(rows[n])).value := ItemFor(rows[n], table, nows[n])]
  {
    var rs, ns := rows[..n + 1], nows[..n + 1];
    assert rs[..n] == rows[..n] && ns[..n] == nows[..n];
    assert rs[n] == rows[n] && ns[n] == nows[n];
    var prefix := Puts(table, rows[..n], nows[..n]);
    var put := (PrimaryKeyOf(table, ItemOf(rows[n])).value, ItemFor(rows[n], table, nows[n]));
    assert Puts(table, rs, ns) == prefix + [put];
    ApplySnoc(contents, prefix, put);
  }

  lemma ApplySnoc(contents: map<PrimaryKey, Item>, ps: seq<(PrimaryKey, Item)>, p: (PrimaryKey, Item))
    ensures Apply(contents, ps + [p]) == Apply(contents, ps)[p.0 := p.1]
  {
    assert (ps + [p])[..|ps|] == ps;
  }

  // ---------------------------------------------------------------------
  // The writer

  /** Why a put failed: the item lacked a key attribute, or the service
      refused it (throttling, network). Either way `process` throws and the
      micro-batch fails. */
  datatype WriteError = MissingKey | ServiceError

  /** One writer instance, bound to a table; `contents` is the table as the
      writer's handle sees it. */
  class Writer {
    const table: Table
    var contents: map<PrimaryKey, Item>

    constructor (table: Table, contents: map<PrimaryKey, Item>)
      ensures this.table == table && this.contents == contents
    {
      this.table := table;
      this.contents := contents;
    }

    /** `process(row)`: build the item and put it; `serviceAccepts` is the
        service's answer to the put. */
    method Process(row: Row, now: int, serviceAccepts: bool) returns (r: Result<PrimaryKey, WriteError>)
      modifies this
      ensures r.Ok? <==> Keyed(table, row) && serviceAccepts
      ensures !Keyed(table, row) ==> r == Err(MissingKey)
      ensures r.Ok? ==> (r.value == PrimaryKeyOf(table, ItemOf(row)).value
                         && contents == old(contents)[r.value := ItemFor(row, table, now)])
      ensures r.Err? ==> contents == old(contents)
    {
      var item := BuildItem(row, table, now);
      KeyIgnoresWriteTime(row, table, now, now);
      var key := PrimaryKeyOf(table, item);
      if key.None? {
        return Err(MissingKey);
      }
      if !serviceAccepts {
        return Err(ServiceError);
      }
      contents := contents[key.value := item];
      r := Ok(key.value);
    }

    /** A partition of a micro-batch: rows are processed in order until one
        throws, row `i` at second `nows[i]`. `written` rows are durably put;
        on failure the next row is the one that failed. */
    method ProcessPartition(rows: seq<Row>, nows: seq<int>, responses: seq<bool>) returns (ok: bool, written: nat)
      requires |nows| == |rows| && |responses| == |rows|
      modifies this
      ensures written <= |rows| && (ok <==> written == |rows|)
      ensures forall i :: 0 <= i < written ==> Keyed(table, rows[i]) && responses[i]
      ensures !ok ==> !(Keyed(table, rows[written]) && responses[written])
      ensures contents == Apply(old(contents), Puts(table, rows[..written], nows[..written]))
    {
      written := 0;
      while written < |rows|
        invariant written <= |rows|
        invariant forall i :: 0 <= i < written ==> Keyed(table, rows[i]) && responses[i]
        invariant contents == Apply(old(contents), Puts(table, rows[..written], nows[..written]))
      {
        var r := Process(rows[written], nows[written], responses[written]);
        if r.Err? {
          return false, written;
        }
        PutsSnoc(old(contents), table, rows, nows, written);
        written := written + 1;
      }
      ok := true;
    }
  }
}
