/** Reading the items the API scans (CityStreamApiApplication): attribute
    access as the DynamoDB document API does it, and the sums and groupings
    the handlers fold the items into. */
module ApiItems {
  import opened Wrappers
  import opened Values
  import opened JavaInt

  /** `item.getString(field)`: the attribute when it is a string, null
      otherwise. */
  function TextOf(item: Item, field: string): Option<string>
  {
    if field in item && item[field].Str? then Some(item[field].s) else None
  }

  /** `item.getInt(field)`: the low 32 bits of a number; none when the
      attribute is absent, where the call throws. */
  function IntOf(item: Item, field: string): (r: Option<int>)
    ensures r.Some? ==> IsInt32(r.value)
  {
    if field in item && item[field].Num? then Some(Wrap32(item[field].n)) else None
  }

  const EventCount: string := "event_count"

  /** Every item carries a readable `event_count`. */
  predicate AllCounted(items: seq<Item>)
  {
    forall i :: 0 <= i < |items| ==> IntOf(items[i], EventCount).Some?
  }

  /** A scan that has read counts so far reads one more. */
  lemma CountedNext(items: seq<Item>, i: int)
    requires 0 <= i < |items|
    requires AllCounted(items[..i]) && IntOf(items[i], EventCount).Some?
    ensures AllCounted(items[..i + 1])
  {
    assert forall j :: 0 <= j < i ==> items[..i + 1][j] == items[..i][j];
  }

  /** An item's `event_count` as read by `getInt`; the sums below are only
      taken over items that all have one, so the 0 never shows. */
  function Count(item: Item): int
  {
    match IntOf(item, EventCount)
    case Some(n) => n
    case None => 0
  }

  /** The sum of the items' `event_count`s. */
  function CountSum(items: seq<Item>): int
  {
    if |items| == 0 then 0
    else CountSum(items[..|items| - 1]) + Count(items[|items| - 1])
  }

  /** The sum of the `event_count`s of the items whose `field` reads as `v`. */
  function GroupSum(items: seq<Item>, field: string, v: Option<string>): int
  {
    if |items| == 0 then 0
    else GroupSum(items[..|items| - 1], field, v) + (if TextOf(items[|items| - 1], field) == v then Count(items[|items| - 1]) else 0)
  }

  /** The number of items whose `field` reads as `v`. */
  function CountOf(items: seq<Item>, field: string, v: Option<string>): nat
  {
    if |items| == 0 then 0
    else CountOf(items[..|items| - 1], field, v) + (if TextOf(items[|items| - 1], field) == v then 1 else 0)
  }

  /** The values `field` reads as across the items. */
  function ValueSet(items: seq<Item>, field: string): set<Option<string>>
  {
    if |items| == 0 then {}
    else ValueSet(items[..|items| - 1], field) + {TextOf(items[|items| - 1], field)}
  }

  /** A value is among the items' values exactly when some item reads as it. */
  lemma {:induction false} ValuesAreRead(items: seq<Item>, field: string)
    ensures forall v :: v in ValueSet(items, field) <==> exists i :: 0 <= i < |items| && TextOf(items[i], field) == v
  {
    if |items| != 0 {
      var prefix := items[..|items| - 1];
      ValuesAreRead(prefix, field);
      assert forall i :: 0 <= i < |prefix| ==> prefix[i] == items[i];
    }
  }

  /** The values `field` reads as, each once, in order of first appearance. */
  function DistinctValues(items: seq<Item>, field: string): (vs: seq<Option<string>>)
    ensures forall i, j :: 0 <= i < j < |vs| ==> vs[i] != vs[j]
    ensures forall v :: v in vs <==> v in ValueSet(items, field)
  {
    if |items| == 0 then []
    else
      var prefix, last := items[..|items| - 1], items[|items| - 1];
      var vs := DistinctValues(prefix, field);
      if TextOf(last, field) in vs then vs else vs + [TextOf(last, field)]
  }

  lemma GroupSumSnoc(items: seq<Item>, x: Item, field: string, v: Option<string>)
    ensures GroupSum(items + [x], field, v) == GroupSum(items, field, v) + (if TextOf(x, field) == v then Count(x) else 0)
  {
    assert (items + [x])[..|items|] == items;
  }

  lemma CountSumNext(items: seq<Item>, i: int)
    requires 0 <= i < |items|
    ensures CountSum(items[..i + 1]) == CountSum(items[..i]) + Count(items[i])
  {
    assert items[..i + 1][..i] == items[..i];
  }

  lemma CountSumSnoc(items: seq<Item>, x: Item)
    ensures CountSum(items + [x]) == CountSum(items) + Count(x)
  {
    assert (items + [x])[..|items|] == items;
  }

  /** A value that no item reads as sums to 0 and is counted 0 times. */
  lemma {:induction false} AbsentValue(items: seq<Item>, field: string, v: Option<string>)
    requires v !in ValueSet(items, field)
    ensures GroupSum(items, field, v) == 0 && CountOf(items, field, v) == 0
  {
    if |items| != 0 {
      AbsentValue(items[..|items| - 1], field, v);
    }
  }

  /** Σ over `vs` of each value's sum. */
  function SumOfGroups(vs: seq<Option<string>>, items: seq<Item>, field: string): int
  {
    if |vs| == 0 then 0
    else SumOfGroups(vs[..|vs| - 1], items, field) + GroupSum(items, field, vs[|vs| - 1])
  }

  /** Σ over `vs` of each value's sum, each wrapped to 32 bits as the
      per-key map entries are. */
  function SumOfWrappedGroups(vs: seq<Option<string>>, items: seq<Item>, field: string): int
  {
    if |vs| == 0 then 0
    else SumOfWrappedGroups(vs[..|vs| - 1], items, field) + Wrap32(GroupSum(items, field, vs[|vs| - 1]))
  }

  /** Adding one item adds its count to the sum over a list of distinct
      values exactly when its value is among them. */
  lemma {:induction false} SumOfGroupsSnoc(vs: seq<Option<string>>, items: seq<Item>, x: Item, field: string)
    requires forall i, j :: 0 <= i < j < |vs| ==> vs[i] != vs[j]
    ensures SumOfGroups(vs, items + [x], field) ==
      SumOfGroups(vs, items, field) + (if TextOf(x, field) in vs then Count(x) else 0)
  {
    if |vs| != 0 {
      var prefix, v := vs[..|vs| - 1], vs[|vs| - 1];
      SumOfGroupsSnoc(prefix, items, x, field);
      GroupSumSnoc(items, x, field, v);
      if TextOf(x, field) == v {
        assert TextOf(x, field) !in prefix;
      } else {
        assert TextOf(x, field) in vs <==> TextOf(x, field) in prefix;
      }
    }
  }

  /** The distinct values partition the items: their sums add up to the
      total. */
  lemma {:induction false} GroupsPartitionTotal(items: seq<Item>, field: string)
    ensures SumOfGroups(DistinctValues(items, field), items, field) == CountSum(items)
  {
    if |items| != 0 {
      var prefix, x := items[..|items| - 1], items[|items| - 1];
      assert items == prefix + [x];
      GroupsPartitionTotal(prefix, field);
      var vs, t := DistinctValues(prefix, field), TextOf(x, field);
      SumOfGroupsSnoc(vs, prefix, x, field);
      CountSumSnoc(prefix, x);
      if t in vs {
        assert DistinctValues(items, field) == vs;
      } else {
        NewValueGroup(prefix, x, field);
      }
    }
  }

  /** A value read for the first time by the last item adds a group holding
      just that item. */
  lemma NewValueGroup(prefix: seq<Item>, x: Item, field: string)
    requires TextOf(x, field) !in DistinctValues(prefix, field)
    ensures SumOfGroups(DistinctValues(prefix + [x], field), prefix + [x], field)
         == SumOfGroups(DistinctValues(prefix, field), prefix + [x], field) + Count(x)
  {
    var items, vs, t := prefix + [x], DistinctValues(prefix, field), TextOf(x, field);
    assert items[..|items| - 1] == prefix;
    var vs' := vs + [t];
    assert DistinctValues(items, field) == vs';
    assert vs'[..|vs|] == vs;
    assert SumOfGroups(vs', items, field) == SumOfGroups(vs, items, field) + GroupSum(items, field, t);
    AbsentValue(prefix, field, t);
    GroupSumSnoc(prefix, x, field, t);
  }

  /** Wrapping each value's sum before adding does not change the wrapped
      total. */
  lemma {:induction false} WrappedGroupsAgree(vs: seq<Option<string>>, items: seq<Item>, field: string)
    ensures Wrap32(SumOfWrappedGroups(vs, items, field)) == Wrap32(SumOfGroups(vs, items, field))
  {
    if |vs| != 0 {
      var prefix := vs[..|vs| - 1];
      var g := GroupSum(items, field, vs[|vs| - 1]);
      var w, s := SumOfWrappedGroups(prefix, items, field), SumOfGroups(prefix, items, field);
      WrappedGroupsAgree(prefix, items, field);
      assert SumOfWrappedGroups(vs, items, field) == w + Wrap32(g);
      assert SumOfGroups(vs, items, field) == s + g;
      WrappedSumStep(w, s, g);
    }
  }

  /** Adding a wrapped or an unwrapped summand to sums that wrap alike gives
      sums that wrap alike. */
  lemma WrappedSumStep(w: int, s: int, g: int)
    requires Wrap32(w) == Wrap32(s)
    ensures Wrap32(w + Wrap32(g)) == Wrap32(s + g)
  {
    WrapAddLeft(g, w);
    WrapAddLeft(w, g);
    WrapAddLeft(s, g);
  }
}
