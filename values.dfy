/** The values held by a Spark row and by a DynamoDB item. */
module Values {

  /** A column or attribute value: null, a string, a number, a Spark
      timestamp (microseconds since the epoch), or a sequence/list. */
  datatype Value =
    | Null
    | Str(s: string)
    | Num(n: int)
    | Timestamp(micros: nat)
    | List(elems: seq<Value>)

  /** A Spark row: column names in schema order with their values. */
  type Row = seq<(string, Value)>

  /** A DynamoDB item: attribute names to values. */
  type Item = map<string, Value>

  predicate NamesDistinct(row: Row)
  {
    forall i, j :: 0 <= i < j < |row| ==> row[i].0 != row[j].0
  }
}
