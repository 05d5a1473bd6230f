/** Text helpers shared by the consumer and the API: decimal rendering of
    instants, joining with a delimiter, and Java's String.compareTo order. */
module Text {

  /** The character of a decimal digit. */
  function DigitChar(d: nat): (c: char)
    requires d < 10
    ensures '0' <= c <= '9'
  {
    (('0' as int) + d) as char
  }

  /** Decimal rendering of a natural number, most significant digit first. */
  function NatToString(n: nat): (s: string)
    ensures 1 <= |s|
    ensures n < 10 <==> |s| == 1
    ensures forall i :: 0 <= i < |s| ==> '0' <= s[i] <= '9'
  {
    if n < 10 then [DigitChar(n)] else NatToString(n / 10) + [DigitChar(n % 10)]
  }

  /** Different numbers render differently. */
  lemma {:induction false} NatToStringInjective(a: nat, b: nat)
    requires NatToString(a) == NatToString(b)
    ensures a == b
  {
    if 10 <= a && 10 <= b {
      var sa, sb := NatToString(a), NatToString(b);
      assert sa[|sa| - 1] == sb[|sb| - 1];
      assert a % 10 == b % 10;
      assert sa[..|sa| - 1] == NatToString(a / 10);
      assert sb[..|sb| - 1] == NatToString(b / 10);
      NatToStringInjective(a / 10, b / 10);
    }
  }

  /** `a + sep + b + sep + c`, the shape of Spark's concat with two literal
      delimiters. */
  function Join3(a: string, b: string, c: string, sep: char): (r: string)
    ensures |r| == |a| + |b| + |c| + 2
    ensures r[|a|] == sep && r[|a| + 1 + |b|] == sep
  {
    a + [sep] + b + [sep] + c
  }

  /** The first delimiter of `a + sep + r` is at |a| when `a` has none. */
  lemma SplitAtFirst(a1: string, r1: string, a2: string, r2: string, sep: char)
    requires sep !in a1 && sep !in a2
    requires a1 + [sep] + r1 == a2 + [sep] + r2
    ensures a1 == a2 && r1 == r2
  {
    var s := a1 + [sep] + r1;
    assert forall i :: 0 <= i < |a1| ==> s[i] != sep;
    assert forall i :: 0 <= i < |a2| ==> s[i] != sep;
    assert s[|a1|] == sep && s[|a2|] == sep;
    assert a1 == s[..|a1|] == a2;
    assert r1 == s[|a1| + 1..] == r2;
  }

  /** Joining is injective when the first two parts are free of the delimiter. */
  lemma Join3Injective(a1: string, b1: string, c1: string, a2: string, b2: string, c2: string, sep: char)
    requires sep !in a1 && sep !in a2 && sep !in b1 && sep !in b2
    requires Join3(a1, b1, c1, sep) == Join3(a2, b2, c2, sep)
    ensures a1 == a2 && b1 == b2 && c1 == c2
  {
    assert Join3(a1, b1, c1, sep) == a1 + [sep] + (b1 + [sep] + c1);
    assert Join3(a2, b2, c2, sep) == a2 + [sep] + (b2 + [sep] + c2);
    SplitAtFirst(a1, b1 + [sep] + c1, a2, b2 + [sep] + c2, sep);
    SplitAtFirst(b1, c1, b2, c2, sep);
  }

  /** `a.compareTo(b) <= 0` for Java strings: lexicographic by character,
      a proper prefix first. */
  predicate LexLeq(a: string, b: string)
  {
    if |a| == 0 then true
    else if |b| == 0 then false
    else if a[0] != b[0] then a[0] < b[0]
    else LexLeq(a[1..], b[1..])
  }

  lemma {:induction false} LexLeqTotal(a: string, b: string)
    ensures LexLeq(a, b) || LexLeq(b, a)
  {
    if |a| != 0 && |b| != 0 && a[0] == b[0] {
      LexLeqTotal(a[1..], b[1..]);
    }
  }

  lemma {:induction false} LexLeqTransitive(a: string, b: string, c: string)
    requires LexLeq(a, b) && LexLeq(b, c)
    ensures LexLeq(a, c)
  {
    if |a| != 0 && |b| != 0 && |c| != 0 && a[0] == b[0] == c[0] {
      LexLeqTransitive(a[1..], b[1..], c[1..]);
    }
  }

  lemma {:induction false} LexLeqAntisymmetric(a: string, b: string)
    requires LexLeq(a, b) && LexLeq(b, a)
    ensures a == b
  {
    if |a| != 0 && |b| != 0 {
      LexLeqAntisymmetric(a[1..], b[1..]);
      assert a == [a[0]] + a[1..];
      assert b == [b[0]] + b[1..];
    }
  }
}
