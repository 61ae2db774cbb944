/**
 * The string conversions the report relies on: a runtime version and a
 * count printed in decimal (`toString()` and template interpolation of a
 * number), `parseInt` applied to such a string, and `join(', ')` over a
 * list of pallet names.
 */
module Text {

  predicate IsDigit(c: char) {
    '0' <= c <= '9'
  }

  predicate AllDigits(s: string) {
    forall i :: 0 <= i < |s| ==> IsDigit(s[i])
  }

  function DigitChar(d: nat): (c: char)
    requires d < 10
    ensures IsDigit(c)
  {
    (('0' as int) + d) as char
  }

  function DigitValue(c: char): (d: nat)
    requires IsDigit(c)
    ensures d < 10
  {
    (c as int) - ('0' as int)
  }

  /** The decimal rendering of a non-negative integer. */
  function NatToString(n: nat): (s: string)
    ensures |s| > 0 && AllDigits(s)
    ensures |s| > 1 ==> s[0] != '0'
    decreases n
  {
    if n < 10 then [DigitChar(n)]
    else NatToString(n / 10) + [DigitChar(n % 10)]
  }

  /** `parseInt(s)` for a string of decimal digits. */
  function ParseDecimal(s: string): nat
    requires AllDigits(s)
    decreases |s|
  {
    if s == [] then 0
    else 10 * ParseDecimal(s[..|s| - 1]) + DigitValue(s[|s| - 1])
  }

  /**
   * `parseInt(n.toString()) == n`: the runtime versions are stored as the
   * decimal strings of integers, and the sort comparator parses them back.
   */
  lemma {:induction false} ParseNatToString(n: nat)
    ensures ParseDecimal(NatToString(n)) == n
    decreases n
  {
    var s := NatToString(n);
    if n >= 10 {
      ParseNatToString(n / 10);
      assert s[..|s| - 1] == NatToString(n / 10);
    }
  }

  /** Distinct versions have distinct decimal strings, so keying by string is keying by number. */
  lemma NatToStringInjective(m: nat, n: nat)
    ensures NatToString(m) == NatToString(n) <==> m == n
  {
    ParseNatToString(m);
    ParseNatToString(n);
  }

  /**
   * The comparator `(a, b) => parseInt(a) - parseInt(b)` over version
   * strings orders them exactly as the integers they stand for.
   */
  lemma ComparatorIsNumeric(m: nat, n: nat)
    ensures ParseDecimal(NatToString(m)) - ParseDecimal(NatToString(n)) == m - n
  {
    ParseNatToString(m);
    ParseNatToString(n);
  }

  /** `xs.join(sep)`. */
  function Join(xs: seq<string>, sep: string): (s: string)
    ensures |xs| == 1 ==> s == xs[0]
    ensures xs == [] ==> s == ""
    decreases |xs|
  {
    if |xs| == 0 then ""
    else if |xs| == 1 then xs[0]
    else xs[0] + sep + Join(xs[1..], sep)
  }

  /** The position of the first `c` in `s`. */
  function FirstIndex(s: string, c: char): (i: nat)
    requires c in s
    ensures i < |s| && s[i] == c
    ensures forall j :: 0 <= j < i ==> s[j] != c
    decreases |s|
  {
    if s[0] == c then 0 else 1 + FirstIndex(s[1..], c)
  }

  /**
   * Reading a `join(', ')` line back into names: cut at every comma and
   * drop the one blank that follows it.
   */
  function SplitNames(s: string): (names: seq<string>)
    ensures |names| > 0
    decreases |s|
  {
    if ',' !in s then [s]
    else
      var i := FirstIndex(s, ',');
      if i + 1 < |s| && s[i + 1] == ' ' then [s[..i]] + SplitNames(s[i + 2..])
      else [s[..i]] + SplitNames(s[i + 1..])
  }

  /**
   * A non-empty list of names none of which contains a comma (pallet names
   * are identifiers) is recovered exactly from its `join(', ')`.
   */
  lemma {:induction false} SplitJoin(xs: seq<string>)
    requires |xs| > 0
    requires forall k :: 0 <= k < |xs| ==> ',' !in xs[k]
    ensures SplitNames(Join(xs, ", ")) == xs
    decreases |xs|
  {
    if |xs| > 1 {
      var rest := Join(xs[1..], ", ");
      var s := xs[0] + ", " + rest;
      assert s[|xs[0]|] == ',';
      var i := FirstIndex(s, ',');
      assert forall j :: 0 <= j < |xs[0]| ==> s[j] == xs[0][j];
      assert i == |xs[0]|;
      assert s[..i] == xs[0];
      assert s[i + 1] == ' ';
      assert s[i + 2..] == rest;
      SplitJoin(xs[1..]);
    }
  }
}
