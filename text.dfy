/**
 * Text helpers the reply needs: the decimal rendering a template literal gives a
 * non-negative number, and the comma-joined id list of the statistics request.
 */
module Text {

  predicate IsDigit(c: char) {
    '0' <= c <= '9'
  }

  predicate AllDigits(s: string) {
    forall i :: 0 <= i < |s| ==> IsDigit(s[i])
  }

  function Digit(d: nat): (c: char)
    requires d < 10
    ensures IsDigit(c) && DigitValue(c) == d
  {
    ('0' as int + d) as char
  }

  function DigitValue(c: char): nat
    requires IsDigit(c)
  {
    c as int - '0' as int
  }

  /** How `${n}` renders a non-negative integer: decimal digits, no sign and no
      leading zero (the only string starting with '0' is "0" itself). */
  function Decimal(n: nat): (s: string)
    ensures |s| > 0 && AllDigits(s)
    ensures s[0] == '0' ==> n == 0 && s == "0"
    decreases n
  {
    if n < 10 then [Digit(n)] else Decimal(n / 10) + [Digit(n % 10)]
  }

  /** Reads a string of decimal digits back as a number. */
  function ParseDecimal(s: string): nat
    requires AllDigits(s)
  {
    if |s| == 0 then 0 else 10 * ParseDecimal(s[..|s| - 1]) + DigitValue(s[|s| - 1])
  }

  /** The rendering loses nothing: reading it back gives the number. */
  lemma {:induction false} ParseDecimalOfDecimal(n: nat)
    ensures ParseDecimal(Decimal(n)) == n
    decreases n
  {
    if n >= 10 {
      var s := Decimal(n);
      assert s[..|s| - 1] == Decimal(n / 10);
      ParseDecimalOfDecimal(n / 10);
    }
  }

  /** Distinct counts are rendered as distinct strings. */
  lemma DecimalInjective(m: nat, n: nat)
    requires Decimal(m) == Decimal(n)
    ensures m == n
  {
    ParseDecimalOfDecimal(m);
    ParseDecimalOfDecimal(n);
  }

  /** `Array.prototype.join(',')`: the parts in order, a comma between each two. */
  function JoinComma(parts: seq<string>): (s: string)
  {
    if |parts| == 0 then ""
    else if |parts| == 1 then parts[0]
    else parts[0] + "," + JoinComma(parts[1..])
  }

  /** The position of the first comma of `s`. */
  function IndexOfComma(s: string): (k: nat)
    requires ',' in s
    ensures k < |s| && s[k] == ',' && ',' !in s[..k]
  {
    if s[0] == ',' then 0 else 1 + IndexOfComma(s[1..])
  }

  /** The first comma is the one with no comma before it. */
  lemma {:induction false} IndexOfCommaAt(s: string, p: nat)
    requires p < |s| && s[p] == ',' && ',' !in s[..p]
    ensures IndexOfComma(s) == p
  {
    if p > 0 {
      assert s[0] == s[..p][0];
      assert s[1..][..p - 1] == s[1..p];
      IndexOfCommaAt(s[1..], p - 1);
    }
  }

  /** Cuts `s` at every comma, the reading a receiver of a comma list applies. */
  function Split(s: string): (parts: seq<string>)
    ensures |parts| > 0
    ensures forall i :: 0 <= i < |parts| ==> ',' !in parts[i]
    decreases |s|
  {
    if ',' in s then
      var k := IndexOfComma(s);
      [s[..k]] + Split(s[k + 1..])
    else
      [s]
  }

  /** Splitting cuts first at the first comma. */
  lemma SplitAt(s: string, k: nat)
    requires k < |s| && s[k] == ',' && ',' !in s[..k]
    ensures Split(s) == [s[..k]] + Split(s[k + 1..])
  {
    IndexOfCommaAt(s, k);
  }

  /** A non-empty list of comma-free ids survives joining: cutting the joined
      string at its commas gives back exactly the ids, in order. */
  lemma {:induction false} SplitJoinComma(parts: seq<string>)
    requires |parts| > 0
    requires forall i :: 0 <= i < |parts| ==> ',' !in parts[i]
    ensures Split(JoinComma(parts)) == parts
    decreases |parts|
  {
    if |parts| > 1 {
      var head, rest := parts[0], JoinComma(parts[1..]);
      var s := head + "," + rest;
      assert JoinComma(parts) == s;
      assert s[|head|] == ',';
      assert s[..|head|] == head;
      SplitAt(s, |head|);
      assert s[|head| + 1..] == rest;
      assert forall i :: 0 <= i < |parts| - 1 ==> parts[1..][i] == parts[i + 1];
      SplitJoinComma(parts[1..]);
      assert parts == [head] + parts[1..];
    }
  }
}
