// The names of a node tweaker's numbered nodes: the prefix followed by the
// number written with at least two decimal digits ("bottom01", "bottom12").
module NodeNames {

  /** The character of decimal digit d. */
  function DigitChar(d: int): char
    requires 0 <= d < 10
  {
    (48 + d) as char
  }

  /** The value of a digit character. */
  function DigitValue(c: char): int {
    c as int - 48
  }

  /** The decimal digits of n, most significant first, without leading zeros. */
  function Digits(n: nat): (s: string)
    ensures |s| >= 1
  {
    if n < 10 then [DigitChar(n)] else Digits(n / 10) + [DigitChar(n % 10)]
  }

  /** The number a string of decimal digits denotes. */
  function Value(s: string): int {
    if |s| == 0 then 0 else Value(s[..|s| - 1]) * 10 + DigitValue(s[|s| - 1])
  }

  /** Reading the digits back gives the number. */
  lemma {:induction false} DigitsRoundTrip(n: nat)
    ensures Value(Digits(n)) == n
  {
    if n >= 10 {
      DigitsRoundTrip(n / 10);
      var s := Digits(n);
      assert s[..|s| - 1] == Digits(n / 10);
    }
  }

  /** A leading zero does not change the value. */
  lemma {:induction false} LeadingZeroIgnored(s: string)
    ensures Value(['0'] + s) == Value(s)
  {
    if |s| > 0 {
      var t := ['0'] + s;
      assert t[..|t| - 1] == ['0'] + s[..|s| - 1];
      LeadingZeroIgnored(s[..|s| - 1]);
    }
  }

  /** The format {0:d2}: n with a leading zero when it has a single digit. */
  function Pad2(n: nat): string {
    if n < 10 then ['0'] + Digits(n) else Digits(n)
  }

  /** Padding keeps the value, and numbers below 100 get exactly two digits. */
  lemma Pad2RoundTrip(n: nat)
    ensures Value(Pad2(n)) == n
    ensures n < 100 ==> |Pad2(n)| == 2
    ensures |Pad2(n)| >= 2
  {
    DigitsRoundTrip(n);
    if n < 10 {
      LeadingZeroIgnored(Digits(n));
    } else {
      assert Digits(n) == Digits(n / 10) + [DigitChar(n % 10)];
    }
  }

  /** nodeName: the node prefix followed by the padded number. */
  function NodeName(prefix: string, i: nat): string {
    prefix + Pad2(i)
  }

  /** The number a name carries after the prefix, or -1 for a name without the prefix. */
  function NumberOf(prefix: string, id: string): int {
    if |prefix| <= |id| && id[..|prefix|] == prefix then Value(id[|prefix|..]) else -1
  }

  /** Names are read back to their number, so two numbers never share a name. */
  lemma NumberOfName(prefix: string, i: nat)
    ensures NumberOf(prefix, NodeName(prefix, i)) == i
    ensures |NodeName(prefix, i)| >= |prefix| + 2
  {
    var s := NodeName(prefix, i);
    assert s[..|prefix|] == prefix;
    assert s[|prefix|..] == Pad2(i);
    Pad2RoundTrip(i);
  }

  lemma NodeNameInjective(prefix: string, i: nat, j: nat)
    requires NodeName(prefix, i) == NodeName(prefix, j)
    ensures i == j
  {
    NumberOfName(prefix, i);
    NumberOfName(prefix, j);
  }

  /** id is the name of a number in lo..hi. */
  predicate Numbered(prefix: string, id: string, lo: int, hi: int) {
    var n := NumberOf(prefix, id);
    0 <= lo <= n <= hi && id == NodeName(prefix, n)
  }

  /** The name of i is numbered in exactly the ranges that hold i. */
  lemma NumberedName(prefix: string, i: nat, lo: int, hi: int)
    ensures Numbered(prefix, NodeName(prefix, i), lo, hi) <==> 0 <= lo <= i <= hi
  {
    NumberOfName(prefix, i);
  }

  /** Widening a range by its top number hi adds the name of hi and nothing else. */
  lemma NumberedStep(prefix: string, id: string, lo: int, hi: nat)
    ensures id != NodeName(prefix, hi) ==> (Numbered(prefix, id, lo, hi) <==> Numbered(prefix, id, lo, hi - 1))
    ensures id == NodeName(prefix, hi) ==> (Numbered(prefix, id, lo, hi) <==> 0 <= lo <= hi) && !Numbered(prefix, id, lo, hi - 1)
  {
    NumberOfName(prefix, hi);
  }
}
