/** The few functions of Go's `strings` and `fmt` packages that the statement
    builder calls, specified on their own so that the rest of the model can
    reason about them. */
module GoStrings {

  /** `strings.Join(parts, sep)`: the parts in order with `sep` between each
      pair of neighbours; no parts give the empty string, one part is
      returned as it is. */
  function Join(parts: seq<string>, sep: string): string
  {
    if |parts| == 0 then ""
    else if |parts| == 1 then parts[0]
    else Join(parts[..|parts| - 1], sep) + sep + parts[|parts| - 1]
  }

  /** Join read from the front: the first part, then the separator and the
      rest joined. */
  lemma {:induction false} JoinCons(p: string, ps: seq<string>, sep: string)
    ensures Join([p] + ps, sep) == if ps == [] then p else p + sep + Join(ps, sep)
    decreases |ps|
  {
    if |ps| > 1 {
      var last := ps[|ps| - 1];
      assert ([p] + ps)[..|ps|] == [p] + ps[..|ps| - 1];
      JoinCons(p, ps[..|ps| - 1], sep);
    } else if |ps| == 1 {
      assert ([p] + ps)[..1] == [p];
    }
  }

  /** Join with one more part at the end. */
  lemma JoinSnoc(ps: seq<string>, p: string, sep: string)
    ensures Join(ps + [p], sep) == if ps == [] then p else Join(ps, sep) + sep + p
  {
    assert (ps + [p])[..|ps|] == ps;
  }

  /** A decimal digit character. */
  predicate IsDigit(ch: char)
  {
    '0' <= ch <= '9'
  }

  /** The character of a decimal digit. */
  function DigitChar(d: nat): (ch: char)
    requires d < 10
    ensures IsDigit(ch)
  {
    (('0' as int) + d) as char
  }

  /** The digit a decimal digit character stands for. */
  function DigitValue(ch: char): (d: nat)
    requires IsDigit(ch)
    ensures d < 10
  {
    (ch as int) - ('0' as int)
  }

  /** `fmt.Sprintf("%d", n)` for a non-negative `n`: one or more decimal
      digits, with no leading zero unless the number is zero itself. */
  function Decimal(n: nat): (r: string)
    ensures |r| >= 1
    ensures forall i :: 0 <= i < |r| ==> IsDigit(r[i])
    ensures r[0] == '0' <==> n == 0
    ensures n == 0 <==> r == "0"
  {
    if n < 10 then [DigitChar(n)]
    else Decimal(n / 10) + [DigitChar(n % 10)]
  }

  /** The value of a string of decimal digits; the inverse of `Decimal`. */
  function ParseDecimal(t: string): nat
    requires forall i :: 0 <= i < |t| ==> IsDigit(t[i])
  {
    if t == [] then 0
    else ParseDecimal(t[..|t| - 1]) * 10 + DigitValue(t[|t| - 1])
  }

  /** Printing a number and reading it back gives the number: distinct
      numbers are printed differently. */
  lemma {:induction false} DecimalRoundTrip(n: nat)
    ensures ParseDecimal(Decimal(n)) == n
  {
    if n >= 10 {
      var t := Decimal(n / 10);
      assert (t + [DigitChar(n % 10)])[..|t|] == t;
      DecimalRoundTrip(n / 10);
    }
  }

  /** The position of the first occurrence of `c` in `s`. */
  function IndexOf(s: string, c: char): (i: nat)
    requires c in s
    ensures i < |s| && s[i] == c && c !in s[..i]
  {
    if s[0] == c then 0
    else
      var j := IndexOf(s[1..], c);
      assert s[..j + 1] == [s[0]] + s[1..][..j];
      j + 1
  }

  /** `strings.Replace(s, old, new, 1)` for a one-character `old`, here
      `target`: its first occurrence is replaced by `replacement`; without
      one, `s` comes back unchanged. */
  function ReplaceFirst(s: string, target: char, replacement: string): (r: string)
    ensures target !in s ==> r == s
    ensures target in s ==>
      r == s[..IndexOf(s, target)] + replacement + s[IndexOf(s, target) + 1..]
  {
    if s == [] then []
    else if s[0] == target then replacement + s[1..]
    else
      var rest := ReplaceFirst(s[1..], target, replacement);
      assert target in s ==> s[..IndexOf(s, target)] == [s[0]] + s[1..][..IndexOf(s[1..], target)];
      [s[0]] + rest
  }
}
