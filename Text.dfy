/** The string conversions the pipelines rely on: ASCII lower-casing of column
    names (`str.lower`), Python's `str` of an integer, and the composite
    `player_id + "_" + game_id` identity. */
module Text {

  predicate IsUpper(c: char) { 'A' <= c <= 'Z' }

  function LowerChar(c: char): (r: char)
    ensures !IsUpper(r)
    ensures !IsUpper(c) ==> r == c
  {
    if IsUpper(c) then (c as int - 'A' as int + 'a' as int) as char else c
  }

  /** No character of `s` is an upper-case letter. */
  predicate IsLowerCase(s: string) { forall i :: 0 <= i < |s| ==> !IsUpper(s[i]) }

  /** `str.lower` on ASCII names: each letter A-Z becomes a-z, nothing else changes. */
  function Lower(s: string): (r: string)
    ensures |r| == |s|
    ensures IsLowerCase(r)
    ensures IsLowerCase(s) ==> r == s
    ensures forall i :: 0 <= i < |s| ==> r[i] == LowerChar(s[i])
  {
    seq(|s|, i requires 0 <= i < |s| => LowerChar(s[i]))
  }

  function DigitChar(d: nat): (c: char)
    requires d < 10
  {
    "0123456789"[d]
  }

  predicate IsDigit(c: char) { '0' <= c <= '9' }

  function DigitValue(c: char): nat
    requires IsDigit(c)
  {
    c as int - '0' as int
  }

  /** The decimal digits of `n`, most significant first, without leading zeros. */
  function NatString(n: nat): (s: string)
    ensures |s| > 0
    ensures forall i :: 0 <= i < |s| ==> IsDigit(s[i])
    ensures n > 0 ==> s[0] != '0'
    ensures |s| > 1 ==> n >= 10
  {
    if n < 10 then [DigitChar(n)] else NatString(n / 10) + [DigitChar(n % 10)]
  }

  /** `str(i)` for a Python int: an optional minus sign, then the digits,
      with no leading zero and no "-0". */
  function DecimalString(i: int): (s: string)
    ensures '_' !in s
    ensures |s| > 0 && (s[0] == '-' || IsDigit(s[0]))
    ensures forall k :: 0 < k < |s| ==> IsDigit(s[k])
    ensures |s| > 1 && s[0] != '-' ==> s[0] != '0'
    ensures s[0] == '-' ==> |s| > 1 && s[1] != '0'
  {
    if i < 0 then "-" + NatString(-i) else NatString(i)
  }

  /** The number a string of decimal digits denotes. */
  function DigitsValue(s: string): nat
    requires forall i :: 0 <= i < |s| ==> IsDigit(s[i])
  {
    if s == [] then 0 else 10 * DigitsValue(s[..|s| - 1]) + DigitValue(s[|s| - 1])
  }

  /** Reads back what `DecimalString` wrote (`int(s)` on its output). */
  function DecimalValue(s: string): int
    requires |s| > 0 && (s[0] == '-' || IsDigit(s[0]))
    requires forall k :: 0 < k < |s| ==> IsDigit(s[k])
  {
    if s[0] == '-' then -(DigitsValue(s[1..]) as int) else DigitsValue(s)
  }

  lemma {:induction false} DigitsRoundTrip(n: nat)
    ensures DigitsValue(NatString(n)) == n
  {
    if n >= 10 {
      var s := NatString(n);
      assert s[..|s| - 1] == NatString(n / 10);
      DigitsRoundTrip(n / 10);
    }
  }

  /** Reading back the decimal form of `i` gives `i`. */
  lemma DecimalRoundTrip(i: int)
    ensures DecimalValue(DecimalString(i)) == i
  {
    if i < 0 {
      NegativeRoundTrip(-i);
    } else {
      DigitsRoundTrip(i);
    }
  }

  /** Reading back a minus sign and the digits of `n` gives `-n`. */
  lemma NegativeRoundTrip(n: nat)
    ensures DecimalValue("-" + NatString(n)) == -(n as int)
  {
    var t := NatString(n);
    DigitsRoundTrip(n);
    assert ("-" + t)[1..] == t;
  }

  /** Distinct integers have distinct decimal forms. */
  lemma DecimalInjective(i: int, j: int)
    requires DecimalString(i) == DecimalString(j)
    ensures i == j
  {
    DecimalRoundTrip(i);
    DecimalRoundTrip(j);
  }

  /** `player_id + "_" + game_id` (scores.py, the `id` column). */
  function CompositeId(player: string, game: string): (id: string)
    ensures |id| == |player| + 1 + |game|
    ensures id[|player|] == '_'
    ensures id[..|player|] == player && id[|player| + 1..] == game
  {
    player + "_" + game
  }

  /** When the player part has no underscore, the first underscore of an id
      separates its two parts, so the id determines both. */
  lemma CompositeIdInjective(p1: string, g1: string, p2: string, g2: string)
    requires '_' !in p1 && '_' !in p2
    requires CompositeId(p1, g1) == CompositeId(p2, g2)
    ensures p1 == p2 && g1 == g2
  {
    var id := CompositeId(p1, g1);
    assert p1 == id[..|p1|] == p2;
    assert g1 == id[|p1| + 1..] == g2;
  }

  /** `columns.str.lower()`: every column name lower-cased, in place. */
  function LowerNames(names: seq<string>): (r: seq<string>)
    ensures |r| == |names|
    ensures forall k :: 0 <= k < |r| ==> r[k] == Lower(names[k]) && IsLowerCase(r[k])
  {
    seq(|names|, k requires 0 <= k < |names| => Lower(names[k]))
  }
}
