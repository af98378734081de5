/**
 * JavaScript string helpers: white space, trimming, searching and decimal numbers.
 * Reading back the decimal text of a number gives the number, and a text is split into
 * lines at line feeds, with or without a carriage return before them.
 */
module Texts {
  predicate IsSpace(c: char) {
    c in {' ', '\t', '\n', '\r', '\U{000B}', '\U{000C}', '\U{00A0}', '\U{1680}', '\U{2028}', '\U{2029}',
          '\U{202F}', '\U{205F}', '\U{3000}', '\U{FEFF}'} || '\U{2000}' <= c <= '\U{200A}'
  }

  function TrimStart(s: string): string {
    if s != "" && IsSpace(s[0]) then TrimStart(s[1..]) else s
  }

  function TrimEnd(s: string): string {
    if s != "" && IsSpace(s[|s| - 1]) then TrimEnd(s[..|s| - 1]) else s
  }

  function Trim(s: string): string {
    TrimEnd(TrimStart(s))
  }

  /** The first position of `c` from `from` on, or the length. */
  function IndexOf(s: string, c: char, from: nat): (n: nat)
    requires from <= |s|
    ensures from <= n <= |s|
    ensures n < |s| ==> s[n] == c
    ensures forall k | from <= k < n :: s[k] != c
    decreases |s| - from
  {
    if from == |s| || s[from] == c then from else IndexOf(s, c, from + 1)
  }

  lemma {:induction false} FirstIndex(s: string, c: char, n: nat)
    requires n <= |s| && (n < |s| ==> s[n] == c) && (forall k | 0 <= k < n :: s[k] != c)
    ensures IndexOf(s, c, 0) == n
  {
  }

  predicate Contains(s: string, part: string) {
    exists i: nat | i <= |s| :: part <= s[i..]
  }

  lemma {:induction false} ContainsPart(before: string, part: string, after: string)
    ensures Contains(before + part + after, part)
  {
    assert (before + part + after)[|before|..] == part + after;
  }

  // ---------------------------------------------------------------------
  // Lines.

  function WithoutReturn(line: string): string {
    if line != "" && line[|line| - 1] == '\r' then line[..|line| - 1] else line
  }

  function Lines(s: string): (r: seq<string>)
    ensures r != []
    decreases |s|
  {
    var end := IndexOf(s, '\n', 0);
    if end == |s| then [s] else [WithoutReturn(s[..end])] + Lines(s[end + 1..])
  }

  // ---------------------------------------------------------------------
  // Decimal numbers.

  function Digit(d: nat): char
    requires d < 10
  {
    '0' + d as char
  }

  function Decimal(n: nat): (s: string)
    ensures s != ""
  {
    if n < 10 then [Digit(n)] else Decimal(n / 10) + [Digit(n % 10)]
  }

  predicate IsDigit(c: char) {
    '0' <= c <= '9'
  }

  predicate AllDigits(s: string) {
    forall i | 0 <= i < |s| :: IsDigit(s[i])
  }

  function DecimalValue(s: string): nat
    requires AllDigits(s)
  {
    if s == "" then 0 else DecimalValue(s[..|s| - 1]) * 10 + (s[|s| - 1] - '0') as nat
  }

  /** A decimal number without leading zeros. */
  predicate IsDecimal(s: string) {
    s != "" && AllDigits(s) && (s[0] == '0' ==> |s| == 1)
  }

  lemma {:induction false} DecimalRoundTrip(n: nat)
    ensures IsDecimal(Decimal(n)) && DecimalValue(Decimal(n)) == n
    ensures n != 0 ==> Decimal(n)[0] != '0'
  {
    if n >= 10 {
      DecimalRoundTrip(n / 10);
      var s, front := Decimal(n), Decimal(n / 10);
      assert s == front + [Digit(n % 10)] && s[..|s| - 1] == front;
      assert forall i | 0 <= i < |front| :: s[i] == front[i];
    } else {
      assert Decimal(n)[..0] == "";
    }
  }

  /** A number has one decimal text only. */
  lemma {:induction false} DecimalCanonical(s: string)
    requires IsDecimal(s)
    ensures Decimal(DecimalValue(s)) == s
  {
    var front := s[..|s| - 1];
    assert s == front + [s[|s| - 1]];
    if |s| > 1 {
      DecimalCanonical(front);
      DecimalRoundTrip(DecimalValue(front));
      assert DecimalValue(front) > 0;
    }
  }
}
