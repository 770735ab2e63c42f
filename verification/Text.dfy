/** Go strings as octet sequences, and the string functions of Go's standard library that the program calls. */
module Text {

  /** One byte of a Go string. */
  type Octet = c: char | c <= '\U{FF}' witness 'a'

  type Str = seq<Octet>

  datatype Option<+T> = None | Some(value: T) {
    predicate IsFailure() {
      None?
    }

    function PropagateFailure<U>(): Option<U>
      requires None?
    {
      None
    }

    function Extract(): T
      requires Some?
    {
      value
    }
  }

  datatype Result<+T, +E> = Ok(value: T) | Err(error: E) {
    predicate IsFailure() {
      Err?
    }

    function PropagateFailure<U>(): Result<U, E>
      requires Err?
    {
      Err(error)
    }

    function Extract(): T
      requires Ok?
    {
      value
    }
  }

  /** strings.IndexByte: the first position of `c`, or -1. */
  function IndexByte(s: Str, c: Octet): (i: int)
    ensures -1 <= i < |s|
    ensures i == -1 ==> c !in s
    ensures 0 <= i ==> s[i] == c && c !in s[..i] && forall k | 0 <= k < i :: s[k] != c
  {
    if s == [] then -1
    else if s[0] == c then 0
    else
      var i := IndexByte(s[1..], c);
      assert s == [s[0]] + s[1..];
      assert forall k | 1 <= k < |s| :: s[k] == s[1..][k - 1];
      assert 0 <= i ==> s[..i + 1] == [s[0]] + s[1..][..i];
      if i < 0 then -1 else i + 1
  }

  /** The text before the first `c` fixes where `c` is found. */
  lemma IndexByteAfter(prefix: Str, c: Octet, rest: Str)
    requires c !in prefix
    ensures IndexByte(prefix + [c] + rest, c) == |prefix|
    ensures (prefix + [c] + rest)[..|prefix|] == prefix
    ensures (prefix + [c] + rest)[|prefix| + 1..] == rest
  {
    var s := prefix + [c] + rest;
    var i := IndexByte(s, c);
    assert s[|prefix|] == c;
    assert forall k | 0 <= k < |prefix| :: s[k] == prefix[k];
  }

  // ---------- decimal numbers ----------

  predicate IsDigit(c: Octet) {
    '0' <= c <= '9'
  }

  predicate AllDigits(s: Str) {
    forall i | 0 <= i < |s| :: IsDigit(s[i])
  }

  function DigitChar(d: nat): (c: Octet)
    requires d < 10
    ensures IsDigit(c) && DigitValue(c) == d
  {
    ('0' as int + d) as char
  }

  function DigitValue(c: Octet): (d: nat)
    requires IsDigit(c)
    ensures d < 10
  {
    c as int - '0' as int
  }

  /** The number written by a digit string; the empty string writes 0. */
  function Value(s: Str): nat
    requires AllDigits(s)
  {
    if s == [] then 0 else 10 * Value(s[..|s| - 1]) + DigitValue(s[|s| - 1])
  }

  /** Exactly `width` digits, the low-order ones of `n`. */
  function Digits(n: nat, width: nat): (s: Str)
    ensures |s| == width && AllDigits(s)
  {
    if width == 0 then [] else Digits(n / 10, width - 1) + [DigitChar(n % 10)]
  }

  /** The verb %d for a number that is not negative. */
  function Decimal(n: nat): (s: Str)
    ensures |s| > 0 && AllDigits(s)
  {
    if n < 10 then [DigitChar(n)] else Decimal(n / 10) + [DigitChar(n % 10)]
  }

  function Pow10(k: nat): (p: nat)
    ensures p > 0
  {
    if k == 0 then 1 else 10 * Pow10(k - 1)
  }

  lemma ValueSnoc(s: Str, c: Octet)
    requires AllDigits(s) && IsDigit(c)
    ensures Value(s + [c]) == 10 * Value(s) + DigitValue(c)
  {
    assert (s + [c])[..|s|] == s;
  }

  lemma OneDigit(c: Octet)
    requires IsDigit(c)
    ensures Value([c]) == DigitValue(c)
  {
    assert [c][..0] == [];
  }

  lemma {:induction false} DigitsValue(n: nat, width: nat)
    requires n < Pow10(width)
    ensures Value(Digits(n, width)) == n
  {
    hide AllDigits, IsDigit;
    if width > 0 {
      var front := Digits(n / 10, width - 1);
      DigitsValue(n / 10, width - 1);
      ValueSnoc(front, DigitChar(n % 10));
    }
  }

  lemma {:induction false} DecimalValue(n: nat)
    ensures Value(Decimal(n)) == n
  {
    hide Value, AllDigits, IsDigit;
    if n < 10 {
      OneDigit(DigitChar(n));
    } else {
      DecimalValue(n / 10);
      ValueSnoc(Decimal(n / 10), DigitChar(n % 10));
    }
  }

  /** A number of `width` digits or more is never printed with fewer. */
  lemma {:induction false} DecimalWidth(n: nat, width: nat)
    requires n >= Pow10(width)
    ensures |Decimal(n)| > width
  {
    if width > 0 {
      assert n / 10 >= Pow10(width - 1);
      DecimalWidth(n / 10, width - 1);
    }
  }

  // ---------- white space ----------

  /** The white space runes of one, two and three bytes in UTF-8. */
  predicate Space1(a: Octet) {
    a == ' ' || '\t' <= a <= '\r'
  }

  predicate Space2(a: Octet, b: Octet) {
    a == '\U{C2}' && (b == '\U{85}' || b == '\U{A0}')
  }

  predicate Space3(a: Octet, b: Octet, c: Octet) {
    || (a == '\U{E1}' && b == '\U{9A}' && c == '\U{80}')
    || (a == '\U{E2}' && b == '\U{80}'
        && ('\U{80}' <= c <= '\U{8A}' || c == '\U{A8}' || c == '\U{A9}' || c == '\U{AF}'))
    || (a == '\U{E2}' && b == '\U{81}' && c == '\U{9F}')
    || (a == '\U{E3}' && b == '\U{80}' && c == '\U{80}')
  }

  /** How many bytes the white space rune at the front of `s` takes, 0 when there is none. */
  function LeadingSpace(s: Str): (n: nat)
    ensures n <= |s|
  {
    if |s| >= 1 && Space1(s[0]) then 1
    else if |s| >= 2 && Space2(s[0], s[1]) then 2
    else if |s| >= 3 && Space3(s[0], s[1], s[2]) then 3
    else 0
  }

  function TrailingSpace(s: Str): (n: nat)
    ensures n <= |s|
  {
    var e := |s|;
    if e >= 1 && Space1(s[e - 1]) then 1
    else if e >= 2 && Space2(s[e - 2], s[e - 1]) then 2
    else if e >= 3 && Space3(s[e - 3], s[e - 2], s[e - 1]) then 3
    else 0
  }

  function TrimLeft(s: Str): (t: Str)
    ensures LeadingSpace(t) == 0
    ensures |t| <= |s| && t == s[|s| - |t|..]
  {
    var n := LeadingSpace(s);
    if n == 0 then s else TrimLeft(s[n..])
  }

  function TrimRight(s: Str): (t: Str)
    ensures TrailingSpace(t) == 0
    ensures |t| <= |s| && t == s[..|t|]
  {
    var n := TrailingSpace(s);
    if n == 0 then s else TrimRight(s[..|s| - n])
  }

  /** strings.TrimSpace. */
  function TrimSpace(s: Str): (t: Str)
    ensures LeadingSpace(t) == 0 && TrailingSpace(t) == 0
    ensures forall c | c in t :: c in s
  {
    TrimRight(TrimLeft(s))
  }
}
