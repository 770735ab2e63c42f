/**
 base64.URLEncoding: the padded alphabet of section 5 of RFC 4648, with the lenient decoder of Go's
 encoding/base64.
 */
module Base64 {
  import opened Text

  function Letter(v: nat): (c: Octet)
    requires v < 64
    ensures LetterValue(c) == Some(v)
    ensures c != '=' && c != '\r' && c != '\n'
  {
    if v < 26 then ('A' as int + v) as char
    else if v < 52 then ('a' as int + v - 26) as char
    else if v < 62 then ('0' as int + v - 52) as char
    else if v == 62 then '-' else '_'
  }

  function LetterValue(c: Octet): (v: Option<nat>)
    ensures v.Some? ==> v.value < 64
  {
    if 'A' <= c <= 'Z' then Some(c as int - 'A' as int)
    else if 'a' <= c <= 'z' then Some(c as int - 'a' as int + 26)
    else if '0' <= c <= '9' then Some(c as int - '0' as int + 52)
    else if c == '-' then Some(62)
    else if c == '_' then Some(63)
    else None
  }

  /** A quantum is 24 bits: three bytes on one side, four letters on the other. */
  function Pack(a: Octet, b: Octet, c: Octet): (n: nat)
    ensures n < 0x100_0000
  {
    a as int * 0x1_0000 + b as int * 0x100 + c as int
  }

  function Unpack(n: nat): (bytes: Str)
    requires n < 0x100_0000
    ensures |bytes| == 3
  {
    [(n / 0x1_0000) as char, (n / 0x100 % 0x100) as char, (n % 0x100) as char]
  }

  datatype Sextets = Sextets(v0: nat, v1: nat, v2: nat, v3: nat) {
    predicate Valid() {
      v0 < 64 && v1 < 64 && v2 < 64 && v3 < 64
    }
  }

  function Split(n: nat): (q: Sextets)
    requires n < 0x100_0000
    ensures q.Valid()
  {
    Sextets(n / 0x4_0000, n / 0x1000 % 64, n / 64 % 64, n % 64)
  }

  function Join(q: Sextets): (n: nat)
    requires q.Valid()
    ensures n < 0x100_0000
  {
    q.v0 * 0x4_0000 + q.v1 * 0x1000 + q.v2 * 64 + q.v3
  }

  function Letters(q: Sextets): (s: Str)
    requires q.Valid()
    ensures |s| == 4
  {
    [Letter(q.v0), Letter(q.v1), Letter(q.v2), Letter(q.v3)]
  }

  const ZERO: Octet := '\0'

  function Encode(s: Str): Str {
    if s == [] then []
    else if |s| == 1 then Letters(Split(Pack(s[0], ZERO, ZERO)))[..2] + ['=', '=']
    else if |s| == 2 then Letters(Split(Pack(s[0], s[1], ZERO)))[..3] + ['=']
    else Letters(Split(Pack(s[0], s[1], s[2]))) + Encode(s[3..])
  }

  /** The decoder drops line breaks wherever they stand. */
  function DropLineBreaks(s: Str): Str {
    if s == [] then []
    else (if s[0] == '\r' || s[0] == '\n' then [] else [s[0]]) + DropLineBreaks(s[1..])
  }

  /** Quantum by quantum; padding may only end the text, and the bits it leaves over are ignored. */
  function DecodeQuanta(s: Str): Option<Str> {
    if s == [] then Some([])
    else if |s| < 4 then None
    else
      var v0 :- LetterValue(s[0]);
      var v1 :- LetterValue(s[1]);
      if s[2] == '=' then
        if s[3] == '=' && |s| == 4 then Some(Unpack(Join(Sextets(v0, v1, 0, 0)))[..1]) else None
      else
        var v2 :- LetterValue(s[2]);
        if s[3] == '=' then
          if |s| == 4 then Some(Unpack(Join(Sextets(v0, v1, v2, 0)))[..2]) else None
        else
          var v3 :- LetterValue(s[3]);
          var rest :- DecodeQuanta(s[4..]);
          Some(Unpack(Join(Sextets(v0, v1, v2, v3))) + rest)
  }

  function Decode(s: Str): Option<Str> {
    DecodeQuanta(DropLineBreaks(s))
  }

  lemma {:induction false} DropNothing(s: Str)
    requires forall c | c in s :: c != '\r' && c != '\n'
    ensures DropLineBreaks(s) == s
  {
    if s != [] {
      assert s[0] in s && forall c | c in s[1..] :: c in s;
      DropNothing(s[1..]);
    }
  }

  lemma {:induction false} EncodeShape(s: Str)
    ensures forall c | c in Encode(s) :: c != '\r' && c != '\n'
    ensures s != [] ==> Encode(s) != []
  {
    if |s| > 2 {
      EncodeShape(s[3..]);
    }
  }

  lemma SplitJoin(n: nat)
    requires n < 0x100_0000
    ensures Join(Split(n)) == n
  {
    var m := n / 64;
    var k := m / 64;
    assert n / 0x1000 == k && k / 64 == n / 0x4_0000;
    assert n == m * 64 + n % 64 && m == k * 64 + m % 64 && k == k / 64 * 64 + k % 64;
  }

  lemma PackUnpack(a: Octet, b: Octet, c: Octet)
    ensures Unpack(Pack(a, b, c)) == [a, b, c]
  {
    var n := Pack(a, b, c);
    assert n / 0x1_0000 == a as int;
    assert n / 0x100 == a as int * 0x100 + b as int;
  }

  /** Missing bytes pack as zero bits, so the letters that padding replaces would have been zero. */
  lemma PaddingIsZero(a: Octet, b: Octet)
    ensures Split(Pack(a, ZERO, ZERO)).v2 == 0 && Split(Pack(a, ZERO, ZERO)).v3 == 0
    ensures Split(Pack(a, b, ZERO)).v3 == 0
  {
    MultipleOf64(a as int * 1024 + b as int * 4);
    MultipleOf64(a as int * 1024);
    MultipleOf64(a as int * 16);
  }

  lemma MultipleOf64(k: nat)
    ensures k * 64 % 64 == 0 && k * 64 / 64 == k
  {
  }

  lemma DecodeLetters(q: Sextets, rest: Str)
    requires q.Valid() && DecodeQuanta(rest).Some?
    ensures DecodeQuanta(Letters(q) + rest) == Some(Unpack(Join(q)) + DecodeQuanta(rest).value)
    ensures q.v3 == 0 ==> DecodeQuanta(Letters(q)[..3] + ['=']) == Some(Unpack(Join(q))[..2])
    ensures q.v3 == 0 && q.v2 == 0 ==> DecodeQuanta(Letters(q)[..2] + ['=', '=']) == Some(Unpack(Join(q))[..1])
  {
    assert (Letters(q) + rest)[4..] == rest;
  }

  lemma OneByte(a: Octet)
    ensures DecodeQuanta(Encode([a])) == Some([a])
  {
    var q := Split(Pack(a, ZERO, ZERO));
    assert Encode([a]) == Letters(q)[..2] + ['=', '='];
    assert Unpack(Join(q)) == [a, ZERO, ZERO] by {
      SplitJoin(Pack(a, ZERO, ZERO));
      PackUnpack(a, ZERO, ZERO);
    }
    PaddingIsZero(a, ZERO);
    assert [a, ZERO, ZERO][..1] == [a];
    DecodeLetters(q, []);
  }

  lemma TwoBytes(a: Octet, b: Octet)
    ensures DecodeQuanta(Encode([a, b])) == Some([a, b])
  {
    var q := Split(Pack(a, b, ZERO));
    assert Encode([a, b]) == Letters(q)[..3] + ['='];
    assert Unpack(Join(q)) == [a, b, ZERO] by {
      SplitJoin(Pack(a, b, ZERO));
      PackUnpack(a, b, ZERO);
    }
    PaddingIsZero(a, b);
    assert [a, b, ZERO][..2] == [a, b];
    DecodeLetters(q, []);
  }

  lemma ThreeBytes(s: Str, a: Octet, b: Octet, c: Octet, rest: Str)
    requires s == [a, b, c] + rest
    requires DecodeQuanta(Encode(rest)) == Some(rest)
    ensures DecodeQuanta(Encode(s)) == Some(s)
  {
    var q := Split(Pack(a, b, c));
    assert s[3..] == rest;
    assert Encode(s) == Letters(q) + Encode(rest);
    assert Unpack(Join(q)) == [a, b, c] by {
      SplitJoin(Pack(a, b, c));
      PackUnpack(a, b, c);
    }
    DecodeLetters(q, Encode(rest));
  }

  lemma {:induction false} QuantaRoundTrip(s: Str)
    ensures DecodeQuanta(Encode(s)) == Some(s)
  {
    if |s| == 1 {
      OneByte(s[0]);
      assert s == [s[0]];
    } else if |s| == 2 {
      TwoBytes(s[0], s[1]);
      assert s == [s[0], s[1]];
    } else if |s| > 2 {
      QuantaRoundTrip(s[3..]);
      ThreeBytes(s, s[0], s[1], s[2], s[3..]);
    }
  }

  lemma RoundTrip(s: Str)
    ensures Decode(Encode(s)) == Some(s)
  {
    EncodeShape(s);
    DropNothing(Encode(s));
    QuantaRoundTrip(s);
  }

  // ---------- what is written, and what is read ----------

  lemma CapitalLetters(v: nat)
    requires v < 26
    ensures Letter(v) == "ABCDEFGHIJKLMNOPQRSTUVWXYZ"[v]
  {
  }

  lemma SmallLetters(v: nat)
    requires 26 <= v < 52
    ensures Letter(v) == "abcdefghijklmnopqrstuvwxyz"[v - 26]
  {
  }

  lemma OtherLetters(v: nat)
    requires 52 <= v < 64
    ensures Letter(v) == "0123456789-_"[v - 52]
  {
  }

  /** The URL and filename safe alphabet (table 2 of RFC 4648). */
  lemma AlphabetIs(v: nat)
    requires v < 64
    ensures Letter(v) == if v < 26 then "ABCDEFGHIJKLMNOPQRSTUVWXYZ"[v]
                         else if v < 52 then "abcdefghijklmnopqrstuvwxyz"[v - 26]
                         else "0123456789-_"[v - 52]
  {
    hide Letter;
    if v < 26 {
      CapitalLetters(v);
    } else if v < 52 {
      SmallLetters(v);
    } else {
      OtherLetters(v);
    }
  }

  lemma LetterBack(c: Octet)
    requires LetterValue(c).Some?
    ensures Letter(LetterValue(c).value) == c && c != '='
  {
  }

  /** A quantum and the octets it writes are the same number of 24 bits. */
  lemma JoinSplit(q: Sextets)
    requires q.Valid()
    ensures Split(Join(q)) == q
  {
    var m := q.v0 * 0x1000 + q.v1 * 64 + q.v2;
    var k := q.v0 * 64 + q.v1;
    assert Join(q) == m * 64 + q.v3 && m == k * 64 + q.v2;
    assert Join(q) / 64 == m && m / 64 == k && k / 64 == q.v0;
    assert Join(q) / 0x1000 == k && Join(q) / 0x4_0000 == q.v0;
  }

  lemma UnpackPack(n: nat)
    requires n < 0x100_0000
    ensures var b := Unpack(n); Pack(b[0], b[1], b[2]) == n
  {
    var k := n / 0x100;
    assert n == k * 0x100 + n % 0x100 && k == k / 0x100 * 0x100 + k % 0x100 && k / 0x100 == n / 0x1_0000;
  }

  /**
   Texts of one length that are the same but, if the number of octets is no multiple of three, for the
   last letter before the padding, of which some bits are left over.
   */
  predicate SameButLeftover(s: Str, t: Str, octets: nat) {
    && |s| == |t|
    && forall k | 0 <= k < |s| && (octets % 3 == 0 || k != |s| - 4 + octets % 3) :: s[k] == t[k]
  }

  lemma WholeQuantum(q: Sextets)
    requires q.Valid()
    ensures Encode(Unpack(Join(q))) == Letters(q)
  {
    var b := Unpack(Join(q));
    JoinSplit(q);
    UnpackPack(Join(q));
    assert b[3..] == [] && Letters(q) + [] == Letters(q);
  }

  /** Of the last quantum the first letters are determined by the octets that it gives. */
  lemma LastQuantum(q: Sextets)
    requires q.Valid()
    ensures q.v3 == 0 ==> SameButLeftover(Letters(q)[..3] + ['='], Encode(Unpack(Join(q))[..2]), 2)
    ensures q.v3 == 0 && q.v2 == 0 ==> SameButLeftover(Letters(q)[..2] + ['=', '='], Encode(Unpack(Join(q))[..1]), 1)
  {
    var n := Join(q);
    var b := Unpack(n);
    JoinSplit(q);
    UnpackPack(n);
    LeadingBits(n, Pack(b[0], b[1], ZERO), Pack(b[0], ZERO, ZERO));
  }

  /** Octets that agree at the front give letters that do. */
  lemma LeadingBits(n: nat, two: nat, one: nat)
    requires n < 0x100_0000 && two == n / 0x100 * 0x100 && one == n / 0x1_0000 * 0x1_0000
    ensures Split(two).v0 == Split(n).v0 && Split(two).v1 == Split(n).v1
    ensures Split(one).v0 == Split(n).v0
  {
    assert n / 0x1000 == two / 0x1000 by {
      assert n / 0x100 / 0x10 == n / 0x1000 && two / 0x100 / 0x10 == two / 0x1000 && two / 0x100 == n / 0x100;
    }
    assert n / 0x4_0000 == two / 0x4_0000 by {
      assert n / 0x1000 / 0x40 == n / 0x4_0000 && two / 0x1000 / 0x40 == two / 0x4_0000;
    }
    assert n / 0x4_0000 == one / 0x4_0000 by {
      assert n / 0x1_0000 / 4 == n / 0x4_0000 && one / 0x1_0000 / 4 == one / 0x4_0000;
      assert one / 0x1_0000 == n / 0x1_0000;
    }
  }

  lemma EncodeQuantum(q: Sextets, rest: Str)
    requires q.Valid()
    ensures Encode(Unpack(Join(q)) + rest) == Letters(q) + Encode(rest)
  {
    var b := Unpack(Join(q));
    JoinSplit(q);
    UnpackPack(Join(q));
    assert (b + rest)[3..] == rest;
  }

  lemma SameBehind(q: Str, s: Str, t: Str, octets: nat)
    requires |q| == 4 && SameButLeftover(s, t, octets) && (octets % 3 != 0 ==> |s| >= 4)
    ensures SameButLeftover(q + s, q + t, octets + 3)
  {
  }

  /** The three ways in which a quantum is read. */
  lemma QuantumRead(s: Str) returns (q: Sextets)
    requires s != [] && DecodeQuanta(s).Some?
    ensures q.Valid() && |s| >= 4
    ensures
      var octets := DecodeQuanta(s).value;
      || (q.v2 == 0 && q.v3 == 0 && s == Letters(q)[..2] + ['=', '='] && octets == Unpack(Join(q))[..1])
      || (q.v3 == 0 && s == Letters(q)[..3] + ['='] && octets == Unpack(Join(q))[..2])
      || (&& s == Letters(q) + s[4..] && DecodeQuanta(s[4..]).Some?
          && octets == Unpack(Join(q)) + DecodeQuanta(s[4..]).value)
  {
    var v0, v1 := LetterValue(s[0]).value, LetterValue(s[1]).value;
    var v2 := if s[2] == '=' then 0 else LetterValue(s[2]).value;
    var v3 := if s[3] == '=' then 0 else LetterValue(s[3]).value;
    q := Sextets(v0, v1, v2, v3);
    LetterBack(s[0]);
    LetterBack(s[1]);
    if s[2] != '=' {
      LetterBack(s[2]);
    }
    if s[3] != '=' {
      LetterBack(s[3]);
    }
  }

  /** Whatever is read back is, but for line breaks and leftover bits, what is written for the octets read. */
  lemma {:induction false} QuantaReadBack(s: Str)
    requires DecodeQuanta(s).Some?
    ensures SameButLeftover(s, Encode(DecodeQuanta(s).value), |DecodeQuanta(s).value|)
    ensures |DecodeQuanta(s).value| % 3 != 0 ==> |s| >= 4
  {
    if s == [] {
      return;
    }
    hide SameButLeftover, Encode, Unpack, Join, Letter, LetterValue, Letters, DecodeQuanta;
    var q := QuantumRead(s);
    LastQuantum(q);
    var octets, rest := DecodeQuanta(s).value, DecodeQuanta(s[4..]);
    if s == Letters(q) + s[4..] && rest.Some? && octets == Unpack(Join(q)) + rest.value {
      QuantaReadBack(s[4..]);
      EncodeQuantum(q, DecodeQuanta(s[4..]).value);
      SameBehind(Letters(q), s[4..], Encode(DecodeQuanta(s[4..]).value), |DecodeQuanta(s[4..]).value|);
    }
  }

  lemma ReadBack(s: Str)
    requires Decode(s).Some?
    ensures SameButLeftover(DropLineBreaks(s), Encode(Decode(s).value), |Decode(s).value|)
  {
    QuantaReadBack(DropLineBreaks(s));
  }
}
