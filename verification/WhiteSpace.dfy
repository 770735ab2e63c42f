/** Unicode's white space in UTF-8, and what trimming it from both ends leaves. */
module WhiteSpace {
  import opened Text

  // ---------- white space by its code points ----------

  /** The code points with the property White_Space, all of them below 0x10000. */
  predicate WhitePoint(point: int) {
    || 0x09 <= point <= 0x0D || point == 0x20 || point == 0x85 || point == 0xA0 || point == 0x1680
    || 0x2000 <= point <= 0x200A || point == 0x2028 || point == 0x2029 || point == 0x202F || point == 0x205F
    || point == 0x3000
  }

  /** The UTF-8 encoding of a code point below 0x10000 (section 3 of RFC 3629). */
  function Utf8(point: int): Str
    requires 0 <= point < 0x10000
  {
    if point < 0x80 then [point as char]
    else if point < 0x800 then [(0xC0 + point / 0x40) as char, (0x80 + point % 0x40) as char]
    else
      [(0xE0 + point / 0x1000) as char, (0x80 + point / 0x40 % 0x40) as char, (0x80 + point % 0x40) as char]
  }

  /** One white space rune. */
  ghost predicate White(s: Str) {
    exists point | 0 <= point < 0x10000 :: WhitePoint(point) && s == Utf8(point)
  }

  /** White space runes one after another, and nothing else. */
  ghost predicate Blank(s: Str)
    decreases |s|
  {
    s == [] || exists n | 0 < n <= |s| :: White(s[..n]) && Blank(s[n..])
  }

  // ---------- the runes at both ends ----------

  predicate SpaceRune(s: Str) {
    || (|s| == 1 && Space1(s[0]))
    || (|s| == 2 && Space2(s[0], s[1]))
    || (|s| == 3 && Space3(s[0], s[1], s[2]))
  }

  /** The code point that a white space rune encodes. */
  function PointOf(s: Str): int
    requires SpaceRune(s)
  {
    if |s| == 1 then s[0] as int
    else if |s| == 2 then s[1] as int
    else if s[0] == '\U{E1}' then 0x1680
    else if s[0] == '\U{E3}' then 0x3000
    else if s[1] == '\U{81}' then 0x205F
    else 0x2000 + (s[2] as int - 0x80)
  }

  lemma RuneEncodes(s: Str)
    requires SpaceRune(s)
    ensures 0 <= PointOf(s) < 0x10000 && WhitePoint(PointOf(s)) && s == Utf8(PointOf(s))
  {
    var point := PointOf(s);
    if |s| == 3 && s[0] == '\U{E2}' && s[1] == '\U{80}' {
      assert point / 0x40 == 0x80 && point % 0x40 == s[2] as int - 0x80;
    }
  }

  lemma EncodedRune(point: int)
    requires WhitePoint(point)
    ensures 0 <= point < 0x10000 && SpaceRune(Utf8(point))
  {
    if 0x2000 <= point < 0x2040 {
      assert point / 0x40 == 0x80 && point / 0x1000 == 2 && point % 0x40 == point - 0x2000;
    }
  }

  lemma WhiteIsSpace(s: Str)
    ensures White(s) <==> SpaceRune(s)
  {
    hide SpaceRune, WhitePoint, Utf8, PointOf;
    if SpaceRune(s) {
      RuneEncodes(s);
    }
    if point :| 0 <= point < 0x10000 && WhitePoint(point) && s == Utf8(point) {
      EncodedRune(point);
    }
  }

  lemma LeadsWith(s: Str, n: nat)
    requires 0 < n <= |s|
    ensures LeadingSpace(s) == n <==> White(s[..n])
  {
    hide White, Blank;
    WhiteIsSpace(s[..n]);
  }

  lemma TrailsWith(s: Str, n: nat)
    requires 0 < n <= |s|
    ensures TrailingSpace(s) == n <==> White(s[|s| - n..])
  {
    hide White, Blank;
    WhiteIsSpace(s[|s| - n..]);
  }

  // ---------- what trimming leaves ----------

  /** No white space rune stands at either end. */
  ghost predicate Bare(s: Str) {
    forall n | 0 < n <= |s| :: !White(s[..n]) && !White(s[|s| - n..])
  }

  lemma BareEnds(s: Str)
    ensures Bare(s) <==> LeadingSpace(s) == 0 && TrailingSpace(s) == 0
  {
    hide White, LeadingSpace, TrailingSpace;
    if Bare(s) {
      var n, m := LeadingSpace(s), TrailingSpace(s);
      if n > 0 {
        assert !White(s[..n]);
        LeadsWith(s, n);
      }
      if m > 0 {
        assert s[..m] == s[..m] && !White(s[|s| - m..]);
        TrailsWith(s, m);
      }
    } else {
      var n :| 0 < n <= |s| && (White(s[..n]) || White(s[|s| - n..]));
      LeadsWith(s, n);
      TrailsWith(s, n);
    }
  }

  lemma NothingBlank()
    ensures Blank([])
  {
  }

  lemma BlankCons(r: Str, b: Str)
    requires White(r) && Blank(b)
    ensures Blank(r + b)
  {
    hide White;
    WhiteIsSpace(r);
    assert (r + b)[..|r|] == r && (r + b)[|r|..] == b;
  }

  lemma {:induction false} BlankConcat(a: Str, b: Str)
    requires Blank(a) && Blank(b)
    ensures Blank(a + b)
    decreases |a|
  {
    hide White;
    if a == [] {
      assert a + b == b;
    } else {
      var n :| 0 < n <= |a| && White(a[..n]) && Blank(a[n..]);
      BlankConcat(a[n..], b);
      BlankCons(a[..n], a[n..] + b);
      assert a[..n] + (a[n..] + b) == a + b;
    }
  }

  lemma OneBlank(r: Str)
    requires White(r)
    ensures Blank(r)
  {
    hide White;
    BlankCons(r, []);
    assert r + [] == r;
  }

  lemma {:induction false} TrimLeftBlank(b: Str, x: Str)
    requires Blank(b)
    ensures TrimLeft(b + x) == TrimLeft(x)
    decreases |b|
  {
    hide White, LeadingSpace;
    if b == [] {
      assert b + x == x;
    } else {
      var n :| 0 < n <= |b| && White(b[..n]) && Blank(b[n..]);
      assert (b + x)[..n] == b[..n] && (b + x)[n..] == b[n..] + x;
      LeadsWith(b + x, n);
      TrimLeftBlank(b[n..], x);
    }
  }

  lemma {:induction false} TrimRightBlank(x: Str, b: Str)
    requires Blank(b)
    ensures TrimRight(x + b) == TrimRight(x)
    decreases |b|
  {
    hide White, TrailingSpace;
    if b == [] {
      assert x + b == x;
    } else {
      var n :| 0 < n <= |b| && White(b[..n]) && Blank(b[n..]);
      var longer := x + b[..n];
      assert x + b == longer + b[n..];
      TrimRightBlank(longer, b[n..]);
      assert longer[|longer| - n..] == b[..n] && longer[..|longer| - n] == x;
      TrailsWith(longer, n);
    }
  }

  lemma {:induction false} LeftIsBlank(s: Str)
    ensures Blank(s[..|s| - |TrimLeft(s)|])
    decreases |s|
  {
    hide White, LeadingSpace, Blank;
    var n := LeadingSpace(s);
    if n > 0 {
      var rest := s[n..];
      LeadsWith(s, n);
      LeftIsBlank(rest);
      var more := rest[..|rest| - |TrimLeft(rest)|];
      BlankCons(s[..n], more);
      assert s[..|s| - |TrimLeft(s)|] == s[..n] + more;
    } else {
      NothingBlank();
    }
  }

  lemma {:induction false} RightIsBlank(s: Str)
    ensures Blank(s[|TrimRight(s)|..])
    decreases |s|
  {
    hide White, TrailingSpace, Blank;
    var n := TrailingSpace(s);
    if n > 0 {
      var rest := s[..|s| - n];
      TrailsWith(s, n);
      RightIsBlank(rest);
      var more, last := rest[|TrimRight(rest)|..], s[|s| - n..];
      OneBlank(last);
      BlankConcat(more, last);
      assert s[|TrimRight(s)|..] == more + last;
    } else {
      NothingBlank();
      assert s[|TrimRight(s)|..] == [];
    }
  }

  /** A white space rune does not begin with a byte that continues one. */
  lemma BlankStart(b: Str)
    requires Blank(b) && b != []
    ensures !('\U{80}' <= b[0] <= '\U{BF}')
  {
    hide White;
    var n :| 0 < n <= |b| && White(b[..n]) && Blank(b[n..]);
    WhiteIsSpace(b[..n]);
  }

  lemma BareKeepsItsStart(t: Str, b: Str)
    requires t != [] && Bare(t) && Blank(b)
    ensures LeadingSpace(t + b) == 0
  {
    hide White, Blank, LeadingSpace;
    var n := LeadingSpace(t + b);
    if 0 < n <= |t| {
      assert (t + b)[..n] == t[..n] && !White(t[..n]);
      LeadsWith(t + b, n);
    } else if n > |t| {
      LeadsWith(t + b, n);
      BlankStart(b);
      WhiteIsSpace((t + b)[..n]);
      assert (t + b)[..n][|t|] == b[0];
      LaterBytesContinue((t + b)[..n], |t|);
    }
  }

  lemma LaterBytesContinue(r: Str, i: nat)
    requires SpaceRune(r) && 0 < i < |r|
    ensures '\U{80}' <= r[i] <= '\U{BF}'
  {
  }

  /** White space around a bare text goes, whatever the text holds inside, and nothing else does. */
  lemma TrimmedOnce(before: Str, t: Str, after: Str)
    requires Blank(before) && Bare(t) && Blank(after)
    ensures TrimSpace(before + t + after) == t
  {
    hide White, Blank, LeadingSpace, TrailingSpace, Bare, TrimLeft, TrimRight;
    assert before + t + after == before + (t + after);
    TrimLeftBlank(before, t + after);
    BareEnds(t);
    TrimNothing(t);
    if t == [] {
      TrimLeftBlank(after, t);
      assert t + after == after + t;
    } else {
      BareKeepsItsStart(t, after);
      TrimNothing(t + after);
      TrimRightBlank(t, after);
    }
  }

  lemma TrimNothing(s: Str)
    ensures LeadingSpace(s) == 0 ==> TrimLeft(s) == s
    ensures TrailingSpace(s) == 0 ==> TrimRight(s) == s
  {
    hide LeadingSpace, TrailingSpace;
  }

  /** TrimSpace takes white space from both ends, all of it, and leaves everything in between. */
  lemma TrimSpaceIs(s: Str, t: Str)
    ensures TrimSpace(s) == t
       <==> Bare(t) && exists before, after :: Blank(before) && Blank(after) && s == before + t + after
  {
    hide White, Blank, LeadingSpace, TrailingSpace, Bare, TrimLeft, TrimRight;
    if TrimSpace(s) == t {
      BareEnds(t);
      var left := TrimLeft(s);
      LeftIsBlank(s);
      RightIsBlank(left);
      assert left[..|t|] == t;
      assert s == s[..|s| - |left|] + t + left[|t|..];
    }
    if before, after :| Bare(t) && Blank(before) && Blank(after) && s == before + t + after {
      TrimmedOnce(before, t, after);
    }
  }

  /** In particular, nothing is left exactly of text that is all white space. */
  lemma TrimmedAway(s: Str)
    ensures TrimSpace(s) == [] <==> Blank(s)
  {
    hide White, Blank, TrimSpace;
    assert Bare([]);
    TrimSpaceIs(s, []);
    if before, after :| Blank(before) && Blank(after) && s == before + [] + after {
      BlankConcat(before, after);
      assert s == before + after;
    }
    if Blank(s) {
      NothingBlank();
      assert s == s + [] + [];
    }
  }
}
