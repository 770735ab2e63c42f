/** Bearer credentials (section 2.1 of RFC 6750) and the owner key of a verified identity. */
module Auth {
  import opened Text
  import opened Errors

  datatype Identity = Identity(issuer: Str, subject: Str, tenant: Str, scopes: seq<Str>)

  // ---------- owner key ----------

  /** A string behind its length in bytes. */
  function Field(s: Str): Str {
    Decimal(|s|) + [':'] + s
  }

  function OwnerKey(identity: Identity): Str {
    Field(identity.issuer) + (['|'] + (Field(identity.tenant) + (['|'] + Field(identity.subject))))
  }

  /** A length prefix tells where its field ends, whatever bytes the field holds. */
  lemma FieldEndsByItself(s: Str, rest: Str, s': Str, rest': Str)
    requires Field(s) + rest == Field(s') + rest'
    ensures s == s' && rest == rest'
  {
    var whole := Field(s) + rest;
    assert whole == Decimal(|s|) + [':'] + (s + rest);
    assert whole == Decimal(|s'|) + [':'] + (s' + rest');
    IndexByteAfter(Decimal(|s|), ':', s + rest);
    IndexByteAfter(Decimal(|s'|), ':', s' + rest');
    DecimalValue(|s|);
    DecimalValue(|s'|);
    assert |s| == |s'| && s + rest == s' + rest';
    assert s == (s + rest)[..|s|] && rest == (s + rest)[|s|..];
    assert s' == (s' + rest')[..|s'|] && rest' == (s' + rest')[|s'|..];
  }

  /** Two identities share an owner key exactly when issuer, tenant and subject all agree. */
  lemma OwnerKeyInjective(a: Identity, b: Identity)
    ensures OwnerKey(a) == OwnerKey(b) <==> a.issuer == b.issuer && a.tenant == b.tenant && a.subject == b.subject
  {
    if OwnerKey(a) == OwnerKey(b) {
      var restA := Field(a.tenant) + (['|'] + Field(a.subject));
      var restB := Field(b.tenant) + (['|'] + Field(b.subject));
      FieldEndsByItself(a.issuer, ['|'] + restA, b.issuer, ['|'] + restB);
      assert restA == (['|'] + restA)[1..] && restB == (['|'] + restB)[1..];
      FieldEndsByItself(a.tenant, ['|'] + Field(a.subject), b.tenant, ['|'] + Field(b.subject));
      assert Field(a.subject) == (['|'] + Field(a.subject))[1..];
      assert Field(b.subject) == (['|'] + Field(b.subject))[1..];
      assert Field(a.subject) + [] == Field(b.subject) + [];
      FieldEndsByItself(a.subject, [], b.subject, []);
    }
  }

  /** Each field is written behind its length, and the fields come in this order. */
  lemma OwnerKeyLayout()
    ensures OwnerKey(Identity("i", "sub", "te", [])) == "1:i|2:te|3:sub"
  {
    hide Decimal, Field;
    FieldLayout("i", '1');
    FieldLayout("te", '2');
    FieldLayout("sub", '3');
  }

  lemma FieldLayout(s: Str, digit: Octet)
    requires IsDigit(digit) && |s| == DigitValue(digit)
    ensures Field(s) == [digit, ':'] + s
  {
    assert Decimal(|s|) == [digit];
  }

  // ---------- bearer credentials ----------

  const MAX_FIELD := 16 * 1024

  predicate Alphanumeric(c: Octet) {
    'a' <= c <= 'z' || 'A' <= c <= 'Z' || '0' <= c <= '9'
  }

  predicate TokenChar(c: Octet) {
    Alphanumeric(c) || c in {'-', '.', '_', '~', '+', '/'}
  }

  /** One or more token characters, the first `k`, then only padding. */
  ghost predicate B64TokenAt(s: Str, k: nat) {
    && 0 < k <= |s|
    && (forall i | 0 <= i < k :: TokenChar(s[i]))
    && (forall i | k <= i < |s| :: s[i] == '=')
  }

  ghost predicate B64Token(s: Str) {
    exists k: nat :: B64TokenAt(s, k)
  }

  /** All the kinds of characters there are, the padding at the end, and texts that are no token. */
  lemma TokenExamples()
    ensures B64Token("azAZ09-._~+/==") && !B64Token("=") && !B64Token("a=b") && !B64Token("a b") && !B64Token("")
  {
    assert B64TokenAt("azAZ09-._~+/==", 12);
    forall k: nat
      ensures !B64TokenAt("=", k) && !B64TokenAt("a=b", k) && !B64TokenAt("a b", k)
    {
      assert "a=b"[1] == '=' && "a=b"[2] == 'b' && "a b"[1] == ' ' && "="[0] == '=';
    }
  }

  method ValidBearerCredential(value: Str) returns (ok: bool)
    ensures ok <==> B64Token(value)
  {
    if value == [] {
      return false;
    }
    var padding := false;
    var content := false;
    ghost var run := 0;  // how many token characters lead the text
    for index := 0 to |value|
      invariant 0 <= run <= index
      invariant forall i | 0 <= i < run :: TokenChar(value[i])
      invariant forall i | run <= i < index :: value[i] == '='
      invariant padding <==> run < index
      invariant content <==> 0 < run
      invariant 0 < index ==> 0 < run
    {
      var character := value[index];
      if character == '=' {
        if !content {
          assert !TokenChar(value[0]);
          return false;
        }
        padding := true;
        continue;
      }
      if padding {
        assert value[run] == '=';
        return false;
      }
      if Alphanumeric(character) {
        content := true;
        run := run + 1;
        continue;
      }
      match character {
        case '-' | '.' | '_' | '~' | '+' | '/' =>
          content := true;
          run := run + 1;
        case _ =>
          return false;
      }
    }
    assert content ==> B64TokenAt(value, run);
    return content;
  }

  function Lower(c: Octet): Octet {
    if 'A' <= c <= 'Z' then (c as int + 32) as char else c
  }

  /** strings.EqualFold against an ASCII word without k or s, the letters that have non-ASCII folds. */
  predicate EqualFold(s: Str, word: Str) {
    |s| == |word| && forall i | 0 <= i < |s| :: Lower(s[i]) == Lower(word[i])
  }

  /** Each letter of the scheme may be a capital or a small one. */
  lemma SchemeIgnoresCase(s: Str)
    ensures EqualFold(s, "Bearer")
       <==> (&& |s| == 6
             && s[0] in {'B', 'b'} && s[1] in {'E', 'e'} && s[2] in {'A', 'a'}
             && s[3] in {'R', 'r'} && s[4] in {'E', 'e'} && s[5] in {'R', 'r'})
  {
    var word: Str := "Bearer";
    if EqualFold(s, word) {
      assert Lower(s[0]) == Lower(word[0]) && Lower(s[1]) == Lower(word[1]) && Lower(s[2]) == Lower(word[2]);
      assert Lower(s[3]) == Lower(word[3]) && Lower(s[4]) == Lower(word[4]) && Lower(s[5]) == Lower(word[5]);
    }
  }

  /** "Bearer" in any case, `gap` spaces, then the token. */
  ghost predicate BearerAt(value: Str, gap: nat, token: Str) {
    && gap > 0
    && |value| == 6 + gap + |token|
    && EqualFold(value[..6], "Bearer")
    && (forall i | 6 <= i < 6 + gap :: value[i] == ' ')
    && value[6 + gap..] == token
    && B64Token(token)
  }

  ghost predicate Bearer(value: Str, token: Str) {
    exists gap: nat :: BearerAt(value, gap, token)
  }

  lemma TokenStart(token: Str)
    requires B64Token(token)
    ensures token != [] && token[0] != ' '
  {
    var k: nat :| B64TokenAt(token, k);
    assert TokenChar(token[0]);
  }

  /** A field value carries at most one token. */
  lemma BearerUnique(value: Str, token: Str, token': Str)
    requires Bearer(value, token) && Bearer(value, token')
    ensures token == token'
  {
    var gap: nat :| BearerAt(value, gap, token);
    var gap': nat :| BearerAt(value, gap', token');
    TokenStart(token);
    TokenStart(token');
    assert value[6 + gap] == token[0] && value[6 + gap'] == token'[0];
  }

  method BearerToken(values: seq<Str>) returns (r: Result<Str, Error>)
    ensures r.Ok? <==> |values| == 1 && |values[0]| <= 16_384 && exists token :: Bearer(values[0], token)
    ensures r.Ok? ==> Bearer(values[0], r.value)
    ensures r.Err? ==> r.error == InvalidToken
  {
    if |values| != 1 {
      return Err(InvalidToken);
    }
    var value := values[0];
    if |value| > MAX_FIELD {
      return Err(InvalidToken);
    }
    var separator := IndexByte(value, ' ');
    BearerSeparator(value, separator);
    if separator <= 0 || !EqualFold(value[..separator], "Bearer") {
      return Err(InvalidToken);
    }
    var token := value[separator..];
    ghost var gap := 0;
    while |token| > 0 && token[0] == ' '
      invariant 6 + gap <= |value| && token == value[6 + gap..]
      invariant forall i | 6 <= i < 6 + gap :: value[i] == ' '
      invariant gap == 0 ==> token[0] == ' '
      decreases |token|
    {
      token := token[1..];
      gap := gap + 1;
    }
    var valid := ValidBearerCredential(token);
    if !valid {
      BearerRest(value, gap);
      return Err(InvalidToken);
    }
    assert BearerAt(value, gap, token);
    assert Bearer(value, token);
    return Ok(token);
  }

  /** In a well-formed field the first space ends the scheme. */
  lemma BearerSeparator(value: Str, separator: int)
    requires separator == IndexByte(value, ' ')
    ensures (exists token :: Bearer(value, token)) ==> separator == 6 && EqualFold(value[..6], "Bearer")
  {
    if token :| Bearer(value, token) {
      var gap: nat :| BearerAt(value, gap, token);
      assert value[6] == ' ';
      forall i | 0 <= i < 6
        ensures value[i] != ' '
      {
        assert value[..6][i] == value[i];
        assert Lower(value[i]) == Lower("Bearer"[i]);
      }
    }
  }

  /** Behind all the leading spaces stands the token or nothing well-formed. */
  lemma BearerRest(value: Str, gap: nat)
    requires 6 + gap <= |value|
    requires forall i | 6 <= i < 6 + gap :: value[i] == ' '
    requires 6 + gap < |value| ==> value[6 + gap] != ' '
    requires !B64Token(value[6 + gap..])
    ensures !exists token :: Bearer(value, token)
  {
    if token :| Bearer(value, token) {
      var n: nat :| BearerAt(value, n, token);
      TokenStart(token);
    }
  }
}
