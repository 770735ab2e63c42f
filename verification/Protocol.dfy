/** Normalization of the list-valued service parameters, and the protocol version check that follows it. */
module Protocol {
  import opened Text
  import opened Errors
  import opened WhiteSpace

  const VERSION_PARAM: Str := "A2A-Version"
  const EXTENSIONS_PARAM: Str := "A2A-Extensions"
  const VERSION: Str := "1.0"

  /** The keys under which a header holds the parameters. */
  const VERSION_KEY: Str := "A2a-Version"
  const EXTENSIONS_KEY: Str := "A2a-Extensions"

  // ---------- list items ----------

  /** strings.Split at every comma. */
  function SplitCommas(s: Str): (parts: seq<Str>)
    ensures forall p | p in parts :: ',' !in p
    decreases |s|
  {
    var i := IndexByte(s, ',');
    if i < 0 then [s] else [s[..i]] + SplitCommas(s[i + 1..])
  }

  /** Each part without surrounding white space, the empty ones left out. */
  function Clean(parts: seq<Str>): seq<Str> {
    if parts == [] then []
    else
      var item := TrimSpace(parts[0]);
      (if item == [] then [] else [item]) + Clean(parts[1..])
  }

  function Items(values: seq<Str>): seq<Str> {
    if values == [] then [] else Clean(SplitCommas(values[0])) + Items(values[1..])
  }

  /** What a list field can hold as one item. */
  predicate IsItem(s: Str) {
    s != [] && ',' !in s && LeadingSpace(s) == 0 && TrailingSpace(s) == 0
  }

  lemma {:induction false} CleanConcat(a: seq<Str>, b: seq<Str>)
    ensures Clean(a + b) == Clean(a) + Clean(b)
  {
    hide TrimSpace;
    if a == [] {
      assert a + b == b;
    } else {
      assert (a + b)[1..] == a[1..] + b;
      CleanConcat(a[1..], b);
    }
  }

  lemma {:induction false} ItemsConcat(a: seq<Str>, b: seq<Str>)
    ensures Items(a + b) == Items(a) + Items(b)
  {
    hide TrimSpace, SplitCommas;
    if a == [] {
      assert a + b == b;
    } else {
      assert (a + b)[0] == a[0] && (a + b)[1..] == a[1..] + b;
      ItemsConcat(a[1..], b);
      var first := Clean(SplitCommas(a[0]));
      assert first + (Items(a[1..]) + Items(b)) == first + Items(a[1..]) + Items(b);
    }
  }

  lemma {:induction false} CleanYieldsItems(parts: seq<Str>)
    requires forall p | p in parts :: ',' !in p
    ensures forall x | x in Clean(parts) :: IsItem(x)
  {
    if parts != [] {
      assert forall p | p in parts[1..] :: p in parts;
      CleanYieldsItems(parts[1..]);
      assert ',' !in TrimSpace(parts[0]);
    }
  }

  lemma {:induction false} ItemsAreItems(values: seq<Str>)
    ensures forall x | x in Items(values) :: IsItem(x)
  {
    hide TrimSpace, SplitCommas, Clean;
    if values != [] {
      CleanYieldsItems(SplitCommas(values[0]));
      ItemsAreItems(values[1..]);
    }
  }

  lemma ItemStaysWhole(x: Str)
    requires IsItem(x)
    ensures TrimSpace(x) == x
    ensures Clean(SplitCommas(x)) == [x]
  {
    assert IndexByte(x, ',') == -1;
    var parts: seq<Str> := [x];
    assert SplitCommas(x) == parts;
    assert parts[1..] == [];
  }

  /** The lists that splitting leaves alone are the lists of items. */
  lemma {:induction false} ItemsFixed(values: seq<Str>)
    ensures Items(values) == values <==> forall x | x in values :: IsItem(x)
  {
    hide TrimSpace, LeadingSpace, TrailingSpace, SplitCommas;
    ItemsAreItems(values);
    if forall x | x in values :: IsItem(x) {
      if values != [] {
        ItemStaysWhole(values[0]);
        assert forall y | y in values[1..] :: y in values;
        ItemsFixed(values[1..]);
      }
    }
  }

  lemma ItemsIdempotent(values: seq<Str>)
    ensures Items(Items(values)) == Items(values)
  {
    ItemsAreItems(values);
    ItemsFixed(Items(values));
  }

  lemma SplitFirst(part: Str, rest: Str)
    requires ',' !in part
    ensures SplitCommas(part + [','] + rest) == [part] + SplitCommas(rest)
  {
    IndexByteAfter(part, ',', rest);
  }

  lemma SplitNone(part: Str)
    requires ',' !in part
    ensures SplitCommas(part) == [part]
  {
  }

  lemma {:induction false} SplitAtComma(a: Str, b: Str)
    ensures SplitCommas(a + [','] + b) == SplitCommas(a) + SplitCommas(b)
    decreases |a|
  {
    hide SplitCommas, IndexByte;
    var i := IndexByte(a, ',');
    if i < 0 {
      SplitNone(a);
      SplitFirst(a, b);
    } else {
      var tail := a[i + 1..];
      assert a == a[..i] + [','] + tail;
      assert a + [','] + b == a[..i] + [','] + (tail + [','] + b);
      SplitFirst(a[..i], tail);
      SplitFirst(a[..i], tail + [','] + b);
      SplitAtComma(tail, b);
    }
  }

  /** Field lines combined into one value (section 5.3 of RFC 9110). */
  function Joined(values: seq<Str>): Str {
    if values == [] then []
    else if |values| == 1 then values[0]
    else values[0] + [','] + Joined(values[1..])
  }

  lemma ItemsOfOneLine(line: Str)
    ensures Items([line]) == Clean(SplitCommas(line))
  {
    var lines: seq<Str> := [line];
    assert lines[1..] == [];
  }

  lemma EmptyLine()
    ensures Clean(SplitCommas([])) == []
  {
    assert TrimSpace([]) == [];
    var parts: seq<Str> := [[]];
    assert SplitCommas([]) == parts && parts[1..] == [];
  }

  /** Repeating a field and joining its lines with commas mean the same list. */
  lemma {:induction false} ItemsJoined(values: seq<Str>)
    ensures Items([Joined(values)]) == Items(values)
  {
    hide TrimSpace, SplitCommas, IndexByte, Clean;
    var line := Joined(values);
    ItemsOfOneLine(line);
    if values == [] {
      EmptyLine();
    } else if |values| > 1 {
      var rest := Joined(values[1..]);
      ItemsJoined(values[1..]);
      ItemsOfOneLine(rest);
      SplitAtComma(values[0], rest);
      CleanConcat(SplitCommas(values[0]), SplitCommas(rest));
    } else {
      assert values == [line];
    }
  }

  // ---------- what the items of a line are ----------

  /** One member of a list as it is written. */
  datatype Member = Member(before: Str, item: Str, after: Str) {
    /** White space, then text with neither a comma nor white space at its ends, then white space. */
    ghost predicate Valid() {
      Blank(before) && Bare(item) && ',' !in item && Blank(after)
    }

    function Text(): Str {
      before + item + after
    }
  }

  function Texts(members: seq<Member>): seq<Str> {
    if members == [] then [] else [members[0].Text()] + Texts(members[1..])
  }

  /** The items that are written, in order; a member may be empty. */
  function Written(members: seq<Member>): seq<Str> {
    if members == [] then []
    else (if members[0].item == [] then [] else [members[0].item]) + Written(members[1..])
  }

  /** The line is these members, joined by commas. */
  ghost predicate Writes(line: Str, members: seq<Member>) {
    members != [] && (forall m | m in members :: m.Valid()) && line == Joined(Texts(members))
  }

  lemma {:induction false} BlankHasNoComma(b: Str)
    requires Blank(b)
    ensures ',' !in b
    decreases |b|
  {
    hide White;
    if b != [] {
      var n :| 0 < n <= |b| && White(b[..n]) && Blank(b[n..]);
      WhiteIsSpace(b[..n]);
      BlankHasNoComma(b[n..]);
      assert b == b[..n] + b[n..];
    }
  }

  lemma {:induction false} SplitJoined(texts: seq<Str>)
    requires texts != [] && forall t | t in texts :: ',' !in t
    ensures SplitCommas(Joined(texts)) == texts
  {
    hide SplitCommas;
    assert texts[0] in texts;
    if |texts| == 1 {
      SplitNone(texts[0]);
      assert texts == [texts[0]];
    } else {
      assert forall t | t in texts[1..] :: t in texts;
      SplitJoined(texts[1..]);
      SplitFirst(texts[0], Joined(texts[1..]));
      assert texts == [texts[0]] + texts[1..];
    }
  }

  lemma {:induction false} CleanWritten(members: seq<Member>)
    requires forall m | m in members :: m.Valid()
    ensures Clean(Texts(members)) == Written(members) && |Texts(members)| == |members|
    ensures forall t | t in Texts(members) :: ',' !in t
  {
    hide TrimSpace, Blank, Bare;
    if members != [] {
      var m := members[0];
      assert m in members && forall x | x in members[1..] :: x in members;
      TrimmedOnce(m.before, m.item, m.after);
      BlankHasNoComma(m.before);
      BlankHasNoComma(m.after);
      CleanWritten(members[1..]);
      assert Texts(members)[1..] == Texts(members[1..]);
    }
  }

  lemma {:induction false} JoinedSplit(line: Str)
    ensures SplitCommas(line) != [] && Joined(SplitCommas(line)) == line
    decreases |line|
  {
    hide SplitCommas, IndexByte, Joined;
    var i := IndexByte(line, ',');
    if i < 0 {
      SplitNone(line);
      JoinedOne(line);
    } else {
      var first, rest := line[..i], line[i + 1..];
      assert line == first + [','] + rest;
      JoinedSplit(rest);
      SplitFirst(first, rest);
      JoinedCons(first, SplitCommas(rest));
    }
  }

  lemma JoinedOne(value: Str)
    ensures Joined([value]) == value
  {
  }

  lemma JoinedCons(first: Str, rest: seq<Str>)
    requires rest != []
    ensures Joined([first] + rest) == first + [','] + Joined(rest)
  {
    assert ([first] + rest)[1..] == rest;
  }

  lemma {:induction false} MembersOf(texts: seq<Str>) returns (members: seq<Member>)
    requires forall t | t in texts :: ',' !in t
    ensures Texts(members) == texts && forall m | m in members :: m.Valid()
  {
    hide TrimSpace, Blank, Bare;
    if texts == [] {
      return [];
    }
    assert texts[0] in texts && forall t | t in texts[1..] :: t in texts;
    var item := TrimSpace(texts[0]);
    TrimSpaceIs(texts[0], item);
    var before, after :| Blank(before) && Blank(after) && texts[0] == before + item + after;
    var rest := MembersOf(texts[1..]);
    members := [Member(before, item, after)] + rest;
    assert members[1..] == rest && texts == [texts[0]] + texts[1..];
  }

  /**
   The items of a field line are the members that are written in it, between commas and with any white
   space around them, in order and without the empty ones.
   */
  lemma ItemsExactly(line: Str, items: seq<Str>)
    ensures Items([line]) == items <==> exists members :: Writes(line, members) && items == Written(members)
  {
    hide TrimSpace, SplitCommas, Clean, Joined, Blank, Bare;
    ItemsOfOneLine(line);
    if Items([line]) == items {
      JoinedSplit(line);
      var members := MembersOf(SplitCommas(line));
      assert Writes(line, members);
      CleanWritten(members);
    }
    if members :| Writes(line, members) && items == Written(members) {
      CleanWritten(members);
      SplitJoined(Texts(members));
    }
  }

  method SplitParameterValues(values: seq<Str>) returns (result: seq<Str>)
    ensures result == Items(values)
  {
    hide TrimSpace, SplitCommas, Items, Clean;
    NothingYet();
    result := [];
    assert values[..0] == [];
    for i := 0 to |values|
      invariant result == Items(values[..i])
    {
      var parts := SplitCommas(values[i]);
      assert parts[..0] == [];
      for j := 0 to |parts|
        invariant result == Items(values[..i]) + Clean(parts[..j])
      {
        var item := TrimSpace(parts[j]);
        CleanOneMore(parts, j);
        if item != [] {
          result := result + [item];
        }
      }
      assert parts[..|parts|] == parts;
      ItemsOneMore(values, i);
    }
    assert values[..|values|] == values;
  }

  lemma NothingYet()
    ensures Clean([]) == [] && Items([]) == []
  {
  }

  lemma CleanOneMore(parts: seq<Str>, j: nat)
    requires j < |parts|
    ensures Clean(parts[..j + 1]) == Clean(parts[..j]) + if TrimSpace(parts[j]) == [] then [] else [TrimSpace(parts[j])]
  {
    hide TrimSpace;
    var last: seq<Str> := [parts[j]];
    CleanConcat(parts[..j], last);
    assert parts[..j + 1] == parts[..j] + last;
    assert last[1..] == [];
  }

  lemma ItemsOneMore(values: seq<Str>, i: nat)
    requires i < |values|
    ensures Items(values[..i + 1]) == Items(values[..i]) + Clean(SplitCommas(values[i]))
  {
    hide TrimSpace, SplitCommas, Clean, Items;
    ItemsConcat(values[..i], [values[i]]);
    assert values[..i + 1] == values[..i] + [values[i]];
    ItemsOfOneLine(values[i]);
  }

  // ---------- requests ----------

  /** A multi-valued map of header fields or query parameters; an absent name has no values. */
  type Values = map<Str, seq<Str>>

  function Lookup(values: Values, name: Str): seq<Str> {
    if name in values then values[name] else []
  }

  /** The bytes of a header field name (section 5.6.2 of RFC 9110). */
  predicate NameByte(c: Octet) {
    'a' <= c <= 'z' || 'A' <= c <= 'Z' || '0' <= c <= '9' || c in "!#$%&'*+-.^_`|~"
  }

  function Upper(c: Octet): (u: Octet)
    ensures NameByte(c) ==> NameByte(u)
  {
    if 'a' <= c <= 'z' then (c as int - 32) as char else c
  }

  function Lower(c: Octet): (l: Octet)
    ensures NameByte(c) ==> NameByte(l)
  {
    if 'A' <= c <= 'Z' then (c as int + 32) as char else c
  }

  function Cased(name: Str, i: nat): Octet
    requires i < |name|
  {
    if i == 0 || name[i - 1] == '-' then Upper(name[i]) else Lower(name[i])
  }

  /**
   http.CanonicalHeaderKey: a capital at the start and after each hyphen, small letters elsewhere; text
   that is no field name stays as it is.
   */
  function Canonical(name: Str): (key: Str)
    ensures |key| == |name|
  {
    if forall i | 0 <= i < |name| :: NameByte(name[i]) then
      seq(|name|, i requires 0 <= i < |name| => Cased(name, i))
    else name
  }

  lemma SameLetter(x: Octet, y: Octet)
    requires NameByte(x) && Lower(x) == Lower(y)
    ensures NameByte(y) && Upper(x) == Upper(y)
    ensures x == '-' <==> y == '-'
  {
  }

  lemma CanonicalAt(name: Str)
    requires forall i | 0 <= i < |name| :: NameByte(name[i])
    ensures forall i | 0 <= i < |name| :: Canonical(name)[i] == Cased(name, i) && NameByte(Canonical(name)[i])
  {
    hide NameByte;
  }

  /** The case of letters does not matter to a header field name. */
  lemma CanonicalIgnoresCase(a: Str, b: Str)
    requires forall i | 0 <= i < |a| :: NameByte(a[i])
    requires |a| == |b| && forall i | 0 <= i < |a| :: Lower(a[i]) == Lower(b[i])
    ensures Canonical(a) == Canonical(b)
  {
    hide NameByte, Upper, Lower, Canonical;
    forall i | 0 <= i < |a|
      ensures NameByte(b[i]) && Upper(a[i]) == Upper(b[i]) && (a[i] == '-' <==> b[i] == '-')
    {
      SameLetter(a[i], b[i]);
    }
    CanonicalAt(a);
    CanonicalAt(b);
    assert forall i | 0 <= i < |a| :: Cased(a, i) == Cased(b, i);
  }

  predicate Small(c: Octet) {
    'a' <= c <= 'z'
  }

  predicate Capital(c: Octet) {
    'A' <= c <= 'Z'
  }

  /** The same byte, or the same letter in the other case. */
  predicate SameButCase(c: Octet, d: Octet) {
    || c == d
    || (Small(c) && Capital(d) && c as int - 'a' as int == d as int - 'A' as int)
    || (Capital(c) && Small(d) && c as int - 'A' as int == d as int - 'a' as int)
  }

  /** Of a field name only the case of letters changes: capitals at the start and after hyphens, and nowhere else. */
  lemma CanonicalIs(name: Str)
    ensures
      var key := Canonical(name);
      if exists i | 0 <= i < |name| :: !NameByte(name[i]) then key == name
      else
        forall i | 0 <= i < |name| ::
          && SameButCase(key[i], name[i])
          && (if i == 0 || name[i - 1] == '-' then !Small(key[i]) else !Capital(key[i]))
  {
    hide NameByte, Cased, SameButCase, Small, Capital;
    if forall i | 0 <= i < |name| :: NameByte(name[i]) {
      CanonicalAt(name);
      forall i | 0 <= i < |name|
        ensures SameButCase(Canonical(name)[i], name[i])
        ensures if i == 0 || name[i - 1] == '-' then !Small(Canonical(name)[i]) else !Capital(Canonical(name)[i])
      {
        CasedIs(name, i);
      }
    }
  }

  lemma CasedIs(name: Str, i: nat)
    requires i < |name|
    ensures SameButCase(Cased(name, i), name[i])
    ensures if i == 0 || name[i - 1] == '-' then !Small(Cased(name, i)) else !Capital(Cased(name, i))
  {
  }

  lemma ParameterNames()
    ensures VERSION == "1.0" && VERSION_PARAM == "A2A-Version" && EXTENSIONS_PARAM == "A2A-Extensions"
    ensures VERSION_KEY == "A2a-Version" && EXTENSIONS_KEY == "A2a-Extensions"
  {
  }

  lemma ParameterKeys()
    ensures Canonical(VERSION_PARAM) == VERSION_KEY && Canonical(EXTENSIONS_PARAM) == EXTENSIONS_KEY
    ensures VERSION_KEY != EXTENSIONS_KEY
  {
    hide Canonical;
    VersionKey();
    ExtensionsKey();
    assert |VERSION_KEY| != |EXTENSIONS_KEY|;
  }

  lemma KeyIs(name: Str, key: Str)
    requires |key| == |name|
    requires forall i | 0 <= i < |name| :: Small(name[i]) || Capital(name[i]) || IsDigit(name[i]) || name[i] == '-'
    requires forall i | 0 <= i < |name| :: key[i] == Cased(name, i)
    ensures Canonical(name) == key
  {
    hide Cased;
    assert forall i | 0 <= i < |name| :: NameByte(name[i]);
    CanonicalAt(name);
  }

  lemma VersionKey()
    ensures Canonical(VERSION_PARAM) == VERSION_KEY
  {
    hide Canonical;
    KeyIs(VERSION_PARAM, VERSION_KEY);
  }

  lemma ExtensionsKey()
    ensures Canonical(EXTENSIONS_PARAM) == EXTENSIONS_KEY
  {
    hide Canonical;
    KeyIs(EXTENSIONS_PARAM, EXTENSIONS_KEY);
  }

  /** Header keys are canonical names. */
  function HeaderValues(header: Values, name: Str): seq<Str> {
    Lookup(header, Canonical(name))
  }

  /** The header once every value of `name` has been deleted and `values` added back. */
  function Replaced(header: Values, name: Str, values: seq<Str>): Values {
    if values == [] then header - {Canonical(name)} else header[Canonical(name) := values]
  }

  /**
   A request passes exactly when the versions written in its header and its query are 1.0, once or
   twice. Its extensions become the items of both, and every other field stays.
   */
  ghost predicate Checked(before: Values, query: Values, after: Values, r: Result<(), Error>) {
    var versions := Items(Lookup(before, VERSION_KEY)) + Items(Lookup(query, VERSION_PARAM));
    && r == (if versions == [VERSION] || versions == [VERSION, VERSION] then Ok(()) else Err(VersionNotSupported))
    && Lookup(after, EXTENSIONS_KEY)
       == Items(Lookup(before, EXTENSIONS_KEY)) + Items(Lookup(query, EXTENSIONS_PARAM))
    && forall key | key != VERSION_KEY && key != EXTENSIONS_KEY ::
         (key in after <==> key in before) && Lookup(after, key) == Lookup(before, key)
  }

  class Request {
    var header: Values
    const query: Values

    constructor (header: Values, query: Values)
      ensures this.header == header && this.query == query
    {
      this.header := header;
      this.query := query;
    }

    method Del(name: Str)
      modifies this
      ensures header == old(header) - {Canonical(name)}
    {
      header := header - {Canonical(name)};
    }

    method Add(name: Str, value: Str)
      modifies this
      ensures header == old(header)[Canonical(name) := HeaderValues(old(header), name) + [value]]
    {
      header := header[Canonical(name) := HeaderValues(header, name) + [value]];
    }

    method Replace(name: Str, values: seq<Str>)
      modifies this
      ensures header == Replaced(old(header), name, values)
    {
      Del(name);
      for i := 0 to |values|
        invariant header == Replaced(old(header), name, values[..i])
      {
        Add(name, values[i]);
        assert values[..i + 1] == values[..i] + [values[i]];
      }
      assert values[..|values|] == values;
    }

    method NormalizeVersionParameter()
      modifies this
      ensures header == Replaced(old(header), VERSION_PARAM,
                                 Collapsed(Items(HeaderValues(old(header), VERSION_PARAM))
                                     + Items(Lookup(query, VERSION_PARAM))))
    {
      var headers := SplitParameterValues(HeaderValues(header, VERSION_PARAM));
      var inQuery := SplitParameterValues(Lookup(query, VERSION_PARAM));
      var values := headers + inQuery;
      if |values| == 2 && values[0] == values[1] {
        values := values[..1];
      }
      Replace(VERSION_PARAM, values);
    }

    method NormalizeListParameter(name: Str)
      modifies this
      ensures header == Replaced(old(header), name, Items(HeaderValues(old(header), name)) + Items(Lookup(query, name)))
    {
      ItemsConcat(HeaderValues(header, name), Lookup(query, name));
      var values := SplitParameterValues(HeaderValues(header, name) + Lookup(query, name));
      Replace(name, values);
    }

    /** The middleware followed by the interceptor: which requests reach a handler. */
    method CheckProtocolVersion() returns (r: Result<(), Error>)
      modifies this
      ensures Checked(old(header), query, header, r)
    {
      hide Items, Collapsed, Replaced, Before, HeaderValues, Lookup, Checked, Canonical;
      NormalizeVersionParameter();
      NormalizeListParameter(EXTENSIONS_PARAM);
      Normalized(old(header), query, header);
      r := Before(header);
    }
  }

  // ---------- version check ----------

  /** A version sent twice, in the header and in the query, counts once. */
  function Collapsed(values: seq<Str>): seq<Str> {
    if |values| == 2 && values[0] == values[1] then values[..1] else values
  }

  /** The interceptor: one version parameter, and it is the supported one. */
  function Before(header: Values): Result<(), Error> {
    if Canonical(VERSION_PARAM) !in header then Err(VersionNotSupported)
    else
      var versions := HeaderValues(header, VERSION_PARAM);
      if |versions| != 1 || TrimSpace(versions[0]) != VERSION then Err(VersionNotSupported) else Ok(())
  }

  function VersionItems(header: Values, query: Values): seq<Str> {
    Items(HeaderValues(header, VERSION_PARAM)) + Items(Lookup(query, VERSION_PARAM))
  }

  /** A request passes exactly when its header and query items are the supported version, once or twice. */
  lemma VersionAcceptedExactly(header: Values, query: Values)
    ensures Before(Replaced(header, VERSION_PARAM, Collapsed(VersionItems(header, query)))).Ok?
       <==> VersionItems(header, query) in {[VERSION], [VERSION, VERSION]}
  {
    hide TrimSpace, SplitCommas, Clean, Items, LeadingSpace, TrailingSpace;
    var items := VersionItems(header, query);
    ItemsConcat(HeaderValues(header, VERSION_PARAM), Lookup(query, VERSION_PARAM));
    ItemsAreItems(HeaderValues(header, VERSION_PARAM) + Lookup(query, VERSION_PARAM));
    forall x | x in items
      ensures TrimSpace(x) == x
    {
      ItemStaysWhole(x);
    }
    CollapsedToOne(items, VERSION);
  }

  /** The header after both normalizations, and what the interceptor makes of it. */
  lemma Normalized(header: Values, query: Values, header': Values)
    requires
      var middle := Replaced(header, VERSION_PARAM, Collapsed(VersionItems(header, query)));
      var extensions := Items(HeaderValues(middle, EXTENSIONS_PARAM)) + Items(Lookup(query, EXTENSIONS_PARAM));
      header' == Replaced(middle, EXTENSIONS_PARAM, extensions)
    ensures Checked(header, query, header', Before(header'))
  {
    hide TrimSpace, Items, Collapsed, Canonical;
    ParameterKeys();
    VersionAcceptedExactly(header, query);
  }

  lemma CollapsedToOne(items: seq<Str>, v: Str)
    ensures |Collapsed(items)| == 1 && Collapsed(items)[0] == v <==> items in {[v], [v, v]}
  {
    if |items| == 1 {
      assert items == [items[0]];
    } else if |items| == 2 {
      assert items == [items[0], items[1]];
    }
  }
}
