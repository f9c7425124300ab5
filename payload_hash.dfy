/** `compute_payload_hash` and the JSON text the raw table stores: a row's entries sorted by
    key, written as compact JSON with Python's escaping (`ensure_ascii=False`), then digested.
    SHA-256 itself is a parameter: any function to 64 lowercase hex digits. */
module PayloadHash {
  import opened Text
  import opened Records

  // ---------------------------------------------------------------------------
  // sorted(raw_payload.items())

  /** Strictly ascending keys. */
  predicate SortedByKey(fs: seq<Field>) {
    forall i, j :: 0 <= i < j < |fs| ==> StrLess(fs[i].key, fs[j].key)
  }

  function InsertByKey(f: Field, fs: seq<Field>): (r: seq<Field>)
    ensures multiset(r) == multiset(fs) + multiset{f}
  {
    if fs == [] then [f]
    else if StrLess(f.key, fs[0].key) then [f] + fs
    else
      assert fs == [fs[0]] + fs[1..];
      [fs[0]] + InsertByKey(f, fs[1..])
  }

  /** `sorted(items)`: the same entries, ascending by key. */
  function SortByKey(fs: seq<Field>): (r: seq<Field>)
    ensures multiset(r) == multiset(fs)
  {
    if fs == [] then []
    else
      assert fs == [fs[0]] + fs[1..];
      InsertByKey(fs[0], SortByKey(fs[1..]))
  }

  /** An entry below every key of a sorted sequence can go in front of it. */
  lemma ConsSorted(f: Field, fs: seq<Field>)
    requires SortedByKey(fs)
    requires forall g :: g in fs ==> StrLess(f.key, g.key)
    ensures SortedByKey([f] + fs)
  {
    var r := [f] + fs;
    forall i, j | 0 <= i < j < |r| ensures StrLess(r[i].key, r[j].key) {
      assert r[j] == fs[j - 1];
      if i > 0 {
        assert r[i] == fs[i - 1];
      }
    }
  }

  /** Inserting an entry with a new key into a sorted sequence keeps it sorted. */
  lemma {:induction false} InsertSorted(f: Field, fs: seq<Field>)
    requires SortedByKey(fs)
    requires forall g :: g in fs ==> g.key != f.key
    ensures SortedByKey(InsertByKey(f, fs))
    decreases |fs|
  {
    if fs != [] {
      if StrLess(f.key, fs[0].key) {
        BelowHeadBelowAll(f, fs);
        ConsSorted(f, fs);
      } else {
        assert fs[0] in fs;
        StrLessTotal(f.key, fs[0].key);
        var tail := fs[1..];
        assert forall g :: g in tail ==> g in fs;
        InsertSorted(f, tail);
        HeadBelowInserted(f, fs);
        ConsSorted(fs[0], InsertByKey(f, tail));
      }
    }
  }

  /** A key below the head of a sorted sequence is below all of it. */
  lemma BelowHeadBelowAll(f: Field, fs: seq<Field>)
    requires SortedByKey(fs) && fs != [] && StrLess(f.key, fs[0].key)
    ensures forall g :: g in fs ==> StrLess(f.key, g.key)
  {
    forall g | g in fs ensures StrLess(f.key, g.key) {
      var j :| 0 <= j < |fs| && fs[j] == g;
      if j > 0 {
        StrLessTransitive(f.key, fs[0].key, fs[j].key);
      }
    }
  }

  /** The head of a sorted sequence stays below everything once a larger key joins its tail. */
  lemma HeadBelowInserted(f: Field, fs: seq<Field>)
    requires SortedByKey(fs) && fs != [] && StrLess(fs[0].key, f.key)
    ensures forall g :: g in InsertByKey(f, fs[1..]) ==> StrLess(fs[0].key, g.key)
  {
    var tail := fs[1..];
    var rest := InsertByKey(f, tail);
    forall g | g in rest ensures StrLess(fs[0].key, g.key) {
      assert g in multiset(rest);
      if g in tail {
        var j :| 0 <= j < |tail| && tail[j] == g;
        assert fs[j + 1] == g;
      }
    }
  }

  /** Sorting entries with distinct keys gives strictly ascending keys. */
  lemma {:induction false} SortSorted(fs: seq<Field>)
    requires DistinctKeys(fs)
    ensures SortedByKey(SortByKey(fs))
    decreases |fs|
  {
    if fs != [] {
      SortSorted(fs[1..]);
      var rest := SortByKey(fs[1..]);
      forall g | g in rest ensures g.key != fs[0].key {
        assert g in multiset(fs[1..]);
        var j :| 0 <= j < |fs| - 1 && fs[1..][j] == g;
        assert fs[j + 1] == g;
      }
      InsertSorted(fs[0], rest);
    }
  }

  /** Sequences with the same members are both empty or both not. */
  lemma SameMembersBothEmpty(a: seq<Field>, b: seq<Field>)
    requires forall f :: f in a <==> f in b
    ensures a == [] <==> b == []
  {
    if a != [] {
      assert a[0] in b;
    }
    if b != [] {
      assert b[0] in a;
    }
  }

  /** Two strictly sorted sequences with the same members are the same sequence. */
  lemma {:induction false} SortedUnique(a: seq<Field>, b: seq<Field>)
    requires SortedByKey(a) && SortedByKey(b)
    requires forall f :: f in a <==> f in b
    ensures a == b
    decreases |a|
  {
    SameMembersBothEmpty(a, b);
    if a != [] {
      if a[0] != b[0] {
        assert a[0] in b && b[0] in a;
        var i :| 0 <= i < |a| && a[i] == b[0];
        var j :| 0 <= j < |b| && b[j] == a[0];
        assert StrLess(a[0].key, b[0].key);
        assert StrLess(b[0].key, a[0].key);
        StrLessAsymmetric(a[0].key, b[0].key);
        assert false;
      }
      forall f ensures f in a[1..] <==> f in b[1..] {
        if f in a[1..] {
          var i :| 0 <= i < |a| - 1 && a[1..][i] == f;
          assert StrLess(a[0].key, a[i + 1].key);
          StrLessIrreflexive(a[0].key);
          assert f in b && f != b[0];
          var j :| 0 <= j < |b| && b[j] == f;
          assert b[1..][j - 1] == f;
        }
        if f in b[1..] {
          var j :| 0 <= j < |b| - 1 && b[1..][j] == f;
          assert StrLess(b[0].key, b[j + 1].key);
          StrLessIrreflexive(b[0].key);
          assert f in a && f != a[0];
          var i :| 0 <= i < |a| && a[i] == f;
          assert a[1..][i - 1] == f;
        }
      }
      SortedUnique(a[1..], b[1..]);
      assert a == [a[0]] + a[1..] && b == [b[0]] + b[1..];
    }
  }

  // ---------------------------------------------------------------------------
  // json.dumps(..., ensure_ascii=False)

  function HexDigit(n: nat): (c: char)
    requires n < 16
  {
    "0123456789abcdef"[n]
  }

  /** How `json.dumps` writes one character of a string when `ensure_ascii` is off. */
  function EscapeChar(c: char): (s: string)
    ensures |s| >= 1 && s[0] != '"'
  {
    if c == '"' then "\\\""
    else if c == '\\' then "\\\\"
    else if c == '\n' then "\\n"
    else if c == '\r' then "\\r"
    else if c == '\t' then "\\t"
    else if c == 8 as char then "\\b"
    else if c == 12 as char then "\\f"
    else if (c as int) < 0x20 then "\\u00" + [HexDigit(c as int / 16), HexDigit(c as int % 16)]
    else [c]
  }

  function Escape(s: string): string {
    if s == [] then [] else EscapeChar(s[0]) + Escape(s[1..])
  }

  /** A JSON string literal. */
  function Quote(s: string): string {
    "\"" + Escape(s) + "\""
  }

  function Member(f: Field, keySep: string): string {
    Quote(f.key) + keySep + Quote(f.value)
  }

  function Members(fs: seq<Field>, itemSep: string, keySep: string): string {
    if fs == [] then []
    else if |fs| == 1 then Member(fs[0], keySep)
    else Member(fs[0], keySep) + itemSep + Members(fs[1..], itemSep, keySep)
  }

  /** `json.dumps(d, ensure_ascii=False, separators=(itemSep, keySep))` for a dict of strings. */
  function JsonObject(fs: seq<Field>, itemSep: string, keySep: string): string {
    "{" + Members(fs, itemSep, keySep) + "}"
  }

  /** The canonical form that is hashed: sorted keys, separators `","` and `":"`. */
  function CanonicalJson(row: Row): string {
    JsonObject(SortByKey(row), ",", ":")
  }

  /** The stored `raw_payload`: insertion order and Python's default separators. */
  function RawPayloadJson(row: Row): string {
    JsonObject(row, ", ", ": ")
  }

  // ---------------------------------------------------------------------------
  // The JSON text determines the entries it was written from

  /** The first one or two characters of an escape tell how long it is. */
  lemma EscapeCharShape(c: char)
    ensures EscapeChar(c)[0] != '\\' ==> EscapeChar(c) == [c]
    ensures EscapeChar(c)[0] == '\\' ==> |EscapeChar(c)| >= 2
    ensures EscapeChar(c)[0] == '\\' && EscapeChar(c)[1] == 'u' ==> |EscapeChar(c)| == 6
    ensures EscapeChar(c)[0] == '\\' && EscapeChar(c)[1] != 'u' ==> |EscapeChar(c)| == 2
  {
  }

  lemma HexDigitInjective(a: nat, b: nat)
    requires a < 16 && b < 16 && HexDigit(a) == HexDigit(b)
    ensures a == b
  {
  }

  lemma EscapeCharInjective(c: char, d: char)
    requires EscapeChar(c) == EscapeChar(d)
    ensures c == d
  {
    var e := EscapeChar(c);
    if e[0] == '\\' && e[1] == 'u' {
      var hc := [HexDigit(c as int / 16), HexDigit(c as int % 16)];
      var hd := [HexDigit(d as int / 16), HexDigit(d as int % 16)];
      assert e == "\\u00" + hc && e == "\\u00" + hd;
      assert e[4] == hc[0] && e[4] == hd[0];
      assert e[5] == hc[1] && e[5] == hd[1];
      HexDigitInjective(c as int / 16, d as int / 16);
      HexDigitInjective(c as int % 16, d as int % 16);
    }
  }

  /** Escapes form a prefix code. */
  lemma EscapeCharPrefix(c: char, d: char, x: string, y: string)
    requires EscapeChar(c) + x == EscapeChar(d) + y
    ensures c == d && x == y
  {
    var ec, ed := EscapeChar(c), EscapeChar(d);
    EscapeCharShape(c);
    EscapeCharShape(d);
    assert (ec + x)[0] == ec[0];
    assert (ed + y)[0] == ed[0];
    if ec[0] == '\\' {
      assert (ec + x)[1] == ec[1];
      assert (ed + y)[1] == ed[1];
    }
    assert |ec| == |ed|;
    assert (ec + x)[..|ec|] == ec;
    assert (ed + y)[..|ed|] == ed;
    EscapeCharInjective(c, d);
    assert (ec + x)[|ec|..] == x;
    assert (ed + y)[|ed|..] == y;
  }

  lemma Regroup(a: string, b: string, c: string)
    ensures (a + b) + c == a + (b + c)
  {
  }

  lemma EscapeCons(s: string, x: string)
    requires s != []
    ensures Escape(s) + x == EscapeChar(s[0]) + (Escape(s[1..]) + x)
  {
    Regroup(EscapeChar(s[0]), Escape(s[1..]), x);
  }

  /** An escaped non-empty string never starts with a quote. */
  lemma EscapeHead(s: string, x: string)
    ensures s != [] ==> (Escape(s) + x)[0] == EscapeChar(s[0])[0] && EscapeChar(s[0])[0] != '"'
  {
    if s != [] {
      EscapeCons(s, x);
    }
  }

  /** The closing quote of a string literal is the first unescaped quote. */
  lemma {:induction false} EscapeThenQuote(s: string, t: string, x: string, y: string)
    requires |x| > 0 && x[0] == '"' && |y| > 0 && y[0] == '"'
    requires Escape(s) + x == Escape(t) + y
    ensures s == t && x == y
    decreases |s|
  {
    EscapeHead(s, x);
    EscapeHead(t, y);
    if s == [] {
      assert Escape(s) + x == x;
    }
    if t == [] {
      assert Escape(t) + y == y;
    }
    if s != [] && t != [] {
      EscapeCons(s, x);
      EscapeCons(t, y);
      EscapeCharPrefix(s[0], t[0], Escape(s[1..]) + x, Escape(t[1..]) + y);
      EscapeThenQuote(s[1..], t[1..], x, y);
      assert s == [s[0]] + s[1..] && t == [t[0]] + t[1..];
    }
  }

  /** A string literal followed by more text, regrouped around its opening quote. */
  lemma QuoteSplit(s: string, x: string)
    ensures Quote(s) + x == "\"" + (Escape(s) + ("\"" + x))
  {
    var q, e := "\"", Escape(s);
    Regroup(q + e, q, x);
    Regroup(q, e, q + x);
  }

  lemma DropQuote(z: string)
    ensures ("\"" + z)[1..] == z && |"\"" + z| > 0 && ("\"" + z)[0] == '"'
  {
  }

  lemma QuotePrefix(s: string, t: string, x: string, y: string)
    requires Quote(s) + x == Quote(t) + y
    ensures s == t && x == y
  {
    var xs, ys := "\"" + x, "\"" + y;
    QuoteSplit(s, x);
    QuoteSplit(t, y);
    DropQuote(Escape(s) + xs);
    DropQuote(Escape(t) + ys);
    DropQuote(x);
    DropQuote(y);
    EscapeThenQuote(s, t, xs, ys);
  }

  /** A member followed by more text, regrouped around the key literal. */
  lemma MemberRegroup(f: Field, keySep: string, x: string)
    ensures Member(f, keySep) + x == Quote(f.key) + (keySep + (Quote(f.value) + x))
  {
    var q, v := Quote(f.key), Quote(f.value);
    calc {
      Member(f, keySep) + x;
      (q + keySep + v) + x;
      { assert (q + keySep + v) + x == q + (keySep + v + x); }
      q + (keySep + v + x);
      { assert keySep + v + x == keySep + (v + x); }
      q + (keySep + (v + x));
    }
  }

  lemma QuoteHead(s: string, x: string)
    ensures |Quote(s) + x| > 0 && (Quote(s) + x)[0] == '"'
  {
  }

  lemma MemberPrefix(f: Field, g: Field, keySep: string, x: string, y: string)
    requires Member(f, keySep) + x == Member(g, keySep) + y
    ensures f == g && x == y
  {
    var xs, ys := Quote(f.value) + x, Quote(g.value) + y;
    MemberRegroup(f, keySep, x);
    MemberRegroup(g, keySep, y);
    QuotePrefix(f.key, g.key, keySep + xs, keySep + ys);
    assert xs == (keySep + xs)[|keySep|..];
    assert ys == (keySep + ys)[|keySep|..];
    QuotePrefix(f.value, g.value, x, y);
  }

  /** What follows the first member of a non-empty member list and its closing brace. */
  function AfterFirst(fs: seq<Field>, itemSep: string, keySep: string): string
    requires fs != []
  {
    if |fs| == 1 then "}" else itemSep + (Members(fs[1..], itemSep, keySep) + "}")
  }

  lemma MembersUnfold(fs: seq<Field>, itemSep: string, keySep: string)
    requires |itemSep| > 0
    ensures fs != [] ==>
      Members(fs, itemSep, keySep) + "}" == Member(fs[0], keySep) + AfterFirst(fs, itemSep, keySep)
      && AfterFirst(fs, itemSep, keySep)[0] == (if |fs| == 1 then '}' else itemSep[0])
    ensures fs != [] ==> (Members(fs, itemSep, keySep) + "}")[0] == '"'
  {
    if fs != [] {
      var m, r := Member(fs[0], keySep), AfterFirst(fs, itemSep, keySep);
      if |fs| > 1 {
        var ms := Members(fs[1..], itemSep, keySep);
        assert Members(fs, itemSep, keySep) == m + itemSep + ms;
        Regroup(m + itemSep, ms, "}");
        Regroup(m, itemSep, ms + "}");
      }
      MemberRegroup(fs[0], keySep, r);
      QuoteHead(fs[0].key, keySep + (Quote(fs[0].value) + r));
    }
  }

  /** The members followed by the closing brace determine the members. */
  lemma {:induction false} MembersThenBrace(a: seq<Field>, b: seq<Field>, itemSep: string, keySep: string)
    requires |itemSep| > 0 && itemSep[0] != '}'
    requires Members(a, itemSep, keySep) + "}" == Members(b, itemSep, keySep) + "}"
    ensures a == b
    decreases |a|
  {
    if a == [] || b == [] {
      NoMembersOnlyBrace(a, b, itemSep, keySep);
    } else {
      FirstMemberSplit(a, b, itemSep, keySep);
      if |a| > 1 {
        MembersThenBrace(a[1..], b[1..], itemSep, keySep);
      }
      SameHeadSameTail(a, b);
    }
  }

  lemma SameHeadSameTail<T>(a: seq<T>, b: seq<T>)
    requires a != [] && b != [] && a[0] == b[0] && a[1..] == b[1..]
    ensures a == b
  {
    assert a == [a[0]] + a[1..] && b == [b[0]] + b[1..];
  }

  /** Only the empty sequence of entries writes no member before the brace. */
  lemma NoMembersOnlyBrace(a: seq<Field>, b: seq<Field>, itemSep: string, keySep: string)
    requires |itemSep| > 0 && (a == [] || b == [])
    requires Members(a, itemSep, keySep) + "}" == Members(b, itemSep, keySep) + "}"
    ensures a == [] && b == []
  {
    MembersUnfold(a, itemSep, keySep);
    MembersUnfold(b, itemSep, keySep);
  }

  /** Equal texts start with the same entry, and either both end there or both go on with
      equal texts. */
  lemma FirstMemberSplit(a: seq<Field>, b: seq<Field>, itemSep: string, keySep: string)
    requires |itemSep| > 0 && itemSep[0] != '}' && a != [] && b != []
    requires Members(a, itemSep, keySep) + "}" == Members(b, itemSep, keySep) + "}"
    ensures a[0] == b[0] && (|a| == 1 <==> |b| == 1)
    ensures |a| > 1 ==> Members(a[1..], itemSep, keySep) + "}" == Members(b[1..], itemSep, keySep) + "}"
  {
    MembersUnfold(a, itemSep, keySep);
    MembersUnfold(b, itemSep, keySep);
    var ra, rb := AfterFirst(a, itemSep, keySep), AfterFirst(b, itemSep, keySep);
    MemberPrefix(a[0], b[0], keySep, ra, rb);
    if |a| > 1 && |b| > 1 {
      AfterFirstTail(a, itemSep, keySep);
      AfterFirstTail(b, itemSep, keySep);
    }
  }

  /** Past the separator, what follows the first member is the rest of the members. */
  lemma AfterFirstTail(fs: seq<Field>, itemSep: string, keySep: string)
    requires |fs| > 1
    ensures Members(fs[1..], itemSep, keySep) + "}" == AfterFirst(fs, itemSep, keySep)[|itemSep|..]
  {
  }

  /** Distinct entry sequences are written as distinct JSON texts. */
  lemma JsonObjectInjective(a: seq<Field>, b: seq<Field>, itemSep: string, keySep: string)
    requires |itemSep| > 0 && itemSep[0] != '}'
    requires JsonObject(a, itemSep, keySep) == JsonObject(b, itemSep, keySep)
    ensures a == b
  {
    var ma, mb := Members(a, itemSep, keySep) + "}", Members(b, itemSep, keySep) + "}";
    assert JsonObject(a, itemSep, keySep) == "{" + ma;
    assert JsonObject(b, itemSep, keySep) == "{" + mb;
    assert ma == ("{" + ma)[1..] && mb == ("{" + mb)[1..];
    MembersThenBrace(a, b, itemSep, keySep);
  }

  // ---------------------------------------------------------------------------
  // The canonical form depends on the mapping and on nothing else

  lemma SameMembersSameMap(a: Row, b: Row)
    requires forall f :: f in a <==> f in b
    ensures AsMap(a) == AsMap(b)
  {
    AsMapKeys(a);
    AsMapKeys(b);
    assert KeySet(a) == KeySet(b);
    forall k | k in AsMap(a) ensures AsMap(b)[k] == AsMap(a)[k] {
      var f :| f in a && f.key == k;
      InRowIffMapped(a, f);
      InRowIffMapped(b, f);
    }
  }

  /** Rows equal as mappings, whatever their insertion order, have one canonical form. */
  lemma CanonicalIgnoresOrder(a: Row, b: Row)
    requires AsMap(a) == AsMap(b)
    ensures CanonicalJson(a) == CanonicalJson(b)
  {
    var sa, sb := SortByKey(a), SortByKey(b);
    SortSorted(a);
    SortSorted(b);
    forall f ensures f in sa <==> f in sb {
      assert f in sa <==> f in multiset(sa);
      assert f in sb <==> f in multiset(sb);
      InRowIffMapped(a, f);
      InRowIffMapped(b, f);
    }
    SortedUnique(sa, sb);
  }

  /** Rows that differ as mappings have different canonical forms. */
  lemma CanonicalSeparatesMaps(a: Row, b: Row)
    requires AsMap(a) != AsMap(b)
    ensures CanonicalJson(a) != CanonicalJson(b)
  {
    if CanonicalJson(a) == CanonicalJson(b) {
      JsonObjectInjective(SortByKey(a), SortByKey(b), ",", ":");
      forall f ensures f in a <==> f in b {
        assert f in a <==> f in multiset(SortByKey(a));
        assert f in b <==> f in multiset(SortByKey(b));
      }
      SameMembersSameMap(a, b);
    }
  }

  // ---------------------------------------------------------------------------
  // The digest

  predicate IsLowerHex(c: char) {
    '0' <= c <= '9' || 'a' <= c <= 'f'
  }

  /** `hexdigest()` of SHA-256. */
  type Hex64 = s: string | |s| == 64 && forall i :: 0 <= i < |s| ==> IsLowerHex(s[i])
    witness seq(64, _ => '0')

  /** `compute_payload_hash(raw_payload)`, for a digest function `sha256` over the UTF-8 text. */
  function ComputePayloadHash(sha256: string -> Hex64, row: Row): (h: Hex64) {
    sha256(CanonicalJson(row))
  }

  /** The empty mapping is hashed as the text `{}`. */
  lemma EmptyPayloadCanonical()
    ensures CanonicalJson([]) == "{}"
  {
  }

  /** Equal mappings hash equally, whatever their insertion order. */
  lemma HashIgnoresOrder(sha256: string -> Hex64, a: Row, b: Row)
    requires AsMap(a) == AsMap(b)
    ensures ComputePayloadHash(sha256, a) == ComputePayloadHash(sha256, b)
  {
    CanonicalIgnoresOrder(a, b);
  }

  /** Different mappings hash differently unless the digest collides on their canonical texts. */
  lemma HashSeparatesMaps(sha256: string -> Hex64, a: Row, b: Row)
    requires AsMap(a) != AsMap(b)
    requires sha256(CanonicalJson(a)) == sha256(CanonicalJson(b)) ==> CanonicalJson(a) == CanonicalJson(b)
    ensures ComputePayloadHash(sha256, a) != ComputePayloadHash(sha256, b)
  {
    CanonicalSeparatesMaps(a, b);
  }
}
