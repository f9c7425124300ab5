/** The Seoul real-time arrival provider: flattening an XML `<row>` into a string dictionary,
    reading the result code and total count of a response, building the request URL, and
    fetching a fixed list of pages. The XML text is taken already parsed into an element tree;
    the HTTP transport is an oracle from URL to outcome. */
module SeoulSubway {
  import opened Wrappers
  import opened Text
  import opened Records

  /** An `ElementTree` element: its tag, its text (absent for `None`) and its children.
      Tails are not part of the model. */
  datatype Element = Element(tag: string, text: Option<string>, children: seq<Element>)

  // ---------------------------------------------------------------------------
  // _parse_row_element: collision suffixes

  /** The key `f"{key}__{n}"` tried for the n-th collision of `key`. */
  function Suffixed(key: string, n: nat): string {
    key + "__" + NatToString(n)
  }

  /** The number `n` when `k` is `key + "__" + digits`, and 0 otherwise. */
  function SuffixValue(k: string, key: string): nat {
    var p := key + "__";
    if |k| > |p| && k[..|p|] == p && DigitsValue(k[|p|..]) >= 0 then DigitsValue(k[|p|..]) else 0
  }

  /** The largest suffix number of `key` among the keys of `fs`. */
  function MaxSuffix(fs: seq<Field>, key: string): nat
    decreases |fs|
  {
    if fs == [] then 0
    else
      var m := MaxSuffix(fs[..|fs| - 1], key);
      var v := SuffixValue(fs[|fs| - 1].key, key);
      if m < v then v else m
  }

  lemma {:induction false} MaxSuffixBounds(fs: seq<Field>, key: string, i: nat)
    requires i < |fs|
    ensures SuffixValue(fs[i].key, key) <= MaxSuffix(fs, key)
    decreases |fs|
  {
    if i < |fs| - 1 {
      MaxSuffixBounds(fs[..|fs| - 1], key, i);
    }
  }

  /** A suffix number in use is at most `MaxSuffix`, so the search for a free one ends. */
  lemma SuffixedBound(row: seq<Field>, key: string, n: nat)
    requires HasKey(row, Suffixed(key, n))
    ensures n <= MaxSuffix(row, key)
  {
    var k := Suffixed(key, n);
    var i :| 0 <= i < |Keys(row)| && Keys(row)[i] == k;
    var p := key + "__";
    assert k[..|p|] == p && k[|p|..] == NatToString(n);
    NatToStringValue(n);
    MaxSuffixBounds(row, key, i);
  }

  /** The `while new_key in row_dict: counter += 1` search, started at `c`: the first free
      suffix number from `c` on. */
  function FirstFreeCounter(row: seq<Field>, key: string, c: nat): (n: nat)
    ensures n >= c && !HasKey(row, Suffixed(key, n))
    ensures forall m :: c <= m < n ==> HasKey(row, Suffixed(key, m))
    decreases MaxSuffix(row, key) + 1 - c
  {
    if HasKey(row, Suffixed(key, c)) then
      SuffixedBound(row, key, c);
      FirstFreeCounter(row, key, c + 1)
    else c
  }

  /** The key a leaf is stored under: its own key when free, else `key__N` for the smallest
      `N >= 1` not yet used. */
  function FreeKey(row: Row, key: string): (k: string)
    ensures !HasKey(row, k)
    ensures !HasKey(row, key) ==> k == key
    ensures HasKey(row, key) ==>
      exists n: nat :: n >= 1 && k == Suffixed(key, n) && forall m :: 1 <= m < n ==> HasKey(row, Suffixed(key, m))
  {
    if !HasKey(row, key) then key else Suffixed(key, FirstFreeCounter(row, key, 1))
  }

  // ---------------------------------------------------------------------------
  // _parse_row_element: the flattening it performs

  /** `child.text.strip() if child.text else ""`. */
  function LeafText(e: Element): string {
    if e.text.Some? then Strip(e.text.value) else ""
  }

  /** The row after `_parse_row_element(elem, row, prefix)` has visited children `i..`. */
  function FlattenFrom(elem: Element, i: nat, row: Row, prefix: string): Row
    requires i <= |elem.children|
    decreases elem, |elem.children| - i
  {
    if i == |elem.children| then row
    else FlattenFrom(elem, i + 1, FlattenChild(elem.children[i], row, prefix), prefix)
  }

  lemma FlattenFromStep(elem: Element, i: nat, row: Row, prefix: string)
    requires i < |elem.children|
    ensures FlattenFrom(elem, i, row, prefix)
      == FlattenFrom(elem, i + 1, FlattenChild(elem.children[i], row, prefix), prefix)
  {
  }

  /** One child: an element with children is flattened under `key + "_"`; a leaf adds one
      entry under a free key. */
  function FlattenChild(child: Element, row: Row, prefix: string): Row
    decreases child, |child.children| + 1
  {
    var key := prefix + child.tag;
    if |child.children| > 0 then FlattenFrom(child, 0, row, key + "_")
    else Put(row, FreeKey(row, key), LeafText(child))
  }

  /** The Python `dict` that `_parse_row_element` fills in place. */
  class RowDict {
    var entries: Row

    constructor ()
      ensures entries == []
    {
      entries := [];
    }
  }

  /** The collision loop: a taken key is replaced by `key__1`, `key__2`, ... up to the first
      one the row does not hold. */
  method AvoidCollision(row: Row, key: string) returns (k: string)
    ensures k == FreeKey(row, key)
  {
    k := key;
    if HasKey(row, key) {
      var counter := 1;
      var newKey := Suffixed(key, counter);
      while HasKey(row, newKey)
        invariant counter >= 1 && newKey == Suffixed(key, counter)
        invariant FirstFreeCounter(row, key, 1) == FirstFreeCounter(row, key, counter)
        decreases MaxSuffix(row, key) + 1 - counter
      {
        SuffixedBound(row, key, counter);
        counter := counter + 1;
        newKey := Suffixed(key, counter);
      }
      k := newKey;
    }
  }

  /** `_parse_row_element(elem, row_dict, prefix)`. */
  method ParseRowElement(elem: Element, rowDict: RowDict, prefix: string)
    modifies rowDict
    ensures rowDict.entries == FlattenFrom(elem, 0, old(rowDict.entries), prefix)
    decreases elem
  {
    ghost var start := rowDict.entries;
    var i := 0;
    while i < |elem.children|
      invariant 0 <= i <= |elem.children|
      invariant FlattenFrom(elem, 0, start, prefix) == FlattenFrom(elem, i, rowDict.entries, prefix)
    {
      var child := elem.children[i];
      ghost var before := rowDict.entries;
      var key := prefix + child.tag;
      if |child.children| > 0 {
        ParseRowElement(child, rowDict, key + "_");
      } else {
        var text := if child.text.Some? then Strip(child.text.value) else "";
        var current := rowDict.entries;
        key := AvoidCollision(current, key);
        assert FlattenChild(child, before, prefix) == Put(current, key, text);
        rowDict.entries := Put(current, key, text);
      }
      assert rowDict.entries == FlattenChild(child, before, prefix);
      FlattenFromStep(elem, i, before, prefix);
      i := i + 1;
    }
  }

  // ---------------------------------------------------------------------------
  // The flattening is lossless

  /** A leaf of the tree: the `_`-joined path of tags leading to it and its stripped text. */
  datatype Leaf = Leaf(path: string, value: string)

  /** The leaves under children `i..` of `elem`, in document order. */
  function Leaves(elem: Element, i: nat, prefix: string): seq<Leaf>
    requires i <= |elem.children|
    decreases elem, |elem.children| - i
  {
    if i == |elem.children| then []
    else LeavesOf(elem.children[i], prefix) + Leaves(elem, i + 1, prefix)
  }

  function LeavesOf(child: Element, prefix: string): seq<Leaf>
    decreases child, |child.children| + 1
  {
    if |child.children| > 0 then Leaves(child, 0, prefix + child.tag + "_")
    else [Leaf(prefix + child.tag, LeafText(child))]
  }

  /** An entry holds a leaf: its value, under the leaf's path or a `__N` variant of it. */
  ghost predicate Stores(f: Field, l: Leaf) {
    f.value == l.value && (f.key == l.path || exists n: nat :: n >= 1 && f.key == Suffixed(l.path, n))
  }

  /** `r` is `row` followed by one entry per leaf of `ls`, in order. */
  ghost predicate Extends(row: seq<Field>, r: seq<Field>, ls: seq<Leaf>) {
    |r| == |row| + |ls| && r[..|row|] == row
    && forall j :: 0 <= j < |ls| ==> Stores(r[|row| + j], ls[j])
  }

  lemma ExtendsTrans(a: seq<Field>, b: seq<Field>, c: seq<Field>, l1: seq<Leaf>, l2: seq<Leaf>)
    requires Extends(a, b, l1) && Extends(b, c, l2)
    ensures Extends(a, c, l1 + l2)
  {
    assert c[..|a|] == c[..|b|][..|a|];
    forall j | 0 <= j < |l1 + l2| ensures Stores(c[|a| + j], (l1 + l2)[j]) {
      if j < |l1| {
        assert c[|a| + j] == c[..|b|][|a| + j];
      } else {
        assert c[|a| + j] == c[|b| + (j - |l1|)];
      }
    }
  }

  /** Every leaf adds exactly one entry, the entries already present stay as they were, and
      each new entry carries its leaf's value under its path (or a `__N` variant). */
  lemma {:induction false} FlattenFromLeaves(elem: Element, i: nat, row: Row, prefix: string)
    requires i <= |elem.children|
    ensures Extends(row, FlattenFrom(elem, i, row, prefix), Leaves(elem, i, prefix))
    decreases elem, |elem.children| - i
  {
    if i < |elem.children| {
      var mid := FlattenChild(elem.children[i], row, prefix);
      FlattenChildLeaves(elem.children[i], row, prefix);
      FlattenFromLeaves(elem, i + 1, mid, prefix);
      ExtendsTrans(row, mid, FlattenFrom(elem, i + 1, mid, prefix),
        LeavesOf(elem.children[i], prefix), Leaves(elem, i + 1, prefix));
    }
  }

  lemma {:induction false} FlattenChildLeaves(child: Element, row: Row, prefix: string)
    ensures Extends(row, FlattenChild(child, row, prefix), LeavesOf(child, prefix))
    decreases child, |child.children| + 1
  {
    var key := prefix + child.tag;
    if |child.children| > 0 {
      FlattenFromLeaves(child, 0, row, key + "_");
    } else {
      var k := FreeKey(row, key);
      var r := Put(row, k, LeafText(child));
      assert r[..|row|] == row;
      assert r[|row|] == Field(k, LeafText(child));
      if HasKey(row, key) {
        var n: nat :| n >= 1 && k == Suffixed(key, n) && forall m :: 1 <= m < n ==> HasKey(row, Suffixed(key, m));
        assert Stores(r[|row|], Leaf(key, LeafText(child)));
      }
    }
  }

  /** A `<row>` flattened from an empty dictionary keeps every leaf. */
  lemma RowKeepsEveryLeaf(elem: Element)
    ensures |FlattenFrom(elem, 0, [], "")| == |Leaves(elem, 0, "")|
    ensures forall j :: 0 <= j < |Leaves(elem, 0, "")| ==>
      Stores(FlattenFrom(elem, 0, [], "")[j], Leaves(elem, 0, "")[j])
  {
    FlattenFromLeaves(elem, 0, [], "");
  }

  /** A child without children is one entry under a free key. */
  lemma FlattenLeaf(e: Element, row: Row, prefix: string)
    requires |e.children| == 0
    ensures FlattenChild(e, row, prefix) == Put(row, FreeKey(row, prefix + e.tag), LeafText(e))
  {
  }

  /** `key__1` and `key__2`, written out. */
  lemma FirstSuffixes(key: string)
    ensures Suffixed(key, 1) == key + "__1" && Suffixed(key, 2) == key + "__2"
  {
    assert NatToString(1) == "1" && NatToString(2) == "2";
    assert key + "__" + "1" == key + "__1" && key + "__" + "2" == key + "__2";
  }

  /** A leaf whose key is free is stored under the key itself, with its text stripped. */
  lemma FreeLeafKeepsItsTag(row: Row, prefix: string, tag: string, text: Option<string>)
    requires !HasKey(row, prefix + tag)
    ensures FlattenChild(Element(tag, text, []), row, prefix)
      == row + [Field(prefix + tag, if text.Some? then Strip(text.value) else "")]
  {
    FlattenLeaf(Element(tag, text, []), row, prefix);
  }

  /** When `key` is taken and `key__1` is free, a leaf goes under `key__1`. */
  lemma FirstSuffixFree(row: Row, key: string)
    requires HasKey(row, key) && !HasKey(row, Suffixed(key, 1))
    ensures FreeKey(row, key) == Suffixed(key, 1)
  {
  }

  /** A leaf whose key is taken, while `key__1` is free, is stored under `key__1`. */
  lemma FirstCollisionGetsOne(row: Row, prefix: string, tag: string, text: Option<string>)
    requires HasKey(row, prefix + tag) && !HasKey(row, prefix + tag + "__1")
    ensures FlattenChild(Element(tag, text, []), row, prefix)
      == row + [Field(prefix + tag + "__1", if text.Some? then Strip(text.value) else "")]
  {
    FirstSuffixes(prefix + tag);
    FirstSuffixFree(row, prefix + tag);
    FlattenLeaf(Element(tag, text, []), row, prefix);
  }

  /** When `key` and `key__1` are taken and `key__2` is free, a leaf goes under `key__2`. */
  lemma SecondSuffixFree(row: Row, key: string)
    requires HasKey(row, key) && HasKey(row, Suffixed(key, 1)) && !HasKey(row, Suffixed(key, 2))
    ensures FreeKey(row, key) == Suffixed(key, 2)
  {
    assert FirstFreeCounter(row, key, 2) == 2;
    assert FirstFreeCounter(row, key, 1) == 2;
  }

  /** A leaf whose key and `key__1` are taken, while `key__2` is free, is stored under
      `key__2`. */
  lemma SecondCollisionGetsTwo(row: Row, prefix: string, tag: string, text: Option<string>)
    requires HasKey(row, prefix + tag) && HasKey(row, prefix + tag + "__1") && !HasKey(row, prefix + tag + "__2")
    ensures FlattenChild(Element(tag, text, []), row, prefix)
      == row + [Field(prefix + tag + "__2", if text.Some? then Strip(text.value) else "")]
  {
    FirstSuffixes(prefix + tag);
    SecondSuffixFree(row, prefix + tag);
    FlattenLeaf(Element(tag, text, []), row, prefix);
  }

  /** Three leaves with one tag are kept apart as `key`, `key__1` and `key__2`, in document
      order, each with its own stripped text. */
  lemma CollidingLeavesGetSuffixes(e: Element, row: Row, prefix: string, tag: string)
    requires |e.children| == 3
    requires e.children[0] == Element(tag, e.children[0].text, [])
    requires e.children[1] == Element(tag, e.children[1].text, [])
    requires e.children[2] == Element(tag, e.children[2].text, [])
    requires !HasKey(row, prefix + tag) && !HasKey(row, prefix + tag + "__1") && !HasKey(row, prefix + tag + "__2")
    ensures FlattenFrom(e, 0, row, prefix)
      == row + [Field(prefix + tag, LeafText(e.children[0])), Field(prefix + tag + "__1", LeafText(e.children[1])),
                Field(prefix + tag + "__2", LeafText(e.children[2]))]
  {
    var k := prefix + tag;
    var v1, v2, v3 := LeafText(e.children[0]), LeafText(e.children[1]), LeafText(e.children[2]);
    var t1, t2, t3 := e.children[0].text, e.children[1].text, e.children[2].text;
    SuffixedKeysDistinct(k);
    FreeLeafKeepsItsTag(row, prefix, tag, t1);
    var r1 := Put(row, k, v1);
    KeysAfterPut(row, k, v1);
    FirstCollisionGetsOne(r1, prefix, tag, t2);
    var r2 := Put(r1, k + "__1", v2);
    KeysAfterPut(r1, k + "__1", v2);
    SecondCollisionGetsTwo(r2, prefix, tag, t3);
    FlattenThree(e, row, prefix);
    assert r2 + [Field(k + "__2", v3)] == row + [Field(k, v1), Field(k + "__1", v2), Field(k + "__2", v3)];
  }

  /** After `row[key] = value`, the keys present are the old ones and `key`. */
  lemma KeysAfterPut(row: Row, key: string, value: string)
    requires !HasKey(row, key)
    ensures forall k :: HasKey(Put(row, key, value), k) <==> HasKey(row, k) || k == key
  {
  }

  /** `key`, `key__1` and `key__2` are three different keys. */
  lemma SuffixedKeysDistinct(k: string)
    ensures k != k + "__1" && k != k + "__2" && k + "__1" != k + "__2"
  {
    assert |k| < |k + "__1"| && |k| < |k + "__2"|;
    assert (k + "__1")[|k| + 2] == '1' && (k + "__2")[|k| + 2] == '2';
  }

  /** An element with three children is flattened one child after the other. */
  lemma FlattenThree(e: Element, row: Row, prefix: string)
    requires |e.children| == 3
    ensures FlattenFrom(e, 0, row, prefix)
      == FlattenChild(e.children[2], FlattenChild(e.children[1], FlattenChild(e.children[0], row, prefix), prefix), prefix)
  {
    var r1 := FlattenChild(e.children[0], row, prefix);
    var r2 := FlattenChild(e.children[1], r1, prefix);
    var r3 := FlattenChild(e.children[2], r2, prefix);
    assert FlattenFrom(e, 3, r3, prefix) == r3;
    assert FlattenFrom(e, 0, row, prefix) == FlattenFrom(e, 1, r1, prefix) == FlattenFrom(e, 2, r2, prefix);
  }

  /** A nested element is flattened under its parent's tag joined by `_`. */
  lemma NestedTagsJoinWithUnderscore()
    ensures FlattenFrom(Element("row", None, [Element("b", None, [Element("c", Some("x"), [])])]), 0, [], "")
      == [Field("b_c", "x")]
  {
    var c := Element("c", Some("x"), []);
    var b := Element("b", None, [c]);
    assert Strip("x") == "x";
    assert "" + "b" + "_" == "b_" && "b_" + "c" == "b_c";
    assert FlattenChild(c, [], "b_") == [Field("b_c", "x")];
    assert FlattenFrom(b, 1, [Field("b_c", "x")], "b_") == [Field("b_c", "x")];
    assert FlattenChild(b, [], "") == [Field("b_c", "x")];
  }

  // ---------------------------------------------------------------------------
  // parse_xml

  /** `ET.fromstring(xml_text)`: a tree, or the text was not well-formed XML. */
  datatype XmlDoc = Malformed | Parsed(root: Element)

  datatype ParseError = XmlParseFailed | MissingResult

  /** What `parse_xml` returns: result code and message, total count, flattened rows. */
  datatype Response = Response(code: string, message: string, totalCount: Option<int>, rows: seq<Row>)

  /** The index of the first element of `cs` with tag `tag`. */
  function FirstWithTag(cs: seq<Element>, tag: string): (r: Option<nat>)
    ensures r.None? <==> forall i :: 0 <= i < |cs| ==> cs[i].tag != tag
    ensures r.Some? ==> (r.value < |cs| && cs[r.value].tag == tag
      && forall i :: 0 <= i < r.value ==> cs[i].tag != tag)
  {
    if cs == [] then None
    else if cs[0].tag == tag then Some(0)
    else match FirstWithTag(cs[1..], tag)
      case None => None
      case Some(i) => Some(i + 1)
  }

  /** `e.find(tag)`: the first direct child with that tag. */
  function Find(e: Element, tag: string): Option<Element> {
    match FirstWithTag(e.children, tag)
    case None => None
    case Some(i) => Some(e.children[i])
  }

  /** `e.findtext(tag)`: `None` without such a child, else its text or `""`. */
  function FindText(e: Element, tag: string): Option<string> {
    match Find(e, tag)
    case None => None
    case Some(c) => Some(c.text.GetOr(""))
  }

  /** `e.findall(tag)`: the direct children with that tag, in order. */
  function FindAll(e: Element, tag: string): (r: seq<Element>)
    ensures forall x :: x in r <==> x in e.children && x.tag == tag
  {
    FilterTag(e.children, tag)
  }

  function FilterTag(cs: seq<Element>, tag: string): (r: seq<Element>)
    ensures forall x :: x in r <==> x in cs && x.tag == tag
    ensures |r| <= |cs|
  {
    if cs == [] then []
    else
      assert forall x :: x in cs <==> x == cs[0] || x in cs[1..];
      (if cs[0].tag == tag then [cs[0]] else []) + FilterTag(cs[1..], tag)
  }

  /** Python truthiness of an optional string: present and non-empty. */
  predicate Truthy(t: Option<string>) {
    t.Some? && t.value != ""
  }

  /** `(a.findtext(upper, "") or a.findtext(lower, "")).strip()`. */
  function CodeText(e: Element, upper: string, lower: string): string {
    var u := FindText(e, upper).GetOr("");
    Strip(if u != "" then u else FindText(e, lower).GetOr(""))
  }

  /** `int(t.strip())` when `t` is truthy; `None` for a falsy text or a `ValueError`. */
  function IntOfText(t: Option<string>): Option<int> {
    if Truthy(t) then ParseInt(Strip(t.value)) else None
  }

  /** `result_elem.findtext("total") or root.findtext("totalCount")`. */
  function TotalText(result: Element, root: Element): Option<string> {
    var t := FindText(result, "total");
    if Truthy(t) then t else FindText(root, "totalCount")
  }

  /** The total count: from `RESULT/total` or the root's `totalCount`, else from the first
      row's `totalCount`. */
  function TotalCountOf(result: Element, root: Element): Option<int> {
    var primary := IntOfText(TotalText(result, root));
    if primary.Some? then primary
    else match Find(root, "row")
      case None => None
      case Some(r) => IntOfText(FindText(r, "totalCount"))
  }

  function FlattenRows(es: seq<Element>): (rows: seq<Row>)
    ensures |rows| == |es| && forall i :: 0 <= i < |es| ==> rows[i] == FlattenFrom(es[i], 0, [], "")
  {
    seq(|es|, i requires 0 <= i < |es| => FlattenFrom(es[i], 0, [], ""))
  }

  /** The value `parse_xml` returns, or the `RuntimeError` it raises. */
  function ParseXmlSpec(doc: XmlDoc): Result<Response, ParseError> {
    match doc
    case Malformed => Failure(XmlParseFailed)
    case Parsed(root) =>
      match Find(root, "RESULT")
      case None => Failure(MissingResult)
      case Some(result) =>
        Success(Response(
          CodeText(result, "CODE", "code"), CodeText(result, "MESSAGE", "message"),
          TotalCountOf(result, root), FlattenRows(FindAll(root, "row"))))
  }

  /** `parse_xml(xml_text)`. */
  method ParseXml(doc: XmlDoc) returns (r: Result<Response, ParseError>)
    ensures r == ParseXmlSpec(doc)
  {
    if doc.Malformed? {
      return Failure(XmlParseFailed);
    }
    var root := doc.root;
    var resultElem := Find(root, "RESULT");
    if resultElem.None? {
      return Failure(MissingResult);
    }
    var result := resultElem.value;
    var code := CodeText(result, "CODE", "code");
    var message := CodeText(result, "MESSAGE", "message");
    var totalCount: Option<int> := None;
    var totalText := TotalText(result, root);
    if Truthy(totalText) {
      totalCount := ParseInt(Strip(totalText.value));
    }
    if totalCount.None? {
      var firstRow := Find(root, "row");
      if firstRow.Some? {
        var rowTotalText := FindText(firstRow.value, "totalCount");
        if Truthy(rowTotalText) {
          totalCount := ParseInt(Strip(rowTotalText.value));
        }
      }
    }
    assert totalCount == TotalCountOf(result, root);
    var rows := ParseRows(FindAll(root, "row"));
    return Success(Response(code, message, totalCount, rows));
  }

  /** The `for row_elem in root.findall("row")` loop of `parse_xml`: each row is flattened
      into a fresh dictionary. */
  method ParseRows(rowElems: seq<Element>) returns (rows: seq<Row>)
    ensures rows == FlattenRows(rowElems)
  {
    rows := [];
    var i := 0;
    while i < |rowElems|
      invariant 0 <= i <= |rowElems| && |rows| == i
      invariant forall j :: 0 <= j < i ==> rows[j] == FlattenFrom(rowElems[j], 0, [], "")
    {
      var rowDict := new RowDict();
      ParseRowElement(rowElems[i], rowDict, "");
      rows := rows + [rowDict.entries];
      i := i + 1;
    }
  }

  /** A non-empty integer `RESULT/total` wins over every other source. */
  lemma TotalFromResult(result: Element, root: Element, s: string, n: int)
    requires FindText(result, "total") == Some(s) && s != "" && ParseInt(s) == Some(n)
    ensures TotalCountOf(result, root) == Some(n)
  {
    StripIdempotent(s);
  }

  /** Without a usable `RESULT/total`, the root's `totalCount` is used. */
  lemma TotalFromRoot(result: Element, root: Element, s: string, n: int)
    requires !Truthy(FindText(result, "total"))
    requires FindText(root, "totalCount") == Some(s) && s != "" && ParseInt(s) == Some(n)
    ensures TotalCountOf(result, root) == Some(n)
  {
    StripIdempotent(s);
  }

  /** When neither gives an integer, the first row's `totalCount` is the fallback. */
  lemma TotalFromFirstRow(result: Element, root: Element, row: Element, s: string, n: int)
    requires IntOfText(TotalText(result, root)).None?
    requires Find(root, "row") == Some(row)
    requires FindText(row, "totalCount") == Some(s) && s != "" && ParseInt(s) == Some(n)
    ensures TotalCountOf(result, root) == Some(n)
  {
    StripIdempotent(s);
  }

  /** A non-empty but non-integer `RESULT/total` hides the root's `totalCount`: only the
      first row can still supply a count. */
  lemma NonIntegerTotalHidesRoot(result: Element, root: Element, s: string)
    requires FindText(result, "total") == Some(s) && s != "" && ParseInt(s).None?
    ensures TotalCountOf(result, root) ==
      match Find(root, "row")
      case None => None
      case Some(r) => IntOfText(FindText(r, "totalCount"))
  {
    StripIdempotent(s);
  }

  /** Every `<row>` child of the root yields exactly one row, in document order, and nothing
      else does. */
  lemma ParsedRowsAreRowChildren(root: Element)
    requires ParseXmlSpec(Parsed(root)).Success?
    ensures var rows := ParseXmlSpec(Parsed(root)).value.rows;
      |rows| == |FindAll(root, "row")| <= |root.children|
      && forall i :: 0 <= i < |rows| ==> rows[i] == FlattenFrom(FindAll(root, "row")[i], 0, [], "")
  {
  }

  // ---------------------------------------------------------------------------
  // SeoulSubwayArrivalProvider

  const DefaultBaseUrl := "http://swopenAPI.seoul.go.kr/api/subway"
  const DefaultService := "realtimeStationArrival"

  /** The provider's configuration; `stationName` is the private `_station_name`, which the
      constructor always sets to `""`. */
  datatype Provider = Provider(apiKey: string, baseUrl: string, service: string, stationName: string)

  function NewProvider(apiKey: string, baseUrl: string := DefaultBaseUrl, service: string := DefaultService): (p: Provider)
    ensures p.stationName == ""
  {
    Provider(apiKey, baseUrl, service, "")
  }

  /** Everything in the URL before the page range. */
  function UrlBase(p: Provider): string {
    p.baseUrl + "/" + p.apiKey + "/xml/" + p.service + "/"
  }

  /** `_build_url(start, end)`. */
  function BuildUrl(p: Provider, start: int, end: int): string {
    if p.stationName != "" then UrlBase(p) + IntToString(start) + "/" + IntToString(end) + "/" + p.stationName
    else UrlBase(p) + IntToString(start) + "/" + IntToString(end) + "/"
  }

  lemma NoSlashInInt(i: int)
    ensures '/' !in IntToString(i)
  {
    IntToStringChars(i);
  }

  /** With the empty station name the URL ends in `/{start}/{end}/`, and the range can be read
      back from it. */
  lemma BuildUrlCarriesRange(p: Provider, start: int, end: int)
    requires p.stationName == ""
    ensures var url, b := BuildUrl(p, start, end), UrlBase(p);
      |url| > |b| && url[..|b|] == b && url[|url| - 1] == '/'
      && Split(url[|b|..], '/') == [IntToString(start), IntToString(end), ""]
  {
    var url, b := BuildUrl(p, start, end), UrlBase(p);
    var a, c := IntToString(start), IntToString(end);
    var tail := a + "/" + c + "/";
    assert url == b + tail;
    assert url[|b|..] == tail;
    NoSlashInInt(start);
    NoSlashInInt(end);
    var pieces := [a, c, ""];
    assert Join(pieces[2..], '/') == "";
    assert Join(pieces[1..], '/') == c + "/" + "";
    assert Join(pieces, '/') == a + "/" + (c + "/" + "");
    assert Join(pieces, '/') == tail;
    SplitJoin(pieces, '/');
  }

  /** Different page ranges are requested at different URLs. */
  lemma BuildUrlInjective(p: Provider, s1: int, e1: int, s2: int, e2: int)
    requires p.stationName == "" && BuildUrl(p, s1, e1) == BuildUrl(p, s2, e2)
    ensures s1 == s2 && e1 == e2
  {
    BuildUrlCarriesRange(p, s1, e1);
    BuildUrlCarriesRange(p, s2, e2);
    var pieces := Split(BuildUrl(p, s1, e1)[|UrlBase(p)|..], '/');
    ParseIntToString(s1);
    ParseIntToString(s2);
    ParseIntToString(e1);
    ParseIntToString(e2);
    assert pieces[0] == IntToString(s1) == IntToString(s2);
    assert pieces[1] == IntToString(e1) == IntToString(e2);
  }

  /** What `requests.get(url)` produced: an exception, or a status and a body. */
  datatype HttpOutcome = RequestException | HttpResponse(status: int, body: XmlDoc)

  /** The cause of the `RuntimeError` that `fetch_page` raises. */
  datatype ProviderError =
    | RequestFailed
    | BadStatus(status: int)
    | ParseFailed(cause: ParseError)
    | ApiError(code: string, message: string)

  /** The dictionary `fetch_page` returns. */
  datatype PageData = PageData(resultCode: string, resultMessage: string, totalCount: Option<int>, rows: seq<Row>)

  /** `fetch_page(start, end)` over the transport `http`. */
  function FetchPage(p: Provider, http: string -> HttpOutcome, start: int, end: int): (r: Result<PageData, ProviderError>)
    ensures r.Success? ==> r.value.resultCode == "INFO-000"
  {
    var url := BuildUrl(p, start, end);
    match http(url)
    case RequestException => Failure(RequestFailed)
    case HttpResponse(status, body) =>
      if status != 200 then Failure(BadStatus(status))
      else match ParseXmlSpec(body)
        case Failure(e) => Failure(ParseFailed(e))
        case Success(resp) =>
          if resp.code != "INFO-000" then Failure(ApiError(resp.code, resp.message))
          else Success(PageData(resp.code, resp.message, resp.totalCount, resp.rows))
  }

  /** A page is returned exactly when the request got a 200 response whose XML parsed with
      result code `INFO-000`, and it is then that response's content. */
  lemma FetchPageSucceedsIff(p: Provider, http: string -> HttpOutcome, start: int, end: int)
    ensures var o := http(BuildUrl(p, start, end));
      FetchPage(p, http, start, end).Success? <==>
        o.HttpResponse? && o.status == 200 && ParseXmlSpec(o.body).Success?
        && ParseXmlSpec(o.body).value.code == "INFO-000"
    ensures var o := http(BuildUrl(p, start, end));
      FetchPage(p, http, start, end).Success? ==>
        var resp := ParseXmlSpec(o.body).value;
        FetchPage(p, http, start, end).value == PageData(resp.code, resp.message, resp.totalCount, resp.rows)
  {
  }

  /** Each way a request can fail is reported by its own cause. */
  lemma FetchPageErrors(p: Provider, http: string -> HttpOutcome, start: int, end: int)
    ensures var o, r := http(BuildUrl(p, start, end)), FetchPage(p, http, start, end);
      (o.RequestException? ==> r == Failure(RequestFailed))
      && (o.HttpResponse? && o.status != 200 ==> r == Failure(BadStatus(o.status)))
      && (o.HttpResponse? && o.status == 200 && ParseXmlSpec(o.body).Failure? ==>
            r == Failure(ParseFailed(ParseXmlSpec(o.body).error)))
  {
  }

  // ---------------------------------------------------------------------------
  // fetch_fixed_pages

  const DefaultCallRanges: seq<(int, int)> := [(0, 999), (1000, 1999), (2000, 2999)]

  datatype PageResult = PageResult(start: int, end: int, totalCount: Option<int>, rowCount: nat, rows: seq<Row>)

  datatype ProviderResult = ProviderResult(pages: seq<PageResult>, allRows: seq<Row>, firstRowKeys: Option<set<string>>)

  function PageResultOf(start: int, end: int, d: PageData): PageResult {
    PageResult(start, end, d.totalCount, |d.rows|, d.rows)
  }

  /** The rows of all pages, concatenated in page order. */
  function AllRows(pages: seq<PageResult>): seq<Row>
    decreases |pages|
  {
    if pages == [] then [] else AllRows(pages[..|pages| - 1]) + pages[|pages| - 1].rows
  }

  /** `first_row_keys`: the key set of the first collected row, if any. */
  function FirstRowKeys(rows: seq<Row>): Option<set<string>> {
    if rows == [] then None else Some(KeySet(rows[0]))
  }

  /** The provider's `fetch_page` as its callers see it: a page or the cause of the error.
      For this provider it is `(s, e) => FetchPage(p, http, s, e)`. */
  type Fetch = (int, int) -> Result<PageData, ProviderError>

  /** `fetch_fixed_pages(call_ranges)`: every range fetched in order; the first failure
      propagates. */
  method FetchFixedPages(fetch: Fetch, callRanges: Option<seq<(int, int)>>)
    returns (r: Result<ProviderResult, ProviderError>)
    ensures var ranges := callRanges.GetOr(DefaultCallRanges);
      r.Success? <==> forall i :: 0 <= i < |ranges| ==> fetch(ranges[i].0, ranges[i].1).Success?
    ensures var ranges := callRanges.GetOr(DefaultCallRanges);
      r.Failure? ==> exists k :: (0 <= k < |ranges| && fetch(ranges[k].0, ranges[k].1) == Failure(r.error)
        && forall i :: 0 <= i < k ==> fetch(ranges[i].0, ranges[i].1).Success?)
    ensures var ranges := callRanges.GetOr(DefaultCallRanges);
      r.Success? ==> (|r.value.pages| == |ranges|
        && (forall i :: 0 <= i < |ranges| ==>
              r.value.pages[i] == PageResultOf(ranges[i].0, ranges[i].1, fetch(ranges[i].0, ranges[i].1).value))
        && r.value.allRows == AllRows(r.value.pages)
        && r.value.firstRowKeys == FirstRowKeys(r.value.allRows))
  {
    var ranges := if callRanges.None? then DefaultCallRanges else callRanges.value;
    assert ranges == callRanges.GetOr(DefaultCallRanges);
    var pages: seq<PageResult> := [];
    var allRows: seq<Row> := [];
    var i := 0;
    while i < |ranges|
      invariant 0 <= i <= |ranges| && |pages| == i
      invariant forall j :: 0 <= j < i ==> fetch(ranges[j].0, ranges[j].1).Success?
      invariant forall j :: 0 <= j < i ==>
        pages[j] == PageResultOf(ranges[j].0, ranges[j].1, fetch(ranges[j].0, ranges[j].1).value)
      invariant allRows == AllRows(pages)
    {
      var (start, end) := ranges[i];
      var pageData := fetch(start, end);
      if pageData.Failure? {
        assert !fetch(ranges[i].0, ranges[i].1).Success?;
        return Failure(pageData.error);
      }
      var rows := pageData.value.rows;
      var pageResult := PageResult(start, end, pageData.value.totalCount, |rows|, rows);
      pages := pages + [pageResult];
      assert pages[..|pages| - 1] == pages[..i];
      allRows := allRows + rows;
      i := i + 1;
    }
    var firstRowKeys: Option<set<string>> := None;
    if allRows != [] {
      firstRowKeys := Some(KeySet(allRows[0]));
    }
    return Success(ProviderResult(pages, allRows, firstRowKeys));
  }

  /** Every fetched row lands in `all_rows`: its length is the sum of the pages' row counts. */
  lemma {:induction false} AllRowsCount(pages: seq<PageResult>)
    requires forall i :: 0 <= i < |pages| ==> pages[i].rowCount == |pages[i].rows|
    ensures |AllRows(pages)| == RowCountSum(pages)
    decreases |pages|
  {
    if pages != [] {
      AllRowsCount(pages[..|pages| - 1]);
    }
  }

  function RowCountSum(pages: seq<PageResult>): nat
    decreases |pages|
  {
    if pages == [] then 0 else RowCountSum(pages[..|pages| - 1]) + pages[|pages| - 1].rowCount
  }
}
