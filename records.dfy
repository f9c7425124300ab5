/** A parsed XML `<row>`: Python's `dict[str, str]`, whose keys are unique and which
    remembers insertion order. */
module Records {
  import opened Wrappers

  datatype Field = Field(key: string, value: string)

  predicate DistinctKeys(fs: seq<Field>) {
    forall i, j :: 0 <= i < j < |fs| ==> fs[i].key != fs[j].key
  }

  type Row = fs: seq<Field> | DistinctKeys(fs)

  /** `list(row.keys())`, in insertion order. */
  function Keys(fs: seq<Field>): (ks: seq<string>)
    ensures |ks| == |fs| && forall i :: 0 <= i < |fs| ==> ks[i] == fs[i].key
  {
    seq(|fs|, i requires 0 <= i < |fs| => fs[i].key)
  }

  /** `key in row`. */
  predicate HasKey(fs: seq<Field>, key: string) {
    key in Keys(fs)
  }

  /** `row[key] = value` for a key not yet present: the entry goes last. */
  function Put(row: Row, key: string, value: string): (r: Row)
    requires !HasKey(row, key)
    ensures r == row + [Field(key, value)]
    ensures Keys(r) == Keys(row) + [key]
    ensures AsMap(r) == AsMap(row)[key := value]
    ensures Lookup(r, key) == Some(value)
  {
    assert forall i :: 0 <= i < |row| ==> row[i].key in Keys(row);
    var r := row + [Field(key, value)];
    assert r[..|r| - 1] == row;
    r
  }

  /** `row.get(key)`. */
  function Lookup(fs: seq<Field>, key: string): (v: Option<string>)
    ensures v.None? <==> !HasKey(fs, key)
    ensures v.Some? ==> Field(key, v.value) in fs
  {
    if |fs| == 0 then None
    else if fs[|fs| - 1].key == key then Some(fs[|fs| - 1].value)
    else
      assert Keys(fs) == Keys(fs[..|fs| - 1]) + [fs[|fs| - 1].key];
      Lookup(fs[..|fs| - 1], key)
  }

  /** The mapping a row denotes, forgetting insertion order. */
  function AsMap(fs: seq<Field>): map<string, string> {
    if fs == [] then map[] else AsMap(fs[..|fs| - 1])[fs[|fs| - 1].key := fs[|fs| - 1].value]
  }

  /** `set(row.keys())`. */
  function KeySet(fs: seq<Field>): set<string> {
    set f | f in fs :: f.key
  }

  /** A field is a member of a row exactly when the row maps its key to its value. */
  lemma {:induction false} InRowIffMapped(row: Row, f: Field)
    ensures f in row <==> f.key in AsMap(row) && AsMap(row)[f.key] == f.value
    decreases |row|
  {
    if row != [] {
      var init: Row := row[..|row| - 1];
      var last := row[|row| - 1];
      assert row == init + [last];
      InRowIffMapped(init, f);
    }
  }

  /** The keys of the mapping are the keys of the row. */
  lemma {:induction false} AsMapKeys(fs: seq<Field>)
    ensures AsMap(fs).Keys == KeySet(fs)
    decreases |fs|
  {
    if fs != [] {
      AsMapKeys(fs[..|fs| - 1]);
      assert fs == fs[..|fs| - 1] + [fs[|fs| - 1]];
    }
  }
}
