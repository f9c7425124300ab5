/** The string primitives of Python that the core relies on, stated over `seq<char>`:
    `str.isspace`, `str.strip`, `str.split(sep)`, `str.split(sep, 1)`, `str(int)`,
    `int(str)` (base 10), zero-padded `strftime` fields, and Python's ordering of strings
    (lexicographic by code point, a proper prefix sorting first). */
module Text {
  import opened Wrappers

  /** `str.isspace()` for one character: the Unicode whitespace Python recognises. */
  predicate IsSpace(c: char) {
    var n := c as int;
    (9 <= n <= 13) || (28 <= n <= 32) || n == 0x85 || n == 0xA0 || n == 0x1680
    || (0x2000 <= n <= 0x200A) || n == 0x2028 || n == 0x2029 || n == 0x202F
    || n == 0x205F || n == 0x3000
  }

  predicate IsDigit(c: char) {
    '0' <= c <= '9'
  }

  predicate AllDigits(s: string) {
    forall i :: 0 <= i < |s| ==> IsDigit(s[i])
  }

  function DigitChar(d: nat): (c: char)
    requires d < 10
    ensures IsDigit(c) && c as int - '0' as int == d
  {
    ('0' as int + d) as char
  }

  function DigitValue(c: char): int {
    c as int - '0' as int
  }

  // ---------------------------------------------------------------------------
  // strip

  function StripLeft(s: string): (r: string)
    ensures |r| <= |s| && r == s[|s| - |r|..]
    ensures |r| > 0 ==> !IsSpace(r[0])
    ensures forall k :: 0 <= k < |s| - |r| ==> IsSpace(s[k])
  {
    if |s| > 0 && IsSpace(s[0]) then StripLeft(s[1..]) else s
  }

  function StripRight(s: string): (r: string)
    ensures |r| <= |s| && r == s[..|r|]
    ensures |r| > 0 ==> !IsSpace(r[|r| - 1])
    ensures forall k :: |r| <= k < |s| ==> IsSpace(s[k])
  {
    if |s| > 0 && IsSpace(s[|s| - 1]) then StripRight(s[..|s| - 1]) else s
  }

  /** `str.strip()` with no argument. */
  function Strip(s: string): string {
    StripRight(StripLeft(s))
  }

  /** A string that neither starts nor ends with whitespace is its own strip. */
  lemma StripUnchanged(s: string)
    requires |s| > 0 ==> !IsSpace(s[0]) && !IsSpace(s[|s| - 1])
    ensures Strip(s) == s
  {
    assert StripLeft(s) == s;
    assert StripRight(s) == s;
  }

  /** One space on either side is stripped away. */
  lemma StripPadded(s: string)
    requires |s| > 0 ==> !IsSpace(s[0]) && !IsSpace(s[|s| - 1])
    ensures Strip(" " + s + " ") == s
  {
    var p := " " + s + " ";
    assert p[1..] == s + " ";
    assert StripLeft(p) == StripLeft(s + " ");
    if |s| > 0 {
      assert StripLeft(s + " ") == s + " ";
    }
    assert (s + " ")[..|s|] == s;
    assert StripRight(s + " ") == StripRight(s);
    StripUnchanged(s);
  }

  /** `s.strip().strip() == s.strip()`. */
  lemma StripIdempotent(s: string)
    ensures Strip(Strip(s)) == Strip(s)
  {
    var l := StripLeft(s);
    var r := Strip(s);
    if |r| > 0 {
      assert r[0] == l[0];
    }
    StripUnchanged(r);
  }

  // ---------------------------------------------------------------------------
  // split

  /** The first index of `c` in `s`, as `str.find` would report it. */
  function IndexOf(s: string, c: char): (r: Option<nat>)
    ensures r.None? <==> c !in s
    ensures r.Some? ==> r.value < |s| && s[r.value] == c && c !in s[..r.value]
  {
    if |s| == 0 then None
    else if s[0] == c then Some(0)
    else match IndexOf(s[1..], c)
      case None => None
      case Some(i) =>
        assert s[..i + 1] == [s[0]] + s[1..][..i];
        Some(i + 1)
  }

  /** `s.split(sep)` for a one-character separator: never empty, `"".split(",") == [""]`. */
  function Split(s: string, sep: char): (pieces: seq<string>)
    ensures |pieces| >= 1
    ensures forall i :: 0 <= i < |pieces| ==> sep !in pieces[i]
    decreases |s|
  {
    match IndexOf(s, sep)
    case None => [s]
    case Some(i) => [s[..i]] + Split(s[i + 1..], sep)
  }

  /** `sep.join(pieces)`. */
  function Join(pieces: seq<string>, sep: char): string
    requires |pieces| >= 1
  {
    if |pieces| == 1 then pieces[0] else pieces[0] + [sep] + Join(pieces[1..], sep)
  }

  /** Splitting loses nothing: joining the pieces back gives the original string. */
  lemma {:induction false} JoinSplit(s: string, sep: char)
    ensures Join(Split(s, sep), sep) == s
    decreases |s|
  {
    match IndexOf(s, sep)
    case None =>
    case Some(i) =>
      var pieces := Split(s, sep);
      var tail := Split(s[i + 1..], sep);
      assert pieces == [s[..i]] + tail;
      assert pieces[1..] == tail;
      JoinSplit(s[i + 1..], sep);
      calc {
        Join(pieces, sep);
        s[..i] + [sep] + Join(tail, sep);
        s[..i] + [sep] + s[i + 1..];
        { assert s == s[..i] + [sep] + s[i + 1..]; }
        s;
      }
  }

  /** Pieces free of the separator are recovered exactly by splitting their join. */
  lemma {:induction false} SplitJoin(pieces: seq<string>, sep: char)
    requires |pieces| >= 1
    requires forall i :: 0 <= i < |pieces| ==> sep !in pieces[i]
    ensures Split(Join(pieces, sep), sep) == pieces
  {
    if |pieces| == 1 {
      assert IndexOf(pieces[0], sep).None?;
    } else {
      var rest := Join(pieces[1..], sep);
      assert Join(pieces, sep) == pieces[0] + [sep] + rest;
      SplitAtFirst(pieces[0], sep, rest);
      SplitJoin(pieces[1..], sep);
      assert pieces == [pieces[0]] + pieces[1..];
    }
  }

  /** A string cut at the first separator splits into its head and the split of the rest. */
  lemma SplitAtFirst(head: string, sep: char, rest: string)
    requires sep !in head
    ensures Split(head + [sep] + rest, sep) == [head] + Split(rest, sep)
  {
    var s := head + [sep] + rest;
    var i := |head|;
    assert s[i] == sep;
    assert s[..i] == head;
    assert IndexOf(s, sep) == Some(i);
    assert s[i + 1..] == rest;
  }

  /** `s.split(sep, 1)` for a string that contains `sep`: the text before and after its
      first occurrence. */
  function SplitFirst(s: string, sep: char): (parts: (string, string))
    requires sep in s
    ensures sep !in parts.0
    ensures s == parts.0 + [sep] + parts.1
  {
    var i := IndexOf(s, sep).value;
    assert s == s[..i] + [sep] + s[i + 1..];
    (s[..i], s[i + 1..])
  }

  /** The split at the first separator is the only one whose left part is free of it. */
  lemma SplitFirstUnique(s: string, sep: char, x: string, y: string)
    requires s == x + [sep] + y && sep !in x
    ensures SplitFirst(s, sep) == (x, y)
  {
    var (p, q) := SplitFirst(s, sep);
    assert s[|p|] == sep && s[|x|] == sep;
    assert forall k :: 0 <= k < |x| ==> s[k] == x[k];
    assert forall k :: 0 <= k < |p| ==> s[k] == p[k];
    assert p == s[..|p|] && x == s[..|x|];
    assert q == s[|p| + 1..] && y == s[|x| + 1..];
  }

  // ---------------------------------------------------------------------------
  // str(int)

  /** The decimal digits of a natural number, as `str(n)` writes them. */
  function NatToString(n: nat): (s: string)
    ensures |s| >= 1 && AllDigits(s)
    ensures n < 10 <==> |s| == 1
    decreases n
  {
    if n < 10 then [DigitChar(n)] else NatToString(n / 10) + [DigitChar(n % 10)]
  }

  /** `str(i)` for any integer. */
  function IntToString(i: int): (s: string)
    ensures |s| >= 1
    ensures i >= 0 ==> s == NatToString(i)
    ensures i < 0 ==> s == "-" + NatToString(-i)
  {
    if i < 0 then "-" + NatToString(-i) else NatToString(i)
  }

  /** `str(i)` is made of digits and, for a negative number, one leading minus sign. */
  lemma IntToStringChars(i: int)
    ensures forall k :: 0 <= k < |IntToString(i)| ==> IsDigit(IntToString(i)[k]) || (k == 0 && i < 0 && IntToString(i)[k] == '-')
    ensures !IsSpace(IntToString(i)[0]) && IsDigit(IntToString(i)[|IntToString(i)| - 1])
  {
    var s := IntToString(i);
    var d := if i < 0 then NatToString(-i) else NatToString(i);
    forall k | 0 <= k < |s| ensures IsDigit(s[k]) || (k == 0 && i < 0 && s[k] == '-') {
      if i < 0 && k > 0 {
        assert s[k] == d[k - 1];
      }
    }
  }

  /** `str(n)` zero-padded to a fixed width, the `%02d`-style fields of `strftime`. */
  function FixedDigits(n: nat, width: nat): (s: string)
    ensures |s| == width && AllDigits(s)
  {
    if width == 0 then "" else FixedDigits(n / 10, width - 1) + [DigitChar(n % 10)]
  }

  function Pow10(k: nat): (p: nat)
    ensures p >= 1
  {
    if k == 0 then 1 else 10 * Pow10(k - 1)
  }

  // ---------------------------------------------------------------------------
  // int(str), base 10

  /** Python's digit grammar for `int()`: digits with single underscores between them. */
  predicate WellFormedDigits(s: string) {
    |s| > 0 && IsDigit(s[0]) && IsDigit(s[|s| - 1])
    && (forall i :: 0 <= i < |s| ==> IsDigit(s[i]) || s[i] == '_')
    && (forall i, j :: 0 <= i < |s| && 0 <= j < |s| && j == i + 1 && s[i] == '_' ==> IsDigit(s[j]))
  }

  /** The value of a digit string, underscores ignored. */
  function DigitsValue(s: string): int
    decreases |s|
  {
    if s == [] then 0
    else if s[|s| - 1] == '_' then DigitsValue(s[..|s| - 1])
    else DigitsValue(s[..|s| - 1]) * 10 + DigitValue(s[|s| - 1])
  }

  /** `int(s)`: surrounding whitespace, an optional sign, then well-formed digits;
      `None` where Python raises `ValueError`. */
  function ParseInt(s: string): Option<int> {
    var t := Strip(s);
    if |t| > 0 && (t[0] == '+' || t[0] == '-') then
      if WellFormedDigits(t[1..]) then
        Some(if t[0] == '-' then -DigitsValue(t[1..]) else DigitsValue(t[1..]))
      else None
    else if WellFormedDigits(t) then Some(DigitsValue(t))
    else None
  }

  /** `int()` ignores surrounding whitespace, so stripping first changes nothing. */
  lemma ParseIntStripped(s: string)
    ensures ParseInt(Strip(s)) == ParseInt(s)
  {
    StripIdempotent(s);
  }

  lemma {:induction false} NatToStringValue(n: nat)
    ensures DigitsValue(NatToString(n)) == n
    decreases n
  {
    var s := NatToString(n);
    if n >= 10 {
      NatToStringValue(n / 10);
      assert s[..|s| - 1] == NatToString(n / 10);
    }
  }

  lemma {:induction false} FixedDigitsValue(n: nat, width: nat)
    requires n < Pow10(width)
    ensures DigitsValue(FixedDigits(n, width)) == n
  {
    if width > 0 {
      var s := FixedDigits(n, width);
      assert n / 10 < Pow10(width - 1);
      FixedDigitsValue(n / 10, width - 1);
      assert s[..|s| - 1] == FixedDigits(n / 10, width - 1);
    }
  }

  /** Distinct numbers below 10^width have distinct zero-padded renderings. */
  lemma FixedDigitsInjective(a: nat, b: nat, width: nat)
    requires a < Pow10(width) && b < Pow10(width)
    requires FixedDigits(a, width) == FixedDigits(b, width)
    ensures a == b
  {
    FixedDigitsValue(a, width);
    FixedDigitsValue(b, width);
  }

  lemma AllDigitsWellFormed(s: string)
    requires |s| > 0 && AllDigits(s)
    ensures WellFormedDigits(s)
  {
  }

  /** `int()` of a stripped, unsigned digit string. */
  lemma ParseIntOfDigits(t: string)
    requires Strip(t) == t && WellFormedDigits(t)
    ensures ParseInt(t) == Some(DigitsValue(t))
  {
  }

  /** `int()` of a stripped digit string behind a minus sign. */
  lemma ParseIntOfNegative(t: string)
    requires |t| > 0 && t[0] == '-' && Strip(t) == t && WellFormedDigits(t[1..])
    ensures ParseInt(t) == Some(-DigitsValue(t[1..]))
  {
  }

  /** `int()` of a digit string. */
  lemma ParseDigits(d: string)
    requires |d| > 0 && AllDigits(d)
    ensures ParseInt(d) == Some(DigitsValue(d))
  {
    assert IsDigit(d[0]) && IsDigit(d[|d| - 1]);
    StripUnchanged(d);
    AllDigitsWellFormed(d);
    ParseIntOfDigits(d);
  }

  /** `int()` of a digit string behind a minus sign. */
  lemma ParseNegativeDigits(t: string)
    requires |t| > 1 && t[0] == '-' && AllDigits(t[1..])
    ensures ParseInt(t) == Some(-DigitsValue(t[1..]))
  {
    var d := t[1..];
    assert IsDigit(d[|d| - 1]) && t[|t| - 1] == d[|d| - 1];
    StripUnchanged(t);
    AllDigitsWellFormed(d);
    ParseIntOfNegative(t);
  }

  /** `int(str(i)) == i` for every integer. */
  lemma ParseIntToString(i: int)
    ensures ParseInt(IntToString(i)) == Some(i)
  {
    var n: nat := if i < 0 then -i else i;
    NatToStringValue(n);
    if i < 0 {
      var t := IntToString(i);
      assert t[1..] == NatToString(n);
      ParseNegativeDigits(t);
    } else {
      ParseDigits(NatToString(n));
    }
  }

  // ---------------------------------------------------------------------------
  // Python's ordering of strings

  /** `a < b` on Python strings: lexicographic by code point. */
  predicate StrLess(a: string, b: string)
    decreases |a|
  {
    if |a| == 0 then |b| > 0
    else if |b| == 0 then false
    else if a[0] < b[0] then true
    else if a[0] == b[0] then StrLess(a[1..], b[1..])
    else false
  }

  lemma {:induction false} StrLessIrreflexive(a: string)
    ensures !StrLess(a, a)
    decreases |a|
  {
    if |a| > 0 {
      StrLessIrreflexive(a[1..]);
    }
  }

  lemma {:induction false} StrLessTransitive(a: string, b: string, c: string)
    requires StrLess(a, b) && StrLess(b, c)
    ensures StrLess(a, c)
    decreases |a|
  {
    if |a| > 0 && a[0] == b[0] && b[0] == c[0] {
      StrLessTransitive(a[1..], b[1..], c[1..]);
    }
  }

  lemma {:induction false} StrLessTotal(a: string, b: string)
    requires a != b
    ensures StrLess(a, b) || StrLess(b, a)
    decreases |a|
  {
    if |a| > 0 && |b| > 0 && a[0] == b[0] {
      assert a == [a[0]] + a[1..] && b == [b[0]] + b[1..];
      StrLessTotal(a[1..], b[1..]);
    }
  }

  lemma StrLessAsymmetric(a: string, b: string)
    requires StrLess(a, b)
    ensures !StrLess(b, a)
  {
    if StrLess(b, a) {
      StrLessTransitive(a, b, a);
      StrLessIrreflexive(a);
    }
  }
}
