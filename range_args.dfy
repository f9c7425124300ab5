/** `parse_ranges`, the `--ranges` argument of both run scripts: comma-separated
    `start-end` pieces, each split at its first `-`, both halves read with `int()`. */
module RangeArgs {
  import opened Wrappers
  import opened Text

  /** The two ways `parse_ranges` raises `ValueError`: a piece without `-` (reported with the
      stripped piece), and a half that `int()` rejects. */
  datatype RangeError = MissingDash(piece: string) | NotAnInteger(text: string)

  /** One comma-separated piece. */
  function ParsePiece(piece: string): (r: Result<(int, int), RangeError>)
    ensures r.Success? ==> '-' in Strip(piece)
    ensures '-' !in Strip(piece) ==> r == Failure(MissingDash(Strip(piece)))
  {
    var rangeStr := Strip(piece);
    if '-' in rangeStr then
      var (startStr, endStr) := SplitFirst(rangeStr, '-');
      match ParseInt(Strip(startStr))
      case None => Failure(NotAnInteger(Strip(startStr)))
      case Some(start) =>
        match ParseInt(Strip(endStr))
        case None => Failure(NotAnInteger(Strip(endStr)))
        case Some(end) => Success((start, end))
    else Failure(MissingDash(rangeStr))
  }

  /** A piece that reads `x-y` once stripped, `x` free of `-`, parses exactly when `int()`
      accepts both halves, to those two numbers; the first `-` always separates. */
  lemma ParsePieceHalves(piece: string, x: string, y: string)
    requires Strip(piece) == x + "-" + y && '-' !in x
    ensures ParsePiece(piece).Success? <==> ParseInt(x).Some? && ParseInt(y).Some?
    ensures ParsePiece(piece).Success? ==> ParsePiece(piece).value == (ParseInt(x).value, ParseInt(y).value)
    ensures ParseInt(x).None? ==> ParsePiece(piece) == Failure(NotAnInteger(Strip(x)))
  {
    assert '-' in Strip(piece) by {
      assert Strip(piece)[|x|] == '-';
    }
    assert SplitFirst(Strip(piece), '-') == (x, y) by {
      SplitFirstUnique(Strip(piece), '-', x, y);
    }
    ParseIntStripped(x);
    ParseIntStripped(y);
  }

  /** The results of the pieces, in order. */
  function PieceResults(pieces: seq<string>): (rs: seq<Result<(int, int), RangeError>>)
    ensures |rs| == |pieces|
  {
    seq(|pieces|, i requires 0 <= i < |pieces| => ParsePiece(pieces[i]))
  }

  /** The ranges of a list of piece results; the first failure decides the error. */
  function Collect(results: seq<Result<(int, int), RangeError>>): Result<seq<(int, int)>, RangeError>
    decreases |results|
  {
    if results == [] then Success([])
    else
      var done := Collect(results[..|results| - 1]);
      var last := results[|results| - 1];
      if done.Failure? then done
      else if last.Failure? then Failure(last.error)
      else Success(done.value + [last.value])
  }

  /** `parse_ranges(ranges_str)`. */
  function ParseRangesSpec(rangesStr: string): Result<seq<(int, int)>, RangeError> {
    Collect(PieceResults(Split(rangesStr, ',')))
  }

  /** The loop of `parse_ranges`. */
  method ParseRanges(rangesStr: string) returns (r: Result<seq<(int, int)>, RangeError>)
    ensures r == ParseRangesSpec(rangesStr)
  {
    var pieces := Split(rangesStr, ',');
    ghost var results := PieceResults(pieces);
    var ranges: seq<(int, int)> := [];
    var i := 0;
    while i < |pieces|
      invariant 0 <= i <= |pieces|
      invariant Collect(results[..i]) == Success(ranges)
    {
      var piece := ParsePiece(pieces[i]);
      assert results[i] == piece;
      assert results[..i + 1][..i] == results[..i];
      if piece.Failure? {
        FailureSticks(results, i + 1);
        return Failure(piece.error);
      }
      ranges := ranges + [piece.value];
      i := i + 1;
    }
    assert results[..i] == results;
    return Success(ranges);
  }

  /** Once a prefix has failed, the whole list fails with the same error. */
  lemma {:induction false} FailureSticks(results: seq<Result<(int, int), RangeError>>, k: nat)
    requires k <= |results| && Collect(results[..k]).Failure?
    ensures Collect(results) == Collect(results[..k])
    decreases |results| - k
  {
    if k < |results| {
      assert results[..k + 1][..k] == results[..k];
      FailureSticks(results, k + 1);
    } else {
      assert results[..k] == results;
    }
  }

  /** Collecting succeeds exactly when every result is a success, and then keeps them all in
      order; otherwise the error is that of the first failure. */
  lemma {:induction false} CollectPointwise(results: seq<Result<(int, int), RangeError>>)
    ensures var r := Collect(results);
      (r.Success? <==> forall i :: 0 <= i < |results| ==> results[i].Success?)
      && (r.Success? ==>
            (|r.value| == |results| && forall i :: 0 <= i < |results| ==> r.value[i] == results[i].value))
      && (r.Failure? ==>
            (exists k :: 0 <= k < |results| && results[k] == Failure(r.error)
               && forall j :: 0 <= j < k ==> results[j].Success?))
    decreases |results|
  {
    if results != [] {
      var n := |results| - 1;
      var init := results[..n];
      CollectPointwise(init);
      var r := Collect(results);
      var done := Collect(init);
      assert forall i :: 0 <= i < n ==> results[i] == init[i];
      if done.Failure? {
        var k :| 0 <= k < n && init[k] == Failure(done.error) && forall j :: 0 <= j < k ==> init[j].Success?;
        assert results[k] == Failure(r.error);
      } else if results[n].Failure? {
        assert results[n] == Failure(r.error);
      } else {
        forall i | 0 <= i < |results| ensures r.value[i] == results[i].value {
          if i < n {
            assert r.value[i] == done.value[i];
          }
        }
      }
    }
  }

  /** Results that are all successes collect to their values. */
  lemma {:induction false} CollectAllSuccess(results: seq<Result<(int, int), RangeError>>, values: seq<(int, int)>)
    requires |results| == |values|
    requires forall i :: 0 <= i < |results| ==> results[i] == Success(values[i])
    ensures Collect(results) == Success(values)
    decreases |results|
  {
    if results != [] {
      var n := |results| - 1;
      CollectAllSuccess(results[..n], values[..n]);
      assert values == values[..n] + [values[n]];
    }
  }

  /** `parse_ranges` over the pieces of its argument: it succeeds exactly when every piece
      parses, and then range `i` is piece `i`'s; otherwise it fails with the error of the first
      piece that does not parse. */
  lemma PiecesPointwise(pieces: seq<string>)
    ensures var r := Collect(PieceResults(pieces));
      (r.Success? <==> forall i :: 0 <= i < |pieces| ==> ParsePiece(pieces[i]).Success?)
      && (r.Success? ==>
            (|r.value| == |pieces| && forall i :: 0 <= i < |pieces| ==> r.value[i] == ParsePiece(pieces[i]).value))
      && (r.Failure? ==>
            (exists k :: 0 <= k < |pieces| && ParsePiece(pieces[k]) == Failure(r.error)
               && forall j :: 0 <= j < k ==> ParsePiece(pieces[j]).Success?))
  {
    var results := PieceResults(pieces);
    forall i | 0 <= i < |pieces| ensures results[i] == ParsePiece(pieces[i]) {
    }
    CollectPointwise(results);
    var r := Collect(results);
    if r.Failure? {
      var k :| 0 <= k < |results| && results[k] == Failure(r.error) && forall j :: 0 <= j < k ==> results[j].Success?;
      assert ParsePiece(pieces[k]) == Failure(r.error);
    }
  }

  /** At least one range comes back from a successful parse: there is always one piece. */
  lemma ParsedRangesNonEmpty(rangesStr: string)
    ensures ParseRangesSpec(rangesStr).Success? ==> |ParseRangesSpec(rangesStr).value| >= 1
  {
    PiecesPointwise(Split(rangesStr, ','));
  }

  /** The empty string is one empty piece, which has no `-`. */
  lemma EmptyStringRejected()
    ensures ParseRangesSpec("") == Failure(MissingDash(""))
  {
    assert Split("", ',') == [""];
    assert Strip("") == "";
  }

  // ---------------------------------------------------------------------------
  // Round trip

  /** A range written as on the command line. */
  function FormatRange(r: (nat, int)): string {
    IntToString(r.0) + "-" + IntToString(r.1)
  }

  function FormatPieces(rs: seq<(nat, int)>): (pieces: seq<string>)
    ensures |pieces| == |rs|
    ensures forall i :: 0 <= i < |rs| ==> pieces[i] == FormatRange(rs[i])
  {
    seq(|rs|, i requires 0 <= i < |rs| => FormatRange(rs[i]))
  }

  /** The argument text for a non-empty list of ranges with non-negative starts. */
  function FormatRanges(rs: seq<(nat, int)>): string
    requires |rs| >= 1
  {
    Join(FormatPieces(rs), ',')
  }

  /** One written range reads back as itself, whatever surrounds it. */
  lemma ParseFormattedPiece(r: (nat, int))
    ensures ParsePiece(FormatRange(r)) == Success((r.0 as int, r.1))
  {
    var a, b := IntToString(r.0), IntToString(r.1);
    IntToStringChars(r.0);
    IntToStringChars(r.1);
    assert '-' !in a;
    StripFormatted(a, b);
    ParseIntToString(r.0);
    ParseIntToString(r.1);
    ParsePieceHalves(FormatRange(r), a, b);
  }

  lemma StripFormatted(a: string, b: string)
    requires |a| > 0 && |b| > 0 && !IsSpace(a[0]) && IsDigit(b[|b| - 1])
    ensures Strip(a + "-" + b) == a + "-" + b
  {
    var s := a + "-" + b;
    assert s[0] == a[0] && s[|s| - 1] == b[|b| - 1];
    StripUnchanged(s);
  }

  /** `parse_ranges` reads back every list of ranges written in its own format: non-negative
      starts (a leading `-` would be taken as the separator) and any ends. */
  lemma ParseFormattedRanges(rs: seq<(nat, int)>)
    requires |rs| >= 1
    ensures ParseRangesSpec(FormatRanges(rs)) == Success(seq(|rs|, i requires 0 <= i < |rs| => (rs[i].0 as int, rs[i].1)))
  {
    var pieces := FormatPieces(rs);
    assert Split(FormatRanges(rs), ',') == pieces by {
      forall i | 0 <= i < |pieces| ensures ',' !in pieces[i] {
        NoCommaInRange(rs[i]);
      }
      SplitJoin(pieces, ',');
    }
    var results := PieceResults(pieces);
    var expected := seq(|rs|, i requires 0 <= i < |rs| => (rs[i].0 as int, rs[i].1));
    forall i | 0 <= i < |pieces| ensures results[i] == Success(expected[i]) {
      ParseFormattedPiece(rs[i]);
    }
    CollectAllSuccess(results, expected);
  }

  lemma NoCommaInRange(r: (nat, int))
    ensures ',' !in FormatRange(r)
  {
    IntToStringChars(r.0);
    IntToStringChars(r.1);
    var a, b := IntToString(r.0), IntToString(r.1);
    var s := FormatRange(r);
    assert s == a + ['-'] + b;
    forall k | 0 <= k < |s| ensures s[k] != ',' {
      if k < |a| {
        assert s[k] == a[k];
      } else if k > |a| {
        assert s[k] == b[k - |a| - 1];
      }
    }
  }

  // ---------------------------------------------------------------------------
  // The command line of both run scripts

  /** `call_ranges` from `--ranges`: an absent or empty argument leaves it `None`, anything
      else is parsed, and a parse error is reported. */
  function RangesArgument(arg: Option<string>): Result<Option<seq<(int, int)>>, RangeError> {
    if arg.None? || arg.value == "" then Success(None)
    else
      match ParseRangesSpec(arg.value)
      case Failure(e) => Failure(e)
      case Success(ranges) => Success(Some(ranges))
  }

  method ParseRangesArgument(arg: Option<string>) returns (r: Result<Option<seq<(int, int)>>, RangeError>)
    ensures r == RangesArgument(arg)
  {
    if arg.None? || arg.value == "" {
      return Success(None);
    }
    var parsed := ParseRanges(arg.value);
    if parsed.Failure? {
      return Failure(parsed.error);
    }
    return Success(Some(parsed.value));
  }

  /** Ranges taken from the command line are never an empty list. */
  lemma RangesArgumentNonEmpty(arg: Option<string>)
    ensures var r := RangesArgument(arg);
      r.Success? && r.value.Some? ==> arg.Some? && arg.value != "" && |r.value.value| >= 1
  {
    if arg.Some? && arg.value != "" {
      ParsedRangesNonEmpty(arg.value);
    }
  }

  /** `not api_key` for `os.getenv("SEOUL_SUBWAY_API_KEY")`. */
  predicate ApiKeyMissing(apiKey: Option<string>) {
    apiKey.None? || apiKey.value == ""
  }
}
