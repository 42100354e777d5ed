/** From the text of a path, such as `lines[0].unit.code`, to its segments. */
module PathText {
  import opened Basics
  import opened Text
  import opened Paths

  /** Length of the run of digits at the front. */
  function DigitRun(s: string): (n: nat)
    ensures n <= |s| && AllDigits(s[..n]) && (n < |s| ==> !IsDigit(s[n]))
  {
    if s == "" || !IsDigit(s[0]) then 0
    else
      var rest := DigitRun(s[1..]);
      assert s[..rest + 1] == [s[0]] + s[1..][..rest];
      rest + 1
  }

  /** Is there a bracketed numeral at the front? */
  predicate Bracketed(s: string) {
    s != "" && s[0] == '[' &&
    var n := DigitRun(s[1..]);
    n > 0 && n + 1 < |s| && s[n + 1] == ']'
  }

  /** `[12]` becomes `.12`, everywhere. */
  function Unbracket(s: string): string
    decreases |s|
  {
    if s == "" then "" else Taken(s) + Unbracket(Left(s))
  }

  /** One step of the replacement: what it emits, and what is left to scan. */
  function Taken(s: string): string
    requires s != ""
  {
    if Bracketed(s) then "." + s[1..DigitRun(s[1..]) + 1] else [s[0]]
  }

  function Left(s: string): (rest: string)
    requires s != ""
    ensures |rest| < |s|
  {
    if Bracketed(s) then s[DigitRun(s[1..]) + 2..] else s[1..]
  }

  /** Split at the dots; always at least one piece. */
  function Split(s: string): (pieces: seq<string>)
    ensures pieces != []
  {
    if s == "" then [""]
    else
      var rest := Split(s[1..]);
      if s[0] == '.' then [""] + rest else [[s[0]] + rest[0]] + rest[1..]
  }

  function TrimStart(s: string): string {
    if s != "" && IsSpace(s[0]) then TrimStart(s[1..]) else s
  }

  function TrimEnd(s: string): string {
    if s != "" && IsSpace(s[|s| - 1]) then TrimEnd(s[..|s| - 1]) else s
  }

  function Trim(s: string): string { TrimEnd(TrimStart(s)) }

  predicate AllBlank(s: string) {
    forall i :: 0 <= i < |s| ==> s[i] == ' ' || s[i] == '\t' || s[i] == '\n' || s[i] == '\r'
  }

  /** Trimming takes white space off both ends, all of it, and nothing else. */
  lemma TrimLaw(s: string) returns (front: string, back: string)
    ensures s == front + Trim(s) + back && AllBlank(front) && AllBlank(back)
    ensures Trim(s) != "" ==> !AllBlank(Trim(s)[..1]) && !AllBlank(Trim(s)[|Trim(s)| - 1..])
  {
    front := StartLaw(s);
    back := EndLaw(TrimStart(s));
    assert s == front + (Trim(s) + back);
    if Trim(s) != "" {
      assert Trim(s)[0] == TrimStart(s)[0];
      assert Trim(s)[..1][0] == Trim(s)[0];
      assert Trim(s)[|Trim(s)| - 1..][0] == Trim(s)[|Trim(s)| - 1];
    }
  }

  lemma {:induction false} StartLaw(s: string) returns (front: string)
    ensures s == front + TrimStart(s) && AllBlank(front)
    ensures TrimStart(s) != "" ==> !IsSpace(TrimStart(s)[0])
    decreases |s|
  {
    front := "";
    if s != "" && IsSpace(s[0]) {
      var rest := StartLaw(s[1..]);
      front := [s[0]] + rest;
    }
  }

  lemma {:induction false} EndLaw(s: string) returns (back: string)
    ensures s == TrimEnd(s) + back && AllBlank(back)
    ensures TrimEnd(s) != "" ==> !IsSpace(TrimEnd(s)[|TrimEnd(s)| - 1]) && TrimEnd(s)[0] == s[0]
    decreases |s|
  {
    back := "";
    if s != "" && IsSpace(s[|s| - 1]) {
      var rest := EndLaw(s[..|s| - 1]);
      back := rest + [s[|s| - 1]];
    }
  }

  predicate CanonicalIndex(s: string) {
    s != "" && AllDigits(s) && (|s| > 1 ==> s[0] != '0')
  }

  function Classify(piece: string): Segment {
    if CanonicalIndex(piece) then Index(DigitsToNat(piece)) else Key(piece)
  }

  /** Blank pieces are dropped. */
  function Segments(pieces: seq<string>): Path {
    if pieces == [] then []
    else if Trim(pieces[0]) == "" then Segments(pieces[1..])
    else [Classify(Trim(pieces[0]))] + Segments(pieces[1..])
  }

  function Parse(text: string): Path {
    Segments(Split(Unbracket(text)))
  }

  /** A piece is an index exactly when it is the numeral of that index; otherwise it is a name. */
  lemma PieceMeaning(piece: string, i: nat)
    ensures Classify(piece) == Index(i) <==> piece == DecimalNat(i)
    ensures Classify(piece).Key? ==> Classify(piece).name == piece
  {
    DecimalReadsBack(i);
    DecimalHasNoLeadingZero(i);
    assert DecimalNat(0) == "0";
    if CanonicalIndex(piece) { ReadsBackDecimal(piece); }
  }

  // ----- rendering a path and reading it back -----

  function SegmentText(seg: Segment): string {
    match seg
    case Key(name) => name
    case Index(i) => DecimalNat(i)
  }

  function Render(path: Path): string {
    if path == [] then ""
    else if |path| == 1 then SegmentText(path[0])
    else SegmentText(path[0]) + "." + Render(path[1..])
  }

  /** A name that survives in path text. */
  predicate PlainName(name: string) {
    && name != ""
    && !IsSpace(name[0]) && !IsSpace(name[|name| - 1])
    && !CanonicalIndex(name)
    && forall i :: 0 <= i < |name| ==> name[i] != '.' && name[i] != '['
  }

  ghost predicate Plain(path: Path) {
    forall i :: 0 <= i < |path| && path[i].Key? ==> PlainName(path[i].name)
  }

  predicate Lacks(s: string, c: char) {
    forall i :: 0 <= i < |s| ==> s[i] != c
  }

  lemma {:induction false} NothingToUnbracket(s: string)
    requires Lacks(s, '[')
    ensures Unbracket(s) == s
    decreases |s|
  {
    if s != "" { NothingToUnbracket(s[1..]); }
  }

  lemma {:induction false} SplitPiece(piece: string, rest: string)
    requires Lacks(piece, '.')
    ensures Split(piece + "." + rest) == [piece] + Split(rest)
    ensures Split(piece) == [piece]
    decreases |piece|
  {
    if piece == "" {
      assert piece + "." + rest == "." + rest;
      assert ("." + rest)[1..] == rest;
    } else {
      var text := piece + "." + rest;
      assert text[1..] == piece[1..] + "." + rest;
      SplitPiece(piece[1..], rest);
      assert piece == [piece[0]] + piece[1..];
    }
  }

  lemma SegmentReadsBack(seg: Segment)
    requires seg.Key? ==> PlainName(seg.name)
    ensures var text := SegmentText(seg);
      text != "" && Lacks(text, '.') && Lacks(text, '[') && Trim(text) == text && Classify(text) == seg
  {
    if seg.Index? {
      DecimalReadsBack(seg.at);
      DecimalHasNoLeadingZero(seg.at);
      var text := DecimalNat(seg.at);
      assert IsDigit(text[0]) && IsDigit(text[|text| - 1]);
      if text[0] == '0' { assert seg.at == 0; }
    }
  }

  /** The text of a segment in front of other pieces is read as that segment. */
  lemma FirstPieceReadsBack(seg: Segment, pieces: seq<string>)
    requires seg.Key? ==> PlainName(seg.name)
    ensures Segments([SegmentText(seg)] + pieces) == [seg] + Segments(pieces)
  {
    SegmentReadsBack(seg);
    assert ([SegmentText(seg)] + pieces)[1..] == pieces;
  }

  lemma SplitRendered(path: Path)
    requires Plain(path) && path != []
    ensures Split(Render(path)) == [SegmentText(path[0])] + (if |path| == 1 then [] else Split(Render(path[1..])))
  {
    SegmentReadsBack(path[0]);
    SplitPiece(SegmentText(path[0]), if |path| == 1 then "" else Render(path[1..]));
  }

  lemma {:induction false} RenderedLacksBracket(path: Path)
    requires Plain(path) && path != []
    ensures Lacks(Render(path), '[')
    decreases |path|
  {
    SegmentReadsBack(path[0]);
    if |path| > 1 { RenderedLacksBracket(path[1..]); }
  }

  lemma SegmentsStep(path: Path)
    requires Plain(path) && path != []
    ensures Segments(Split(Render(path))) == [path[0]] + Segments(if |path| == 1 then [] else Split(Render(path[1..])))
  {
    SplitRendered(path);
    FirstPieceReadsBack(path[0], if |path| == 1 then [] else Split(Render(path[1..])));
  }

  lemma {:induction false} SegmentsOfRendered(path: Path)
    requires Plain(path) && path != []
    ensures Segments(Split(Render(path))) == path
    decreases |path|
  {
    SegmentsStep(path);
    assert path == [path[0]] + path[1..];
    if |path| > 1 { SegmentsOfRendered(path[1..]); }
  }

  /** A path rendered with dots parses back to itself. */
  lemma RenderParses(path: Path)
    requires Plain(path)
    ensures Parse(Render(path)) == path
  {
    if path != [] {
      RenderedLacksBracket(path);
      SegmentsOfRendered(path);
      NothingToUnbracket(Render(path));
    }
  }

  function Joined(pieces: seq<string>): string
    requires pieces != []
  {
    if |pieces| == 1 then pieces[0] else pieces[0] + "." + Joined(pieces[1..])
  }

  lemma {:induction false} SplitJoined(pieces: seq<string>)
    requires pieces != [] && forall i :: 0 <= i < |pieces| ==> Lacks(pieces[i], '.') && Lacks(pieces[i], '[')
    ensures Split(Joined(pieces)) == pieces && Lacks(Joined(pieces), '[')
    decreases |pieces|
  {
    if |pieces| == 1 {
      SplitPiece(pieces[0], "");
    } else {
      SplitPiece(pieces[0], Joined(pieces[1..]));
      SplitJoined(pieces[1..]);
      assert pieces == [pieces[0]] + pieces[1..];
    }
  }

  /** A dotted text means the meanings of its pieces in order: each is trimmed, and a blank one
      is left out. */
  lemma {:induction false} JoinedParses(pieces: seq<string>)
    requires pieces != [] && forall i :: 0 <= i < |pieces| ==> Lacks(pieces[i], '.') && Lacks(pieces[i], '[')
    ensures Parse(Joined(pieces)) ==
      (if Trim(pieces[0]) == "" then [] else [Classify(Trim(pieces[0]))])
        + (if |pieces| == 1 then [] else Parse(Joined(pieces[1..])))
  {
    JoinedSegments(pieces);
    if |pieces| > 1 {
      JoinedSegments(pieces[1..]);
    } else {
      assert pieces[1..] == [] && Segments(pieces[1..]) == [];
    }
  }

  lemma JoinedSegments(pieces: seq<string>)
    requires pieces != [] && forall i :: 0 <= i < |pieces| ==> Lacks(pieces[i], '.') && Lacks(pieces[i], '[')
    ensures Parse(Joined(pieces)) == Segments(pieces)
  {
    SplitJoined(pieces);
    NothingToUnbracket(Joined(pieces));
  }

  // ----- brackets are dots -----

  lemma {:induction false} RunBefore(digits: string, c: char, rest: string)
    requires AllDigits(digits) && !IsDigit(c)
    ensures DigitRun(digits + [c] + rest) == |digits|
    decreases |digits|
  {
    var s := digits + [c] + rest;
    if digits == "" {
      assert s[0] == c;
    } else {
      assert s[1..] == digits[1..] + [c] + rest;
      RunBefore(digits[1..], c, rest);
    }
  }

  lemma {:induction false} DigitsPassThrough(digits: string, rest: string)
    requires AllDigits(digits)
    ensures Unbracket(digits + rest) == digits + Unbracket(rest)
    decreases |digits|
  {
    if digits == "" {
      assert digits + rest == rest;
    } else {
      assert (digits + rest)[1..] == digits[1..] + rest;
      DigitsPassThrough(digits[1..], rest);
      assert digits == [digits[0]] + digits[1..];
      Regroup([digits[0]], digits[1..], Unbracket(rest));
    }
  }

  lemma BracketAtFront(digits: string, rest: string)
    requires digits != "" && AllDigits(digits)
    ensures Unbracket("[" + digits + "]" + rest) == "." + digits + Unbracket(rest)
    ensures Unbracket("." + digits + rest) == "." + digits + Unbracket(rest)
  {
    BracketStep(digits, rest);
    var t := "." + digits + rest;
    assert t[1..] == digits + rest;
    DigitsPassThrough(digits, rest);
    Regroup(".", digits, Unbracket(rest));
  }

  lemma BracketStep(digits: string, rest: string)
    requires digits != "" && AllDigits(digits)
    ensures var s := "[" + digits + "]" + rest;
      Taken(s) == "." + digits && Left(s) == rest
  {
    var s := "[" + digits + "]" + rest;
    assert s[1..] == digits + "]" + rest;
    RunBefore(digits, ']', rest);
    assert s[1..|digits| + 1] == digits;
    assert s[|digits| + 2..] == rest;
  }

  lemma {:induction false} RunStopsAt(s: string, c: char, x: string)
    requires !IsDigit(c)
    ensures DigitRun(s + [c] + x) == DigitRun(s)
    decreases |s|
  {
    var t := s + [c] + x;
    if s == "" {
      assert t[0] == c;
    } else if IsDigit(s[0]) {
      assert t[1..] == s[1..] + [c] + x;
      RunStopsAt(s[1..], c, x);
    }
  }

  lemma BracketedPrefix(s: string, c: char, x: string)
    requires s != "" && (c == '[' || c == '.')
    ensures Bracketed(s + [c] + x) == Bracketed(s)
    ensures DigitRun((s + [c] + x)[1..]) == DigitRun(s[1..])
  {
    assert (s + [c] + x)[1..] == s[1..] + [c] + x;
    RunStopsAt(s[1..], c, x);
  }

  lemma StepPrefix(s: string, c: char, x: string)
    requires s != "" && (c == '[' || c == '.')
    ensures Taken(s + [c] + x) == Taken(s)
    ensures Left(s + [c] + x) == Left(s) + [c] + x
  {
    BracketedPrefix(s, c, x);
    var t, n := s + [c] + x, DigitRun(s[1..]);
    if Bracketed(s) {
      assert t[1..n + 1] == s[1..n + 1];
      assert t[n + 2..] == s[n + 2..] + [c] + x;
    } else {
      assert t[1..] == s[1..] + [c] + x;
    }
  }

  lemma {:induction false} UnbracketFront(s: string, c: char, x: string)
    requires c == '[' || c == '.'
    ensures Unbracket(s + [c] + x) == Unbracket(s) + Unbracket([c] + x)
    decreases |s|
  {
    if s == "" {
      assert s + [c] + x == [c] + x;
    } else {
      StepPrefix(s, c, x);
      UnbracketFront(Left(s), c, x);
      Regroup(Taken(s), Unbracket(Left(s)), Unbracket([c] + x));
    }
  }

  lemma Regroup(a: string, b: string, c: string)
    ensures a + (b + c) == a + b + c
  {}

  /** A bracketed index and a dotted index mean the same path, anywhere in the text. */
  lemma BracketsAreDots(before: string, digits: string, after: string)
    requires digits != "" && AllDigits(digits)
    ensures Parse(before + "[" + digits + "]" + after) == Parse(before + "." + digits + after)
  {
    UnbracketFront(before, '[', digits + "]" + after);
    UnbracketFront(before, '.', digits + after);
    BracketText(before, digits, after);
    DotText(before, digits, after);
    BracketAtFront(digits, after);
  }

  /** A bracket that no digit follows is left in the text. */
  lemma OtherBracketsStay(before: string, c: char, after: string)
    requires !('0' <= c <= '9')
    ensures Unbracket(before + "[" + ([c] + after)) == Unbracket(before) + "[" + Unbracket([c] + after)
  {
    UnbracketFront(before, '[', [c] + after);
    var s := "[" + ([c] + after);
    assert s[1..] == [c] + after;
    assert before + "[" + ([c] + after) == before + ['['] + ([c] + after) && ['['] + ([c] + after) == s;
    Regroup(Unbracket(before), "[", Unbracket([c] + after));
  }

  lemma BracketText(before: string, digits: string, after: string)
    ensures before + "[" + digits + "]" + after == before + ['['] + (digits + "]" + after)
    ensures ['['] + (digits + "]" + after) == "[" + digits + "]" + after
  {}

  lemma DotText(before: string, digits: string, after: string)
    ensures before + "." + digits + after == before + ['.'] + (digits + after)
    ensures ['.'] + (digits + after) == "." + digits + after
  {}
}
