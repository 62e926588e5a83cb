/** Cutting an answer into posts (internal/delivery/delivery.go, Split and the first half of Parts).
    Text is a sequence of code points. */
module Chunks {

  /** The White_Space characters of Unicode. */
  const WHITE_SPACE: set<char> :=
    {'\t', '\n', '\U{B}', '\U{C}', '\r', ' ', '\U{85}', '\U{A0}', '\U{1680}',
     '\U{2000}', '\U{2001}', '\U{2002}', '\U{2003}', '\U{2004}', '\U{2005}', '\U{2006}', '\U{2007}', '\U{2008}',
     '\U{2009}', '\U{200A}', '\U{2028}', '\U{2029}', '\U{202F}', '\U{205F}', '\U{3000}'}

  /** unicode.IsSpace. */
  predicate IsSpace(c: char)
    ensures IsSpace(c) <==> c in WHITE_SPACE
  {
    var u := c as int;
    || 0x09 <= u <= 0x0d || u in {0x20, 0x85, 0xa0, 0x1680, 0x2028, 0x2029, 0x202f, 0x205f, 0x3000}
    || 0x2000 <= u <= 0x200a
  }

  /** Kinds of boundary, best first. */
  datatype Kind = Paragraph | Line | Word

  /** Position i ends a stretch of text at a boundary of this kind. */
  predicate Boundary(text: string, i: nat, kind: Kind)
    requires i < |text|
  {
    match kind
    case Paragraph => i > 0 && text[i] == '\n' && text[i - 1] == '\n'
    case Line => text[i] == '\n'
    case Word => IsSpace(text[i])
  }

  /** The length of the first part: up to the last boundary of the best kind that the latter half of the window
      holds, else the whole window. */
  ghost predicate IsCut(text: string, limit: nat, n: nat) {
    && 0 < n <= limit && n <= |text|
    && (|text| <= limit ==> n == |text|)
    && (|text| > limit ==>
          if forall i, kind :: limit / 2 <= i < limit ==> !Boundary(text, i, kind) then
            n == limit
          else
            exists kind :: LastOfBest(text, limit, n, kind))
  }

  /** The part ends at a boundary of this kind, the last one in the latter half, and no better kind occurs there. */
  ghost predicate LastOfBest(text: string, limit: nat, n: nat, kind: Kind)
    requires 0 < limit < |text| && 0 < n <= limit
  {
    && n - 1 >= limit / 2
    && Boundary(text, n - 1, kind)
    && (forall i :: n <= i < limit ==> !Boundary(text, i, kind))
    && forall i, better :: limit / 2 <= i < limit && Better(better, kind) ==> !Boundary(text, i, better)
  }

  predicate Better(a: Kind, b: Kind) {
    (a.Paragraph? && !b.Paragraph?) || (a.Line? && b.Word?)
  }

  /** The cut is determined by the text, so receipts are reproducible. */
  lemma CutUnique(text: string, limit: nat, m: nat, n: nat)
    requires IsCut(text, limit, m) && IsCut(text, limit, n)
    ensures m == n
  {
    if |text| > limit && !(forall i, kind :: limit / 2 <= i < limit ==> !Boundary(text, i, kind)) {
      var k :| LastOfBest(text, limit, m, k);
      var l :| LastOfBest(text, limit, n, l);
      assert k == l || Better(k, l) || Better(l, k);
    }
  }

  /** A blank line ends at position i. */
  ghost predicate BlankLine(text: string, i: nat) {
    0 < i < |text| && text[i - 1] == '\n' && text[i] == '\n'
  }

  /** How a cut part reads: it ends with the last blank line of the latter half, else its last line end, else its last
      white space, else with the window. */
  lemma CutReads(text: string, limit: nat, n: nat)
    requires limit < |text| && IsCut(text, limit, n)
    ensures forall i :: limit / 2 <= i < limit && BlankLine(text, i) ==> i < n && BlankLine(text, n - 1)
    ensures (forall i :: limit / 2 <= i < limit ==> !BlankLine(text, i)) ==>
              forall i :: limit / 2 <= i < limit && text[i] == '\n' ==> i < n && text[n - 1] == '\n'
    ensures (forall i :: limit / 2 <= i < limit ==> text[i] != '\n') ==>
              forall i :: limit / 2 <= i < limit && text[i] in WHITE_SPACE ==> i < n && text[n - 1] in WHITE_SPACE
    ensures (forall i :: limit / 2 <= i < limit ==> text[i] !in WHITE_SPACE) ==> n == limit
  {
    assert '\n' in WHITE_SPACE;
    hide WHITE_SPACE, IsSpace;
    forall i | limit / 2 <= i < limit
      ensures Boundary(text, i, Paragraph) <==> BlankLine(text, i)
      ensures Boundary(text, i, Line) <==> text[i] == '\n'
      ensures Boundary(text, i, Word) <==> text[i] in WHITE_SPACE {
    }
    if exists i, kind :: limit / 2 <= i < limit && Boundary(text, i, kind) {
      var kind :| LastOfBest(text, limit, n, kind);
    }
  }

  function Joined(parts: seq<string>): string {
    if parts == [] then "" else parts[0] + Joined(parts[1..])
  }

  lemma {:induction false} JoinedAppend(parts: seq<string>, last: string)
    ensures Joined(parts + [last]) == Joined(parts) + last
  {
    if parts == [] {
      assert parts + [last] == [last] && Joined([last]) == last + Joined([]);
    } else {
      assert (parts + [last])[1..] == parts[1..] + [last];
      JoinedAppend(parts[1..], last);
    }
  }

  /** Every part is the cut of what was left when it was taken. */
  ghost predicate Chunked(text: string, limit: nat, parts: seq<string>)
    decreases |text|
  {
    if text == "" then
      parts == []
    else
      && parts != []
      && IsCut(text, limit, |parts[0]|)
      && parts[0] == text[..|parts[0]|]
      && Chunked(text[|parts[0]|..], limit, parts[1..])
  }

  /** Appending the cut of the rest extends a chunking of the front. */
  ghost predicate ChunkedSoFar(text: string, limit: nat, parts: seq<string>, rest: string)
    decreases parts
  {
    if parts == [] then
      rest == text
    else
      && IsCut(text, limit, |parts[0]|)
      && parts[0] == text[..|parts[0]|]
      && ChunkedSoFar(text[|parts[0]|..], limit, parts[1..], rest)
  }

  lemma {:induction false} ChunkedStep(text: string, limit: nat, parts: seq<string>, rest: string, n: nat)
    requires ChunkedSoFar(text, limit, parts, rest) && IsCut(rest, limit, n)
    ensures ChunkedSoFar(text, limit, parts + [rest[..n]], rest[n..])
    decreases parts
  {
    var more := parts + [rest[..n]];
    if parts == [] {
      assert more[1..] == [];
    } else {
      assert more[1..] == parts[1..] + [rest[..n]];
      ChunkedStep(text[|parts[0]|..], limit, parts[1..], rest, n);
    }
  }

  lemma {:induction false} ChunkedDone(text: string, limit: nat, parts: seq<string>)
    requires ChunkedSoFar(text, limit, parts, "")
    ensures Chunked(text, limit, parts)
    decreases parts
  {
    if parts != [] {
      ChunkedDone(text[|parts[0]|..], limit, parts[1..]);
    }
  }

  /** The parts of a text are a function of the text. */
  lemma {:induction false} ChunkedUnique(text: string, limit: nat, a: seq<string>, b: seq<string>)
    requires Chunked(text, limit, a) && Chunked(text, limit, b)
    ensures a == b
    decreases |text|
  {
    if text != "" {
      CutUnique(text, limit, |a[0]|, |b[0]|);
      ChunkedUnique(text[|a[0]|..], limit, a[1..], b[1..]);
      assert a == [a[0]] + a[1..] && b == [b[0]] + b[1..];
    }
  }

  /** A part that leaves text behind fills more than half its window. */
  lemma CutFills(text: string, limit: nat, n: nat)
    requires IsCut(text, limit, n) && n < |text|
    ensures n > limit / 2
  {
  }

  /** Nothing is lost, no part is empty or too long, and every part but the last fills more than half its window. */
  lemma {:induction false} ChunkedBounds(text: string, limit: nat, parts: seq<string>)
    requires Chunked(text, limit, parts)
    ensures Joined(parts) == text
    ensures forall i :: 0 <= i < |parts| ==> 0 < |parts[i]| <= limit
    ensures forall i :: 0 <= i < |parts| - 1 ==> |parts[i]| > limit / 2
    decreases |text|
  {
    if text != "" {
      var rest := text[|parts[0]|..];
      ChunkedBounds(rest, limit, parts[1..]);
      assert text == parts[0] + rest;
      if |parts| > 1 {
        CutFills(text, limit, |parts[0]|);
      }
      forall i | 0 <= i < |parts| ensures 0 < |parts[i]| <= limit && (i < |parts| - 1 ==> |parts[i]| > limit / 2) {
        if i > 0 {
          assert parts[i] == parts[1..][i - 1];
        }
      }
    }
  }

  lemma OneMore(n: nat, step: nat)
    ensures (n + 1) * step == n * step + step
  {
  }

  /** So the number of posts is bounded by the length of the text. */
  lemma {:induction false} ChunkedCount(text: string, limit: nat, parts: seq<string>)
    requires Chunked(text, limit, parts) && text != ""
    ensures (|parts| - 1) * (limit / 2 + 1) < |text|
    decreases |text|
  {
    var rest, more, step := text[|parts[0]|..], parts[1..], limit / 2 + 1;
    if rest == "" {
      assert |parts| - 1 == 0;
    } else {
      hide Chunked;
      CutFills(text, limit, |parts[0]|);
      ChunkedCount(rest, limit, more);
      OneMore(|more| - 1, step);
    }
  }

  /** The last boundary of one kind in the latter half of the window, plus one; 0 when there is none. */
  method LastBoundary(text: string, n: nat, kind: Kind) returns (cut: nat)
    requires 0 < n <= |text|
    ensures cut == 0 ==> forall i :: n / 2 <= i < n ==> !Boundary(text, i, kind)
    ensures cut > 0 ==>
              n / 2 < cut <= n && Boundary(text, cut - 1, kind) && forall i :: cut <= i < n ==> !Boundary(text, i, kind)
  {
    cut := 0;
    var i: int := n - 1;
    while i >= n / 2
      invariant n / 2 - 1 <= i < n
      invariant forall j :: i < j < n ==> !Boundary(text, j, kind)
    {
      if Boundary(text, i, kind) {
        return i + 1;
      }
      i := i - 1;
    }
  }

  /** LastBoundary as a function. */
  function Last(text: string, n: nat, kind: Kind, i: int): (cut: nat)
    requires n <= |text| && n / 2 - 1 <= i < n
    ensures cut == 0 ==> forall j :: n / 2 <= j <= i ==> !Boundary(text, j, kind)
    ensures cut > 0 ==>
              n / 2 < cut <= i + 1 && Boundary(text, cut - 1, kind) &&
                  forall j :: cut <= j <= i ==> !Boundary(text, j, kind)
    decreases i + 1
  {
    if i < n / 2 then 0 else if Boundary(text, i, kind) then i + 1 else Last(text, n, kind, i - 1)
  }

  function Cut(text: string, limit: nat): (n: nat)
    requires text != "" && limit > 0
    ensures IsCut(text, limit, n)
  {
    if |text| <= limit then
      |text|
    else
      var paragraph := Last(text, limit, Paragraph, limit - 1);
      var line := Last(text, limit, Line, limit - 1);
      var word := Last(text, limit, Word, limit - 1);
      assert paragraph > 0 ==> LastOfBest(text, limit, paragraph, Paragraph);
      assert paragraph == 0 && line > 0 ==> LastOfBest(text, limit, line, Line);
      assert paragraph == 0 && line == 0 && word > 0 ==> LastOfBest(text, limit, word, Word);
      if paragraph > 0 then paragraph else if line > 0 then line else if word > 0 then word else limit
  }

  /** The parts as a function of the text. */
  function Pieces(text: string, limit: nat): (parts: seq<string>)
    requires limit > 0
    ensures Chunked(text, limit, parts)
    decreases |text|
  {
    if text == "" then
      []
    else
      var n := Cut(text, limit);
      assert ([text[..n]] + Pieces(text[n..], limit))[1..] == Pieces(text[n..], limit);
      [text[..n]] + Pieces(text[n..], limit)
  }

  method Split(text: string, bound: int) returns (parts: seq<string>)
    ensures parts == if text == "" then [""] else Pieces(text, AtLeastOne(bound))
  {
    if text == "" {
      return [""];
    }
    var limit := AtLeastOne(bound);
    var runes := text;
    parts := [];
    while |runes| > 0
      invariant ChunkedSoFar(text, limit, parts, runes)
      decreases |runes|
    {
      var n := if limit < |runes| then limit else |runes|;
      if n < |runes| {
        var cut := LastBoundary(runes, n, Paragraph);
        assert cut > 0 ==> LastOfBest(runes, limit, cut, Paragraph);
        if cut == 0 {
          cut := LastBoundary(runes, n, Line);
          assert cut > 0 ==> LastOfBest(runes, limit, cut, Line);
          if cut == 0 {
            cut := LastBoundary(runes, n, Word);
            assert cut > 0 ==> LastOfBest(runes, limit, cut, Word);
          }
        }
        if cut > 0 {
          n := cut;
        }
      }
      ChunkedStep(text, limit, parts, runes, n);
      parts := parts + [runes[..n]];
      runes := runes[n..];
    }
    ChunkedDone(text, limit, parts);
    ChunkedUnique(text, limit, parts, Pieces(text, limit));
  }

  function AtLeastOne(bound: int): (limit: nat)
    ensures limit >= 1 && limit >= bound && (limit == 1 || limit == bound)
  {
    if bound < 1 then 1 else bound
  }

  /** Accepted runs of render version 1 keep their original plain cut. */
  function Windows(text: string, limit: nat): (parts: seq<string>)
    requires limit > 0
    ensures Joined(parts) == text
    ensures forall i :: 0 <= i < |parts| - 1 ==> |parts[i]| == limit
    ensures forall i :: 0 <= i < |parts| ==> 0 < |parts[i]| <= limit
    decreases |text|
  {
    if text == "" then
      []
    else
      var n := if |text| <= limit then |text| else limit;
      var rest := Windows(text[n..], limit);
      assert text == text[..n] + text[n..] && ([text[..n]] + rest)[1..] == rest;
      [text[..n]] + rest
  }

  lemma Regroup(front: seq<string>, middle: string, back: seq<string>)
    ensures front + ([middle] + back) == (front + [middle]) + back
  {
  }

  method SplitWindows(text: string, bound: int) returns (parts: seq<string>)
    ensures parts == if text == "" then [""] else Windows(text, AtLeastOne(bound))
  {
    var limit := AtLeastOne(bound);
    var runes := text;
    parts := [];
    while |runes| > 0
      invariant parts + Windows(runes, limit) == Windows(text, limit)
      decreases |runes|
    {
      var n := if limit < |runes| then limit else |runes|;
      Regroup(parts, runes[..n], Windows(runes[n..], limit));
      parts := parts + [runes[..n]];
      runes := runes[n..];
    }
    if |parts| == 0 {
      parts := [""];
    }
  }

  /** The parts that Parts sends, by render version. */
  function PartTexts(text: string, bound: int, version: nat): (parts: seq<string>)
    ensures parts != []
    ensures Joined(parts) == text
    ensures parts != [""] ==> forall i :: 0 <= i < |parts| ==> 0 < |parts[i]| <= AtLeastOne(bound)
    ensures parts == [""] <==> text == ""
    ensures version == 1 ==> forall i :: 0 <= i < |parts| - 1 ==> |parts[i]| == AtLeastOne(bound)
    ensures version != 1 && text != "" ==> Chunked(text, AtLeastOne(bound), parts)
  {
    if text == "" then
      [""]
    else if version == 1 then
      Windows(text, AtLeastOne(bound))
    else
      ChunkedBounds(text, AtLeastOne(bound), Pieces(text, AtLeastOne(bound)));
      Pieces(text, AtLeastOne(bound))
  }
}
