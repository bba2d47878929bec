/** Comment search: the case-insensitive find and the snippet window around a match. */
module Search {
  import opened Wrappers
  import opened Utf8

  datatype Range = Range(start: nat, end: nat)

  datatype Snippet = Snippet(text: Bytes, matchStart: nat, matchEnd: nat)

  const SNIPPET_RADIUS: nat := 40

  /** U+2026 HORIZONTAL ELLIPSIS. */
  const ELLIPSIS: Bytes := [0xE2, 0x80, 0xA6]

  // ---- find_ascii_ci ---------------------------------------------------------------------------

  function LowerByte(b: Byte): Byte {
    if 0x41 <= b <= 0x5A then b + 0x20 else b
  }

  /** `to_ascii_lowercase`. */
  function Lower(s: Bytes): (t: Bytes)
    ensures |t| == |s|
  {
    seq(|s|, i requires 0 <= i < |s| => LowerByte(s[i]))
  }

  predicate OccursAt(haystack: Bytes, needle: Bytes, i: nat) {
    i + |needle| <= |haystack| && haystack[i..i + |needle|] == needle
  }

  /** `str::find` from byte `i` on. */
  function FindFrom(haystack: Bytes, needle: Bytes, i: nat): (r: Option<nat>)
    requires i <= |haystack|
    ensures r.Some? ==> i <= r.value && OccursAt(haystack, needle, r.value)
    ensures r.Some? ==> forall j :: i <= j < r.value ==> !OccursAt(haystack, needle, j)
    ensures r.None? ==> forall j :: i <= j ==> !OccursAt(haystack, needle, j)
    decreases |haystack| - i
  {
    if OccursAt(haystack, needle, i) then Some(i)
    else if i == |haystack| then None
    else FindFrom(haystack, needle, i + 1)
  }

  function FindAsciiCi(haystack: Bytes, needle: Bytes): Option<Range> {
    if needle == [] then None
    else
      match FindFrom(Lower(haystack), Lower(needle), 0)
      case None => None
      case Some(start) => Some(Range(start, start + |Lower(needle)|))
  }

  /** Two bytes that are the same, or the same ASCII letter in its two cases; no other pair is. */
  predicate SameLetter(a: Byte, b: Byte) {
    a == b || (0x41 <= a <= 0x5A && b == a + 0x20) || (0x41 <= b <= 0x5A && a == b + 0x20)
  }

  /** `needle` stands at byte `i`, letter case of ASCII letters aside. */
  ghost predicate MatchesAt(haystack: Bytes, needle: Bytes, i: nat) {
    i + |needle| <= |haystack| && forall k :: 0 <= k < |needle| ==> SameLetter(haystack[i + k], needle[k])
  }

  lemma LowerSlice(s: Bytes, i: nat, j: nat)
    requires i <= j <= |s|
    ensures Lower(s[i..j]) == Lower(s)[i..j]
  {
  }

  lemma FoldsSameLetters(a: Byte, b: Byte)
    ensures LowerByte(a) == LowerByte(b) <==> SameLetter(a, b)
  {
  }

  lemma MatchIsFoldedOccurrence(haystack: Bytes, needle: Bytes, i: nat)
    ensures MatchesAt(haystack, needle, i) <==> OccursAt(Lower(haystack), Lower(needle), i)
  {
    if i + |needle| <= |haystack| {
      var h, n := Lower(haystack)[i..i + |needle|], Lower(needle);
      forall k | 0 <= k < |needle|
        ensures h[k] == n[k] <==> SameLetter(haystack[i + k], needle[k])
      {
        FoldsSameLetters(haystack[i + k], needle[k]);
      }
    }
  }

  /** The result is the first match, and there is one unless the needle is empty or absent. */
  lemma FindsFirst(haystack: Bytes, needle: Bytes)
    ensures match FindAsciiCi(haystack, needle)
            case Some(r) =>
              && needle != [] && r.end == r.start + |needle| && MatchesAt(haystack, needle, r.start)
              && forall j :: 0 <= j < r.start ==> !MatchesAt(haystack, needle, j)
            case None => needle == [] || forall j :: !MatchesAt(haystack, needle, j)
  {
    forall j: nat
      ensures MatchesAt(haystack, needle, j) <==> OccursAt(Lower(haystack), Lower(needle), j)
    {
      MatchIsFoldedOccurrence(haystack, needle, j);
    }
  }

  lemma LowerKeepsCharLen(s: Bytes)
    ensures CharLen(Lower(s)) == CharLen(s)
  {
  }

  lemma {:induction false} LowerKeepsValid(s: Bytes)
    ensures Valid(Lower(s)) == Valid(s)
    decreases |s|
  {
    LowerKeepsCharLen(s);
    if CharLen(s) > 0 {
      LowerSlice(s, CharLen(s), |s|);
      assert Lower(s[CharLen(s)..]) == Lower(s)[CharLen(s)..];
      LowerKeepsValid(s[CharLen(s)..]);
    }
  }

  lemma LowerKeepsBoundary(s: Bytes, i: nat)
    ensures Boundary(Lower(s), i) == Boundary(s, i)
  {
  }

  lemma OccursOnBoundaries(h: Bytes, n: Bytes, i: nat)
    requires Valid(h) && Valid(n) && n != [] && OccursAt(h, n, i)
    ensures Boundary(h, i) && Boundary(h, i + |n|)
  {
    assert h[i..i + |n|][0] == h[i] && CharLen(n) > 0;
    ValidSplit(h, i);
    var rest := h[i..];
    assert n <= rest by { assert rest[..|n|] == h[i..i + |n|]; }
    ValidAfterPrefix(rest, n);
    assert i + |n| < |h| ==> rest[|n|] == h[i + |n|];
  }

  /** Both ends of a match of a valid needle in a valid string are character boundaries. */
  lemma FindsOnBoundaries(haystack: Bytes, needle: Bytes)
    requires Valid(haystack) && Valid(needle) && FindAsciiCi(haystack, needle).Some?
    ensures var r := FindAsciiCi(haystack, needle).value;
            r.end <= |haystack| && Boundary(haystack, r.start) && Boundary(haystack, r.end)
  {
    var r := FindAsciiCi(haystack, needle).value;
    LowerKeepsValid(haystack);
    LowerKeepsValid(needle);
    OccursOnBoundaries(Lower(haystack), Lower(needle), r.start);
    LowerKeepsBoundary(haystack, r.start);
    LowerKeepsBoundary(haystack, r.end);
  }

  // ---- snapping to boundaries --------------------------------------------------------------------

  /** The greatest boundary at or below `i`. */
  function FloorOf(s: Bytes, i: nat): (r: nat)
    ensures r <= i && Boundary(s, r)
    ensures forall j :: r < j <= i ==> !Boundary(s, j)
  {
    if i == 0 || Boundary(s, i) then i else FloorOf(s, i - 1)
  }

  /** The least boundary at or above `i`; past the end of the string `i` itself. */
  function CeilOf(s: Bytes, i: nat): (r: nat)
    ensures if i <= |s| then i <= r <= |s| && Boundary(s, r) else r == i
    ensures forall j :: i <= j < r ==> !Boundary(s, j)
    decreases |s| - i
  {
    if i >= |s| || Boundary(s, i) then i else CeilOf(s, i + 1)
  }

  method FloorCharBoundary(s: Bytes, index: nat) returns (r: nat)
    ensures r == FloorOf(s, index)
  {
    r := index;
    while r > 0 && !Boundary(s, r)
      invariant FloorOf(s, r) == FloorOf(s, index)
    {
      r := r - 1;
    }
  }

  method CeilCharBoundary(s: Bytes, index: nat) returns (r: nat)
    ensures r == CeilOf(s, index)
  {
    r := index;
    while r < |s| && !Boundary(s, r)
      invariant CeilOf(s, r) == CeilOf(s, index)
    {
      r := r + 1;
    }
  }

  lemma FloorIsNear(s: Bytes, i: nat)
    requires Valid(s) && i <= |s|
    ensures i <= FloorOf(s, i) + 3
  {
    if FloorOf(s, i) + 3 < i {
      assert !Boundary(s, i) && !Boundary(s, i - 1) && !Boundary(s, i - 2) && !Boundary(s, i - 3);
      ShortTails(s, i - 3);
    }
  }

  lemma CeilIsNear(s: Bytes, i: nat)
    requires Valid(s) && i <= |s|
    ensures CeilOf(s, i) <= i + 3
  {
    if i + 3 < CeilOf(s, i) {
      assert !Boundary(s, i) && !Boundary(s, i + 1) && !Boundary(s, i + 2) && !Boundary(s, i + 3);
      ShortTails(s, i);
    }
  }

  // ---- comment_snippet ----------------------------------------------------------------------------

  function Min(a: nat, b: nat): nat {
    if a < b then a else b
  }

  function WindowStart(body: Bytes, start: nat): (from: nat)
    requires start <= |body|
    ensures from <= start
  {
    FloorOf(body, if start < SNIPPET_RADIUS then 0 else start - SNIPPET_RADIUS)
  }

  function WindowEnd(body: Bytes, end: nat): (to: nat)
    requires end <= |body|
    ensures end <= to <= |body|
  {
    CeilOf(body, Min(end + SNIPPET_RADIUS, |body|))
  }

  function Leading(from: nat): Bytes {
    if from > 0 then ELLIPSIS else []
  }

  function Trailing(body: Bytes, to: nat): Bytes {
    if to < |body| then ELLIPSIS else []
  }

  /** The window `from..to` of the body, marked where it cuts the body. */
  function Cut(body: Bytes, from: nat, to: nat, start: nat, end: nat): Snippet
    requires from <= start <= end <= to <= |body|
  {
    var lead := Leading(from);
    Snippet(lead + body[from..to] + Trailing(body, to), |lead| + (start - from), |lead| + (end - from))
  }

  /** The snippet for a match at `start..end`: the window around it. */
  function SnippetOf(body: Bytes, start: nat, end: nat): Snippet
    requires start <= end <= |body|
  {
    Cut(body, WindowStart(body, start), WindowEnd(body, end), start, end)
  }

  /** What a range that is still reversed after clamping runs into, with overflow checks on. */
  datatype Panic = SliceOutOfOrder | SubtractionOverflow

  /** Any range is taken; only one that stays reversed after clamping to the body fails. */
  method CommentSnippet(body: Bytes, range: Range) returns (r: Result<Snippet, Panic>)
    ensures var start, end := Min(range.start, |body|), Min(range.end, |body|);
            && (r.Ok? <==> start <= end)
            && (r.Ok? ==> r.value == SnippetOf(body, start, end))
            && (r == Err(SliceOutOfOrder) <==> WindowEnd(body, end) < WindowStart(body, start))
  {
    var matchStart := Min(range.start, |body|);
    var matchEnd := Min(range.end, |body|);
    var rawStart := if matchStart < SNIPPET_RADIUS then 0 else matchStart - SNIPPET_RADIUS;
    var rawEnd := Min(matchEnd + SNIPPET_RADIUS, |body|);
    var windowStart := FloorCharBoundary(body, rawStart);
    var windowEnd := CeilCharBoundary(body, rawEnd);
    assert windowStart == WindowStart(body, matchStart) && windowEnd == WindowEnd(body, matchEnd);

    var text: Bytes := [];
    var adjustedStart := matchStart - windowStart;
    if windowStart > 0 {
      text := text + ELLIPSIS;
      adjustedStart := adjustedStart + |ELLIPSIS|;
    }
    assert text == Leading(windowStart) && adjustedStart == |Leading(windowStart)| + (matchStart - windowStart);
    if windowEnd < windowStart {
      return Err(SliceOutOfOrder);
    }
    text := text + body[windowStart..windowEnd];
    if windowEnd < |body| {
      text := text + ELLIPSIS;
    }
    assert text == Leading(windowStart) + body[windowStart..windowEnd] + Trailing(body, windowEnd);
    if matchEnd < matchStart {
      return Err(SubtractionOverflow);
    }
    var adjustedEnd := adjustedStart + (matchEnd - matchStart);
    assert Snippet(text, adjustedStart, adjustedEnd) == Cut(body, windowStart, windowEnd, matchStart, matchEnd);
    return Ok(Snippet(text, adjustedStart, adjustedEnd));
  }

  lemma EllipsisValid()
    ensures Valid(ELLIPSIS) && Valid([])
  {
    OneChar(ELLIPSIS);
    assert ELLIPSIS[..3] == ELLIPSIS;
  }

  lemma MarkersValid(body: Bytes, from: nat, to: nat)
    ensures Valid(Leading(from)) && Valid(Trailing(body, to))
  {
    EllipsisValid();
  }

  lemma CutIsValid(body: Bytes, from: nat, to: nat, start: nat, end: nat)
    requires from <= start <= end <= to <= |body|
    requires Valid(body) && Boundary(body, from) && Boundary(body, to)
    ensures Valid(Cut(body, from, to, start, end).text)
  {
    MarkersValid(body, from, to);
    ValidSlice(body, from, to);
    ValidConcat(Leading(from), body[from..to]);
    ValidConcat(Leading(from) + body[from..to], Trailing(body, to));
  }

  lemma SnippetIsValid(body: Bytes, start: nat, end: nat)
    requires Valid(body) && start <= end <= |body|
    ensures Valid(SnippetOf(body, start, end).text)
  {
    CutIsValid(body, WindowStart(body, start), WindowEnd(body, end), start, end);
  }

  /** 40 bytes of context and at most 3 of snapping on each side, and two ellipses of 3 bytes. */
  lemma SnippetIsShort(body: Bytes, start: nat, end: nat)
    requires Valid(body) && start <= end <= |body|
    ensures |SnippetOf(body, start, end).text| <= (end - start) + 92
  {
    FloorIsNear(body, if start < SNIPPET_RADIUS then 0 else start - SNIPPET_RADIUS);
    CeilIsNear(body, Min(end + SNIPPET_RADIUS, |body|));
  }

  lemma Embedded(lead: Bytes, s: Bytes, trail: Bytes, i: nat, j: nat)
    requires i <= j <= |s|
    ensures (lead + s + trail)[|lead| + i..|lead| + j] == s[i..j]
  {
  }

  lemma SliceOfSlice(s: Bytes, from: nat, to: nat, i: nat, j: nat)
    requires from <= i <= j <= to <= |s|
    ensures s[from..to][i - from..j - from] == s[i..j]
  {
    var t := s[from..to][i - from..j - from];
    assert |t| == j - i;
    assert forall k :: 0 <= k < |t| ==> t[k] == s[from..to][i - from + k];
  }

  lemma CutMarksMatch(body: Bytes, from: nat, to: nat, start: nat, end: nat)
    requires from <= start <= end <= to <= |body|
    ensures var r := Cut(body, from, to, start, end);
            r.matchStart <= r.matchEnd <= |r.text| && r.text[r.matchStart..r.matchEnd] == body[start..end]
  {
    Embedded(Leading(from), body[from..to], Trailing(body, to), start - from, end - from);
    SliceOfSlice(body, from, to, start, end);
  }

  lemma EmbeddedBoundary(lead: Bytes, s: Bytes, trail: Bytes, i: nat)
    requires i <= |s| && Boundary(s, i)
    requires s != [] ==> !IsTail(s[0])
    requires trail != [] ==> !IsTail(trail[0])
    ensures Boundary(lead + s + trail, |lead| + i)
  {
    var t := lead + s + trail;
    if i < |s| {
      assert t[|lead| + i] == s[i];
    } else if trail != [] {
      assert t[|lead| + i] == trail[0];
    }
  }

  lemma SliceBoundary(s: Bytes, from: nat, to: nat, i: nat)
    requires from <= i <= to <= |s| && Boundary(s, i)
    ensures Boundary(s[from..to], i - from)
  {
    assert i < to ==> s[from..to][i - from] == s[i];
  }

  lemma CutKeepsBoundary(body: Bytes, from: nat, to: nat, i: nat)
    requires from <= i <= to <= |body| && Boundary(body, from) && Boundary(body, i)
    requires body != [] ==> !IsTail(body[0])
    ensures Boundary(Leading(from) + body[from..to] + Trailing(body, to), |Leading(from)| + (i - from))
  {
    SliceBoundary(body, from, to, i);
    assert from < to ==> body[from..to][0] == body[from];
    EmbeddedBoundary(Leading(from), body[from..to], Trailing(body, to), i - from);
  }

  /** The marks lie on character boundaries of the text and enclose the match. */
  predicate Marks(r: Snippet, matched: Bytes) {
    && r.matchStart <= r.matchEnd <= |r.text| && r.text[r.matchStart..r.matchEnd] == matched
    && Boundary(r.text, r.matchStart) && Boundary(r.text, r.matchEnd)
  }

  lemma CutMarks(body: Bytes, from: nat, to: nat, start: nat, end: nat)
    requires from <= start <= end <= to <= |body| && Boundary(body, from)
    requires Boundary(body, start) && Boundary(body, end)
    requires body != [] ==> !IsTail(body[0])
    ensures Marks(Cut(body, from, to, start, end), body[start..end])
  {
    CutMarksMatch(body, from, to, start, end);
    CutKeepsBoundary(body, from, to, start);
    CutKeepsBoundary(body, from, to, end);
  }

  /** The marked slice is the matched slice of the body, the text is valid, and it is short. */
  lemma SnippetShowsMatch(body: Bytes, start: nat, end: nat)
    requires Valid(body) && start <= end <= |body| && Boundary(body, start) && Boundary(body, end)
    ensures Shows(SnippetOf(body, start, end), body[start..end])
  {
    SnippetIsValid(body, start, end);
    SnippetIsShort(body, start, end);
    CutMarks(body, WindowStart(body, start), WindowEnd(body, end), start, end);
  }

  /** Whatever the range, the marks lie in the text and enclose the same bytes. */
  lemma SnippetMarksMatch(body: Bytes, start: nat, end: nat)
    requires start <= end <= |body|
    ensures var r := SnippetOf(body, start, end);
            r.matchStart <= r.matchEnd <= |r.text| && r.text[r.matchStart..r.matchEnd] == body[start..end]
  {
    CutMarksMatch(body, WindowStart(body, start), WindowEnd(body, end), start, end);
  }

  predicate Shows(r: Snippet, matched: Bytes) {
    Valid(r.text) && |r.text| <= |matched| + 92 && Marks(r, matched)
  }

  /** `i` is the last boundary not after `limit`. */
  ghost predicate LastBoundary(s: Bytes, i: nat, limit: nat) {
    i <= limit && Boundary(s, i) && forall j :: i < j <= limit ==> !Boundary(s, j)
  }

  /** `i` is the first boundary not before `limit`. */
  ghost predicate FirstBoundary(s: Bytes, i: nat, limit: nat) {
    limit <= i && Boundary(s, i) && forall j :: limit <= j < i ==> !Boundary(s, j)
  }

  /** `r` is the bytes `from..to` of the body, with an ellipsis on each side where they stop short of it. */
  ghost predicate IsWindow(r: Snippet, body: Bytes, start: nat, end: nat, from: nat, to: nat) {
    && from <= start <= end <= to <= |body|
    && r.text == (if from > 0 then [0xE2, 0x80, 0xA6] else []) + body[from..to]
                 + (if to < |body| then [0xE2, 0x80, 0xA6] else [])
    && r.matchStart == (if from > 0 then 3 else 0) + (start - from)
    && r.matchEnd == (if from > 0 then 3 else 0) + (end - from)
  }

  /** The window reaches 40 bytes to each side, or as far as the body goes, and from there outward to a boundary. */
  lemma SnippetShowsContext(body: Bytes, start: nat, end: nat) returns (from: nat, to: nat)
    requires start <= end <= |body|
    ensures LastBoundary(body, from, if start < 40 then 0 else start - 40)
    ensures FirstBoundary(body, to, if end + 40 <= |body| then end + 40 else |body|)
    ensures IsWindow(SnippetOf(body, start, end), body, start, end, from, to)
  {
    from, to := WindowStart(body, start), WindowEnd(body, end);
  }

  /** The search as a whole: what a comment row marks is the first match, letter case aside. */
  lemma SearchMarksFirstMatch(body: Bytes, needle: Bytes)
    requires Valid(body) && Valid(needle) && FindAsciiCi(body, needle).Some?
    ensures var found := FindAsciiCi(body, needle).value;
            && found.start <= found.end <= |body|
            && MatchesAt(body, needle, found.start) && found.end == found.start + |needle|
            && (forall j :: 0 <= j < found.start ==> !MatchesAt(body, needle, j))
            && Shows(SnippetOf(body, found.start, found.end), body[found.start..found.end])
  {
    var found := FindAsciiCi(body, needle).value;
    FindsFirst(body, needle);
    FindsOnBoundaries(body, needle);
    SnippetShowsMatch(body, found.start, found.end);
  }
}
