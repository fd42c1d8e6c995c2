/**
 Wrapping one line of text to a width: break at the last gap that fits, force a break inside a word
 that does not, cut the last allowed line with an ellipsis.
 */
module Wrap {
  import opened Base

  const ELLIPSIS := "..."

  predicate IsSpace(c: char) {
    c == ' ' || c == '\t' || c == '\n' || c == '\r' || c == '\U{000C}'
  }

  lemma IsSpaceMeans(c: char)
    ensures IsSpace(c) <==> c in {' ', '\t', '\n', '\r', '\U{000C}'}
  {
  }

  // ----- gaps between words -----

  /** Where the run of non-spaces starting at i ends. */
  function WordEnd(s: string, i: nat): (j: nat)
    requires i <= |s|
    ensures i <= j <= |s|
    decreases |s| - i
  {
    if i < |s| && !IsSpace(s[i]) then WordEnd(s, i + 1) else i
  }

  /** Where the run of spaces starting at i ends. */
  function GapEnd(s: string, i: nat): (j: nat)
    requires i <= |s|
    ensures i <= j <= |s|
    decreases |s| - i
  {
    if i < |s| && IsSpace(s[i]) then GapEnd(s, i + 1) else i
  }

  lemma {:induction false} WordEndIsFirstSpace(s: string, i: nat)
    requires i <= |s|
    ensures forall k :: i <= k < WordEnd(s, i) ==> !IsSpace(s[k])
    ensures WordEnd(s, i) < |s| ==> IsSpace(s[WordEnd(s, i)])
    decreases |s| - i
  {
    if i >= |s| || IsSpace(s[i]) {
    } else {
      WordEndIsFirstSpace(s, i + 1);
    }
  }

  lemma {:induction false} GapEndIsFirstInk(s: string, i: nat)
    requires i <= |s|
    ensures IsGap(s, i, GapEnd(s, i))
    ensures GapEnd(s, i) < |s| ==> !IsSpace(s[GapEnd(s, i)])
    ensures i < |s| && IsSpace(s[i]) ==> i < GapEnd(s, i)
    decreases |s| - i
  {
    if i >= |s| || !IsSpace(s[i]) {
    } else {
      GapEndIsFirstInk(s, i + 1);
    }
  }

  /** The maximal runs of spaces from i on, left to right. */
  function Gaps(s: string, i: nat): seq<(nat, nat)>
    requires i <= |s|
    decreases |s| - i, 1
  {
    var j := WordEnd(s, i);
    if j == |s| then [] else GapsAfter(s, j)
  }

  /** The runs from j on, where a run starts at j. */
  function GapsAfter(s: string, j: nat): seq<(nat, nat)>
    requires j < |s|
    decreases |s| - j, 0
  {
    var g := GapEnd(s, j);
    if g == j then [] else [(j, g)] + Gaps(s, g)
  }

  ghost predicate IsGap(s: string, i: int, j: int) {
    0 <= i <= j <= |s| && forall k :: i <= k < j ==> IsSpace(s[k])
  }

  ghost predicate GapsOk(s: string, from: nat, gaps: seq<(nat, nat)>) {
    && (forall k :: 0 <= k < |gaps| ==> from <= gaps[k].0 < gaps[k].1 <= |s| && IsGap(s, gaps[k].0, gaps[k].1))
    && (forall k :: 0 < k < |gaps| ==> gaps[k - 1].1 < gaps[k].0)
  }

  lemma GapsStep(s: string, i: nat)
    requires i <= |s|
    ensures var j := WordEnd(s, i);
            && (j == |s| ==> Gaps(s, i) == [])
            && (j < |s| ==> j < GapEnd(s, j) && Gaps(s, i) == [(j, GapEnd(s, j))] + Gaps(s, GapEnd(s, j)))
  {
    WordEndIsFirstSpace(s, i);
    if WordEnd(s, i) < |s| {
      GapEndIsFirstInk(s, WordEnd(s, i));
    }
    hide WordEnd, GapEnd, IsSpace;
  }

  lemma {:induction false} GapsAreOk(s: string, i: nat)
    requires i <= |s|
    ensures GapsOk(s, i, Gaps(s, i))
    ensures Gaps(s, i) == [] <==> WordEnd(s, i) == |s|
    ensures Gaps(s, i) != [] ==> Gaps(s, i)[0] == (WordEnd(s, i), GapEnd(s, WordEnd(s, i)))
                                 && Gaps(s, i)[1..] == Gaps(s, Gaps(s, i)[0].1)
    decreases |s| - i
  {
    var j := WordEnd(s, i);
    GapsStep(s, i);
    if j >= |s| {
    } else {
      var g := GapEnd(s, j);
      GapEndIsFirstInk(s, j);
      WordEndIsFirstSpace(s, g);
      hide WordEnd, GapEnd, Gaps, IsSpace;
      GapsAreOk(s, g);
      GapsMore(s, i, j, g, Gaps(s, g));
    }
  }

  lemma GapsMore(s: string, i: nat, j: nat, g: nat, rest: seq<(nat, nat)>)
    requires i <= j < g <= |s| && IsGap(s, j, g) && GapsOk(s, g, rest) && (rest != [] ==> g < rest[0].0)
    ensures GapsOk(s, i, [(j, g)] + rest)
  {
    hide IsGap;
    var gaps := [(j, g)] + rest;
    assert forall k :: 0 < k < |gaps| ==> gaps[k] == rest[k - 1];
  }

  // ----- where lines break -----

  /** A run of white space begins here. */
  predicate GapBegins(s: string, g: int) {
    0 <= g < |s| && IsSpace(s[g]) && (g == 0 || !IsSpace(s[g - 1]))
  }

  ghost predicate NoGapWithin(s: string, a: int, b: int) {
    forall g :: a < g <= b ==> !GapBegins(s, g)
  }

  ghost predicate GapBeyond(s: string, a: int) {
    exists g :: a < g && GapBegins(s, g)
  }

  /** The gaps found are those that begin anywhere in the text, each up to its end. */
  lemma {:induction false} GapsAreAll(s: string, i: nat)
    requires i <= |s| && (i == 0 || i == |s| || !IsSpace(s[i]))
    ensures forall k :: 0 <= k < |Gaps(s, i)| ==>
              GapBegins(s, Gaps(s, i)[k].0) && Gaps(s, i)[k].1 == GapEnd(s, Gaps(s, i)[k].0)
    ensures forall g :: i <= g && GapBegins(s, g) ==> exists k :: 0 <= k < |Gaps(s, i)| && Gaps(s, i)[k].0 == g
    decreases |s| - i
  {
    var j := WordEnd(s, i);
    WordEndIsFirstSpace(s, i);
    GapsAreOk(s, i);
    if j >= |s| {
    } else {
      var gap := GapEnd(s, j);
      GapEndIsFirstInk(s, j);
      GapsAreAll(s, gap);
      var gaps := Gaps(s, i);
      assert gaps == [(j, gap)] + Gaps(s, gap);
      forall g | i <= g && GapBegins(s, g) ensures exists k :: 0 <= k < |gaps| && gaps[k].0 == g {
        if g == j {
          assert gaps[0].0 == g;
        } else {
          assert g >= gap;
          var k :| 0 <= k < |Gaps(s, gap)| && Gaps(s, gap)[k].0 == g;
          assert gaps[k + 1].0 == g;
        }
      }
    }
  }

  /** A line is taken up where the last one left off; but a gap that stands there alone, before a word
      that reaches beyond the width, is skipped. */
  ghost predicate SkipsGap(s: string, p: int, w: int) {
    GapBegins(s, p) && GapBeyond(s, p + w) && NoGapWithin(s, p, p + w)
  }

  ghost predicate StartsRight(s: string, p: int, a: int, w: int) {
    if SkipsGap(s, p, w) then a == GapEnd(s, p) else a == p
  }

  /** If a gap begins beyond the width, the line ends where the last gap within the width begins, and at
      the width if there is none. Otherwise it is one of the last lines, which end at the width. */
  ghost predicate StopsRight(s: string, a: int, b: int, w: int) {
    if !GapBeyond(s, a + w) then b == Min(a + w, |s|)
    else if NoGapWithin(s, a, a + w) then b == a + w
    else a < b <= a + w && GapBegins(s, b) && NoGapWithin(s, b, a + w)
  }

  /** Where the text is taken up after a line: behind the gap it ended at, or where it was cut; after a
      word cut in the very first line, a prefix length too early. */
  ghost function ResumeAfter(s: string, a: int, b: int, w: int, back: int): int {
    if !GapBeyond(s, a + w) then b
    else if GapBegins(s, b) then GapEnd(s, b)
    else b - back
  }

  /** The room for line k: every line but the first loses that of the prefix. */
  function Room(width: int, p: int, k: int): int {
    if k == 0 then width else width - p
  }

  lemma RoomMeans(width: int, p: int, k: int)
    ensures Room(width, p, 0) == width && (k > 0 ==> Room(width, p, k) == width - p)
  {
  }

  ghost function ResumeOf(s: string, spans: seq<(int, int)>, width: int, p: int): int {
    if spans == [] then 0
    else
      var k := |spans| - 1;
      ResumeAfter(s, spans[k].0, spans[k].1, Room(width, p, k), if k == 0 then p else 0)
  }

  ghost predicate SpanOk(s: string, spans: seq<(int, int)>, width: int, p: int, k: int)
    requires 0 <= k < |spans|
  {
    && 0 <= spans[k].0 < spans[k].1 <= |s|
    && StartsRight(s, ResumeOf(s, spans[..k], width, p), spans[k].0, Room(width, p, k))
    && StopsRight(s, spans[k].0, spans[k].1, Room(width, p, k))
  }

  /** Every line starts and stops where it should. */
  ghost predicate SpansOk(s: string, spans: seq<(int, int)>, width: int, p: int) {
    forall k :: 0 <= k < |spans| ==> SpanOk(s, spans, width, p, k)
  }

  lemma SpansMore(s: string, spans: seq<(int, int)>, width: int, p: int, a: int, b: int)
    requires SpansOk(s, spans, width, p) && 0 <= a < b <= |s|
    requires StartsRight(s, ResumeOf(s, spans, width, p), a, Room(width, p, |spans|))
    requires StopsRight(s, a, b, Room(width, p, |spans|))
    ensures SpansOk(s, spans + [(a, b)], width, p)
  {
    hide StartsRight, StopsRight, ResumeOf;
    var spans' := spans + [(a, b)];
    assert spans'[..|spans|] == spans;
    forall k | 0 <= k < |spans| ensures SpanOk(s, spans', width, p, k) {
      assert SpanOk(s, spans, width, p, k) && spans'[..k] == spans[..k];
    }
  }

  /** The body of a line: its part of the text, or what leaves room for the ellipsis. */
  function Body(s: string, a: int, b: int, w: int, cut: bool): string
    requires 0 <= a <= b <= |s| && (cut ==> w >= |ELLIPSIS|)
  {
    if cut then s[a..b][..Min(b - a, w - |ELLIPSIS|)] + ELLIPSIS else s[a..b]
  }

  /** Which gap ends the first word. */
  ghost function FirstGap(s: string): nat {
    if GapEnd(s, 0) > 0 then 1 else 0
  }

  lemma FirstWord(s: string)
    ensures var gaps, lead, first := Gaps(s, 0), GapEnd(s, 0), FirstGap(s);
            && GapsOk(s, 0, gaps)
            && (first == 1 ==> gaps != [] && gaps[0] == (0, lead))
            && (first < |gaps| ==> lead < gaps[first].0 == WordEnd(s, lead))
            && (|gaps| <= first ==> WordEnd(s, lead) == |s|)
  {
    var lead := GapEnd(s, 0);
    GapsAreOk(s, 0);
    GapEndIsFirstInk(s, 0);
    WordEndIsFirstSpace(s, 0);
    WordEndIsFirstSpace(s, lead);
    if lead > 0 {
      assert IsSpace(s[0]);
      GapsAreOk(s, lead);
      var gaps := Gaps(s, 0);
      assert |gaps| > 1 ==> gaps[1] == gaps[1..][0];
    }
  }

  // ----- the content of text: what is left when spaces are dropped -----

  function InkOf(s: string, i: nat, j: nat): string
    requires j <= |s|
    decreases j
  {
    if j <= i then [] else InkOf(s, i, j - 1) + if IsSpace(s[j - 1]) then [] else [s[j - 1]]
  }

  function Ink(s: string): string {
    InkOf(s, 0, |s|)
  }

  function InkAll(lines: seq<string>): string {
    if lines == [] then [] else InkAll(lines[..|lines| - 1]) + Ink(lines[|lines| - 1])
  }

  lemma {:induction false} InkSplit(s: string, i: nat, j: nat, k: nat)
    requires i <= j <= k <= |s|
    ensures InkOf(s, i, k) == InkOf(s, i, j) + InkOf(s, j, k)
    decreases k
  {
    if j >= k {
    } else {
      InkSplit(s, i, j, k - 1);
    }
  }

  lemma {:induction false} InkOfSlice(s: string, i: nat, j: nat, n: nat)
    requires i <= j <= |s| && n <= j - i
    ensures InkOf(s[i..j], 0, n) == InkOf(s, i, i + n)
  {
    if n == 0 {
    } else {
      InkOfSlice(s, i, j, n - 1);
    }
  }

  lemma {:induction false} InkOfGap(s: string, i: nat, j: nat)
    requires i <= j && IsGap(s, i, j)
    ensures InkOf(s, i, j) == []
    decreases j
  {
    if i >= j {
    } else {
      InkOfGap(s, i, j - 1);
    }
  }

  // ----- what wrapping must deliver -----

  /** Is there room? Every line needs a character of progress; a line that may be cut needs room for
      the ellipsis; every line but the first loses the room of the prefix. */
  predicate Roomy(width: int, maxLineWrap: int, prefix: string) {
    if maxLineWrap == 1 then width >= |ELLIPSIS|
    else if maxLineWrap > 1 then width - |prefix| >= |ELLIPSIS|
    else width - |prefix| >= 1
  }

  /** The first word is followed by a space but does not fit: the first line is a forced break. */
  predicate ForcedFirst(s: string, width: int) {
    var lead := GapEnd(s, 0);
    var end := WordEnd(s, lead);
    end < |s| && end - lead > width
  }

  /** Ink of the text up to `head`, then of the text from `from` up to `x`. */
  ghost function Emitted(s: string, head: nat, from: nat, x: nat): string
    requires head <= |s| && x <= |s|
  {
    if head == 0 then InkOf(s, from, x) else InkOf(s, 0, head) + InkOf(s, from, x)
  }

  lemma EmittedAdvances(s: string, head: nat, from: nat, x: nat, y: nat)
    requires head <= |s| && from <= x <= y <= |s|
    ensures Emitted(s, head, from, y) == Emitted(s, head, from, x) + InkOf(s, x, y)
    ensures IsGap(s, x, y) ==> Emitted(s, head, from, y) == Emitted(s, head, from, x)
  {
    hide InkOf;
    InkSplit(s, from, x, y);
    var a, b, c := InkOf(s, 0, head), InkOf(s, from, x), InkOf(s, x, y);
    assert a + (b + c) == (a + b) + c;
    if IsGap(s, x, y) {
      InkOfGap(s, x, y);
      assert Emitted(s, head, from, x) + [] == Emitted(s, head, from, x);
    }
  }

  /** The ink of the wrapped text: that of the input, except that after a forced first line the text
      is taken up again a prefix length too early. */
  ghost function Expected(s: string, width: nat, p: nat): string {
    if ForcedFirst(s, width) then
      var cut := GapEnd(s, 0) + width;
      Emitted(s, cut, if cut < p then 0 else cut - p, |s|)
    else
      Ink(s)
  }

  lemma {:induction false} InkOfWord(s: string, i: nat, j: nat)
    requires i <= j <= |s| && forall k :: i <= k < j ==> !IsSpace(s[k])
    ensures |InkOf(s, i, j)| == j - i
    decreases j
  {
    if i >= j {
    } else {
      InkOfWord(s, i, j - 1);
    }
  }

  /** Wrapping keeps the content exactly unless the first line is a forced break, and then exactly a
      prefix length of characters comes twice. */
  lemma ContentPreservedIff(s: string, width: nat, p: nat)
    requires p <= width
    ensures |Expected(s, width, p)| == |Ink(s)| + if ForcedFirst(s, width) then p else 0
    ensures Expected(s, width, p) == Ink(s) <==> !ForcedFirst(s, width) || p == 0
  {
    if ForcedFirst(s, width) {
      var lead := GapEnd(s, 0);
      var cut := lead + width;
      WordEndIsFirstSpace(s, lead);
      InkSplit(s, 0, cut, |s|);
      InkSplit(s, cut - p, cut, |s|);
      InkOfWord(s, cut - p, cut);
    }
  }

  /** The lines written so far, each either whole text or, with the prefix, a continuation. */
  ghost predicate LinesOk(out: seq<string>, bodies: seq<string>, width: int, maxLineWrap: int, prefix: string) {
    && |out| == |bodies|
    && (forall i :: 0 <= i < |out| ==> out[i] == (if i == 0 then "" else prefix) + bodies[i])
    && (forall i :: 0 <= i < |out| ==> |out[i]| <= width)
    && (maxLineWrap > 0 ==> |out| <= maxLineWrap)
  }

  ghost predicate Initial(a: string, c: string) {
    exists rest: string :: c == a + rest
  }

  lemma InitialOf(a: string, b: string, c: string)
    requires Initial(a + b, c)
    ensures Initial(a, c)
  {
    var rest: string :| c == a + b + rest;
    assert c == a + (b + rest);
  }

  lemma InitialSelf(a: string)
    ensures Initial(a, a)
  {
    assert a == a + [];
  }

  lemma InitialPart(a: string, b: string)
    ensures Initial(a, a + b)
  {
  }

  /** The last allowed line was cut: it ends in the ellipsis, and the ink up to the cut is an initial
      part of what the whole text gives. */
  ghost predicate CutOff(expected: string, maxLineWrap: int, bodies: seq<string>) {
    && maxLineWrap > 0 && |bodies| == maxLineWrap
    && var last := bodies[|bodies| - 1];
       && |last| >= |ELLIPSIS|
       && last[|last| - |ELLIPSIS|..] == ELLIPSIS
       && Initial(InkAll(bodies[..|bodies| - 1]) + Ink(last[..|last| - |ELLIPSIS|]), expected)
  }

  lemma {:induction false} WroteWhole(s: string, bodies: seq<string>, head: nat, from: nat, a: nat, b: nat)
    requires head <= |s| && from <= a <= b <= |s|
    requires InkAll(bodies) == Emitted(s, head, from, a)
    ensures InkAll(bodies + [s[a..b]]) == Emitted(s, head, from, b)
  {
    hide Emitted, InkOf;
    EmittedAdvances(s, head, from, a, b);
    InkOfSlice(s, a, b, b - a);
    assert (bodies + [s[a..b]])[..|bodies|] == bodies;
  }

  lemma CutInk(s: string, ink: string, head: nat, from: nat, a: nat, m: nat, x: nat, expected: string)
    requires head <= |s| && from <= a <= m <= x <= |s|
    requires ink == Emitted(s, head, from, a) && Initial(Emitted(s, head, from, x), expected)
    ensures Initial(ink + Ink(s[a..m]), expected)
  {
    hide InkOf, Emitted, Initial;
    InkOfSlice(s, a, m, m - a);
    EmittedAdvances(s, head, from, a, m);
    EmittedAdvances(s, head, from, m, x);
    InitialOf(Emitted(s, head, from, m), InkOf(s, m, x), expected);
  }

  lemma CutLine(bodies: seq<string>, line: string, maxLineWrap: int, expected: string)
    requires maxLineWrap > 0 && |bodies| + 1 == maxLineWrap
    requires Initial(InkAll(bodies) + Ink(line), expected)
    ensures CutOff(expected, maxLineWrap, bodies + [line + ELLIPSIS])
  {
    var last := line + ELLIPSIS;
    assert last[..|last| - |ELLIPSIS|] == line && last[|last| - |ELLIPSIS|..] == ELLIPSIS;
    assert (bodies + [last])[..|bodies|] == bodies;
  }

  // Where the text is taken up again once a line is written: only a forced first line matters.

  ghost function Head(s: string, width: nat, started: bool): nat {
    if started && ForcedFirst(s, width) then GapEnd(s, 0) + width else 0
  }

  ghost function From(s: string, width: nat, p: nat, started: bool): nat {
    var head := Head(s, width, started);
    if head < p then 0 else if head == 0 then 0 else head - p
  }

  /** Everything up to x, and nothing else, is written; up to the repetition after a forced first line. */
  ghost predicate Tracks(s: string, width: nat, p: nat, bodies: seq<string>, x: int) {
    var head, from := Head(s, width, bodies != []), From(s, width, p, bodies != []);
    && head <= |s| && from <= x <= |s|
    && InkAll(bodies) == Emitted(s, head, from, x)
  }

  lemma NoInk(s: string)
    ensures InkOf(s, 0, 0) == []
  {
  }

  lemma ExpectedIsEmitted(s: string, width: nat, p: nat)
    ensures ForcedFirst(s, width) ==> GapEnd(s, 0) + width <= |s|
    ensures Emitted(s, Head(s, width, true), From(s, width, p, true), |s|) == Expected(s, width, p)
    ensures ForcedFirst(s, width) ==> Initial(Emitted(s, 0, 0, GapEnd(s, 0) + width), Expected(s, width, p))
  {
    hide InkOf;
    NoInk(s);
    if ForcedFirst(s, width) {
      var cut := GapEnd(s, 0) + width;
      InitialPart(InkOf(s, 0, cut), InkOf(s, From(s, width, p, true), |s|));
    }
  }

  /** What may be written as the first line when the first word does not fit. */
  predicate ChunkOk(s: string, width: nat, first: bool, a: int, b: int) {
    && 0 <= a < b <= |s|
    && (first && ForcedFirst(s, width) ==> a == GapEnd(s, 0) && b == a + width)
  }

  lemma TracksWhole(s: string, width: nat, p: nat, bodies: seq<string>, a: int, b: int)
    requires Tracks(s, width, p, bodies, a) && ChunkOk(s, width, bodies == [], a, b)
    requires bodies == [] ==> p <= width
    ensures Tracks(s, width, p, bodies + [s[a..b]], if bodies == [] && ForcedFirst(s, width) then b - p else b)
  {
    WroteWhole(s, bodies, Head(s, width, bodies != []), From(s, width, p, bodies != []), a, b);
    if bodies == [] && ForcedFirst(s, width) {
      assert Emitted(s, b, b - p, b - p) == InkOf(s, 0, b) + [];
    }
  }

  lemma TracksToEnd(s: string, width: nat, p: nat, bodies: seq<string>, a: int)
    requires Tracks(s, width, p, bodies, a) && ChunkOk(s, width, bodies == [], a, |s|)
    ensures InkAll(bodies + [s[a..|s|]]) == Expected(s, width, p)
  {
    var head, from := Head(s, width, bodies != []), From(s, width, p, bodies != []);
    WroteWhole(s, bodies, head, from, a, |s|);
    ExpectedIsEmitted(s, width, p);
    if bodies == [] {
      assert !ForcedFirst(s, width);
    }
  }

  lemma TracksAll(s: string, width: nat, p: nat, bodies: seq<string>)
    requires Tracks(s, width, p, bodies, |s|) && bodies != []
    ensures InkAll(bodies) == Expected(s, width, p)
  {
    ExpectedIsEmitted(s, width, p);
  }

  lemma TracksCut(s: string, width: nat, p: nat, maxLineWrap: int, bodies: seq<string>, a: int, b: int, room: nat)
    requires Tracks(s, width, p, bodies, a) && ChunkOk(s, width, bodies == [], a, b)
    requires maxLineWrap > 0 && |bodies| + 1 == maxLineWrap
    ensures CutOff(Expected(s, width, p), maxLineWrap, bodies + [s[a..b][..Min(b - a, room)] + ELLIPSIS])
  {
    hide InkOf, Emitted, Initial, InkAll, Expected;
    var head, from := Head(s, width, bodies != []), From(s, width, p, bodies != []);
    ExpectedIsEmitted(s, width, p);
    var x := if bodies == [] && ForcedFirst(s, width) then b else |s|;
    InitialSelf(Expected(s, width, p));
    var m := a + Min(b - a, room);
    assert s[a..b][..m - a] == s[a..m];
    CutInk(s, InkAll(bodies), head, from, a, m, x, Expected(s, width, p));
    CutLine(bodies, s[a..m], maxLineWrap, Expected(s, width, p));
  }

  lemma TracksAcrossGap(s: string, width: nat, p: nat, bodies: seq<string>, x: int, y: int)
    requires Tracks(s, width, p, bodies, x) && x <= y && IsGap(s, x, y)
    ensures Tracks(s, width, p, bodies, y)
  {
    EmittedAdvances(s, Head(s, width, bodies != []), From(s, width, p, bodies != []), x, y);
  }

  /** A line that is cut ends in three dots, and still fits. */
  lemma CutBody(s: string, a: int, b: int, w: int)
    requires 0 <= a <= b <= |s| && w >= 3
    ensures var body := Body(s, a, b, w, true);
            && 3 <= |body| <= w && body[|body| - 3..] == "..."
            && body[..|body| - 3] == s[a..b][..Min(b - a, w - 3)]
  {
  }

  lemma LinesMore(out: seq<string>, bodies: seq<string>, width: int, maxLineWrap: int, prefix: string, line: string)
    requires LinesOk(out, bodies, width, maxLineWrap, prefix) && (maxLineWrap > 0 ==> |out| < maxLineWrap)
    requires |line| <= Room(width, |prefix|, |out|)
    ensures LinesOk(out + [(if |out| == 0 then "" else prefix) + line], bodies + [line], width, maxLineWrap, prefix)
  {
  }

  /** Every body is what its line shows of the text, the last allowed one cut if text remains. */
  ghost predicate BodiesOk(s: string, spans: seq<(int, int)>, bodies: seq<string>, width: int, maxLineWrap: int,
                           prefix: string) {
    && |bodies| == |spans|
    && forall k :: 0 <= k < |spans| ==>
         && 0 <= spans[k].0 <= spans[k].1 <= |s|
         && var cut := maxLineWrap > 0 && k >= maxLineWrap - 1 && spans[k].1 != |s|;
            (cut ==> Room(width, |prefix|, k) >= |ELLIPSIS|)
            && bodies[k] == Body(s, spans[k].0, spans[k].1, Room(width, |prefix|, k), cut)
  }

  lemma BodiesMore(s: string, spans: seq<(int, int)>, bodies: seq<string>, width: int, maxLineWrap: int,
                   prefix: string, a: int, b: int)
    requires BodiesOk(s, spans, bodies, width, maxLineWrap, prefix) && 0 <= a <= b <= |s|
    requires Roomy(width, maxLineWrap, prefix) && (maxLineWrap > 0 ==> |spans| < maxLineWrap)
    ensures var cut := maxLineWrap > 0 && |spans| >= maxLineWrap - 1 && b != |s|;
            (cut ==> Room(width, |prefix|, |spans|) >= |ELLIPSIS|)
            && BodiesOk(s, spans + [(a, b)], bodies + [Body(s, a, b, Room(width, |prefix|, |spans|), cut)],
                        width, maxLineWrap, prefix)
  {
  }

  /** The writeLine closure with the variables it captures. */
  class LineWriter {
    const s: string
    const fullWidth: int
    const maxLineWrap: int
    const wrapPrefix: string

    var width: int
    var lines: nat
    var done: bool
    var out: seq<string>
    ghost var bodies: seq<string>
    ghost var spans: seq<(int, int)>   // the part of the text that each line shows

    ghost predicate Valid()
      reads this
    {
      && lines == |out| == |bodies| == |spans| && (maxLineWrap > 0 ==> lines <= maxLineWrap)
      && width == fullWidth - (if lines == 0 then 0 else |wrapPrefix|)
      && LinesOk(out, bodies, fullWidth, maxLineWrap, wrapPrefix)
      && (done <==> maxLineWrap > 0 && lines >= maxLineWrap)
      && Roomy(fullWidth, maxLineWrap, wrapPrefix)
      && SpansOk(s, spans, fullWidth, |wrapPrefix|)
      && BodiesOk(s, spans, bodies, fullWidth, maxLineWrap, wrapPrefix)
    }

    /** Where the next line is taken up. */
    ghost function Resume(): int
      reads this
    {
      ResumeOf(s, spans, fullWidth, |wrapPrefix|)
    }

    /** The next line starts here, or a gap here turns out to be skipped. */
    ghost predicate Next(x: int)
      reads this
    {
      x == Resume() || (SkipsGap(s, Resume(), width) && x == GapEnd(s, Resume()))
    }

    constructor (s: string, width: int, maxLineWrap: int, wrapPrefix: string)
      requires Roomy(width, maxLineWrap, wrapPrefix)
      ensures Valid() && lines == 0 && out == bodies == [] && spans == [] && !done
      ensures this.s == s && fullWidth == width && this.maxLineWrap == maxLineWrap && this.wrapPrefix == wrapPrefix
    {
      this.s, fullWidth, this.maxLineWrap, this.wrapPrefix := s, width, maxLineWrap, wrapPrefix;
      this.width, lines, done, out, bodies, spans := width, 0, false, [], [], [];
    }

    method WriteLine(chunkStart: int, chunkEnd: int)
      requires Valid() && !done && 0 <= chunkStart < chunkEnd <= |s| && chunkEnd - chunkStart <= width
      requires StartsRight(s, Resume(), chunkStart, width) && StopsRight(s, chunkStart, chunkEnd, width)
      modifies this
      ensures Valid() && lines == old(lines) + 1 && spans == old(spans) + [(chunkStart, chunkEnd)]
      ensures bodies == old(bodies) + [Body(s, chunkStart, chunkEnd, old(width), done && chunkEnd != |s|)]
    {
      hide StartsRight, StopsRight, ResumeOf, Tracks;
      SpansMore(s, spans, fullWidth, |wrapPrefix|, chunkStart, chunkEnd);
      BodiesMore(s, spans, bodies, fullWidth, maxLineWrap, wrapPrefix, chunkStart, chunkEnd);
      var line := LastCut(chunkStart, chunkEnd);
      LinesMore(out, bodies, fullWidth, maxLineWrap, wrapPrefix, line);
      hide SpansOk, BodiesOk, LinesOk, Body, Roomy;
      done := maxLineWrap > 0 && lines >= maxLineWrap - 1;
      if lines == 0 {
        assert out == [] && "" + line == line;
        out := out + [line];
        width := width - |wrapPrefix|;
      } else {
        out := out + [wrapPrefix + line];
      }
      bodies := bodies + [line];
      spans := spans + [(chunkStart, chunkEnd)];
      lines := lines + 1;
    }

    /** The text of a line, with room made for the ellipsis if it is the last one allowed. */
    method LastCut(chunkStart: int, chunkEnd: int) returns (line: string)
      requires Valid() && !done && 0 <= chunkStart < chunkEnd <= |s| && chunkEnd - chunkStart <= width
      ensures var cut := maxLineWrap > 0 && lines >= maxLineWrap - 1 && chunkEnd != |s|;
              && (cut ==> width >= |ELLIPSIS|) && line == Body(s, chunkStart, chunkEnd, width, cut) && |line| <= width
    {
      line := s[chunkStart..chunkEnd];
      if maxLineWrap > 0 && lines >= maxLineWrap - 1 && chunkEnd != |s| {
        line := line[..Min(|line|, width - |ELLIPSIS|)] + ELLIPSIS;
      }
    }

    ghost predicate Forced() {
      ForcedFirst(s, fullWidth)
    }

    ghost predicate At(x: int)
      reads this
    {
      fullWidth >= 0 && Tracks(s, fullWidth, |wrapPrefix|, bodies, x)
    }

    ghost predicate Ended(cut: bool)
      reads this
    {
      && fullWidth >= 0
      && var expected := Expected(s, fullWidth, |wrapPrefix|);
         if cut then CutOff(expected, maxLineWrap, bodies) else InkAll(bodies) == expected
    }

    method WriteChunk(chunkStart: int, chunkEnd: int)
      requires Valid() && !done && At(chunkStart) && chunkEnd - chunkStart <= width
      requires ChunkOk(s, fullWidth, lines == 0, chunkStart, chunkEnd)
      requires StartsRight(s, Resume(), chunkStart, width) && StopsRight(s, chunkStart, chunkEnd, width)
      modifies this
      ensures Valid() && lines == old(lines) + 1 && spans == old(spans) + [(chunkStart, chunkEnd)]
      ensures Resume() == ResumeAfter(s, chunkStart, chunkEnd, old(width), if old(lines) == 0 then |wrapPrefix| else 0)
      ensures !done ==> At(if old(lines) == 0 && Forced() then chunkEnd - |wrapPrefix| else chunkEnd)
      ensures done ==> Ended(chunkEnd != |s|)
    {
      hide Tracks, CutOff, Expected, Emitted, SpansOk, BodiesOk, StartsRight, StopsRight;
      ghost var before, room := bodies, width - |ELLIPSIS|;
      WriteLine(chunkStart, chunkEnd);
      if !done {
        TracksWhole(s, fullWidth, |wrapPrefix|, before, chunkStart, chunkEnd);
      } else if chunkEnd == |s| {
        TracksToEnd(s, fullWidth, |wrapPrefix|, before, chunkStart);
      } else {
        TracksCut(s, fullWidth, |wrapPrefix|, maxLineWrap, before, chunkStart, chunkEnd, room);
      }
    }

    /** The inner loop: lines cut inside a word until the rest of it fits. */
    method ForceBreaks(from: int, target: int) returns (start: int)
      requires Valid() && !done && 0 <= from <= target < |s| && At(from)
      requires lines == 0 ==> from == GapEnd(s, 0) && target == WordEnd(s, from)
      requires Next(from) && IsWord(s, from, target) && GapBegins(s, target)
      modifies this
      ensures Valid() && lines >= old(lines)
      ensures !done ==> from <= start <= target && target - start <= width && At(start) && Next(start)
      ensures !done && lines == 0 ==> start == from && !Forced()
      ensures done ==> Ended(true) && spans != [] && spans[|spans| - 1].1 != |s|
    {
      hide Tracks, CutOff, Expected, LinesOk, SpansOk, BodiesOk, ResumeOf;
      start := from;
      while target - start > width
        invariant Valid() && !done && from <= start <= target && At(start) && lines >= old(lines)
        invariant lines == 0 ==> start == from
        invariant Next(start)
        decreases target - start
      {
        ForcedRight(s, Resume(), from, start, target, width, if lines == 0 then |wrapPrefix| else 0);
        WriteChunk(start, start + width);
        if done {
          return;
        }
        start := start + width;
      }
    }

    /** The text up to the next gap does not fit: end the line at the last gap, then force what is left. */
    method BreakLine(from: int, gap: (nat, nat), target: int) returns (start: int)
      requires Valid() && !done && At(from)
      requires 0 <= from <= gap.0 <= gap.1 <= target < |s| && gap.0 - from <= width && IsGap(s, gap.0, gap.1)
      requires lines == 0 ==> if from < gap.0 then !Forced() else gap.1 == GapEnd(s, 0) && target == WordEnd(s, gap.1)
      requires Next(from) && target - from > width && LastGap(s, gap, target)
      modifies this
      ensures Valid()
      ensures !done ==> gap.1 <= start <= target && target - start <= width && At(start) && Next(start)
      ensures !done && lines == 0 ==> from == gap.0 && start == gap.1 && !Forced()
      ensures done ==> Ended(true) && spans != [] && spans[|spans| - 1].1 != |s|
    {
      hide Tracks, CutOff, Expected, LinesOk, SpansOk, BodiesOk, ResumeOf;
      start := from;
      BrokenRight(s, Resume(), from, gap, target, width, if lines == 0 then |wrapPrefix| else 0);
      if from < gap.0 {
        WriteChunk(from, gap.0);
      }
      if done {
        return;
      }
      TracksAcrossGap(s, fullWidth, |wrapPrefix|, bodies, gap.0, gap.1);
      start := ForceBreaks(gap.1, target);
    }

    /** The tail loop: the rest of the text, cut wherever the width ends. */
    method WriteTail(from: int) returns (ghost cut: bool)
      requires Valid() && !done && 0 <= from < |s| && At(from)
      requires lines == 0 ==> !Forced()
      requires Next(from) && !GapBeyond(s, from + width)
      modifies this
      ensures Valid() && lines > 0 && Ended(cut)
      ensures if cut then done && spans[|spans| - 1].1 != |s| else Resume() == |s|
    {
      hide Tracks, CutOff, Expected, LinesOk, SpansOk, BodiesOk, ResumeOf;
      var start := from;
      while start < |s|
        invariant Valid() && !done && from <= start <= |s| && At(start)
        invariant lines == 0 ==> !Forced() && start < |s|
        invariant Next(start) && (start < |s| ==> !GapBeyond(s, start + width))
        invariant start == |s| ==> Resume() == |s|
      {
        var rest := Min(|s| - start, width);
        TailRight(s, Resume(), start, width, if lines == 0 then |wrapPrefix| else 0);
        WriteChunk(start, start + rest);
        if done {
          return start + rest != |s|;
        }
        start := start + rest;
        if start < |s| {
          BeyondMore(s, start, width);
        }
      }
      TracksAll(s, fullWidth, |wrapPrefix|, bodies);
      cut := false;
    }
  }

  ghost predicate IsWord(s: string, a: int, b: int) {
    0 <= a <= b <= |s| && forall k :: a <= k < b ==> !IsSpace(s[k])
  }

  /** The gap that begins last before the target, if any: then a word, up to where the target gap begins. */
  ghost predicate LastGap(s: string, gap: (nat, nat), target: int) {
    && gap.0 <= gap.1 && IsWord(s, gap.1, target) && GapBegins(s, target)
    && (forall g :: gap.0 < g < target ==> !GapBegins(s, g))
    && (if gap.0 < gap.1 then GapBegins(s, gap.0) && gap.1 == GapEnd(s, gap.0)
        else gap == (0, 0) && !GapBegins(s, 0))
  }

  /** A line cut inside a word starts and stops where it should, and leaves off inside the word. */
  lemma ForcedRight(s: string, p: int, from: int, start: int, target: int, w: int, back: int)
    requires IsWord(s, from, target) && GapBegins(s, target) && from <= start && target - start > w >= 0
    requires start == p || (SkipsGap(s, p, w) && start == GapEnd(s, p))
    ensures StartsRight(s, p, start, w) && StopsRight(s, start, start + w, w)
    ensures ResumeAfter(s, start, start + w, w, back) == start + w - back
  {
    assert target > start + w;
    assert forall g :: from <= g < target ==> !GapBegins(s, g);
  }

  /** The line before a word that does not fit ends at the last gap; if there is nothing before that gap,
      it is skipped. */
  lemma BrokenRight(s: string, p: int, from: int, gap: (nat, nat), target: int, w: int, back: int)
    requires 0 <= from <= gap.0 && gap.0 - from <= w && target - from > w && LastGap(s, gap, target)
    requires from == p || (SkipsGap(s, p, w) && from == GapEnd(s, p))
    ensures from < gap.0 ==>
              && StartsRight(s, p, from, w) && StopsRight(s, from, gap.0, w)
              && ResumeAfter(s, from, gap.0, w, back) == gap.1
    ensures from == gap.0 ==> gap.1 == p || (SkipsGap(s, p, w) && gap.1 == GapEnd(s, p))
  {
    assert GapBeyond(s, from + w);
    if from != p {
      GapEndIsFirstInk(s, p);
    }
  }

  /** Where no gap begins beyond the width any more, a line ends at the width or with the text. */
  lemma TailRight(s: string, p: int, start: int, w: int, back: int)
    requires 0 <= start < |s| && w > 0 && !GapBeyond(s, start + w)
    requires start == p || (SkipsGap(s, p, w) && start == GapEnd(s, p))
    ensures var b := start + Min(|s| - start, w);
            && StartsRight(s, p, start, w) && StopsRight(s, start, b, w)
            && ResumeAfter(s, start, b, w, back) == b
            && (b < |s| ==> !GapBeyond(s, b))
  {
  }

  lemma BeyondMore(s: string, a: int, w: int)
    requires !GapBeyond(s, a) && w >= 0
    ensures !GapBeyond(s, a + w)
  {
  }

  /** The rule leaves no choice: two outputs break at the same places. */
  lemma {:induction false} BreaksUnique(s: string, spans: seq<(int, int)>, spans': seq<(int, int)>,
                                        width: int, p: int, k: nat)
    requires SpansOk(s, spans, width, p) && SpansOk(s, spans', width, p) && k <= |spans| && k <= |spans'|
    ensures spans[..k] == spans'[..k]
  {
    if k == 0 {
    } else {
      BreaksUnique(s, spans, spans', width, p, k - 1);
      hide ResumeOf;
      var a, w := spans[k - 1].0, Room(width, p, k - 1);
      assert SpanOk(s, spans, width, p, k - 1) && SpanOk(s, spans', width, p, k - 1);
      assert spans'[k - 1].0 == a;
      StopUnique(s, a, spans[k - 1].1, spans'[k - 1].1, w);
      assert spans[..k] == spans[..k - 1] + [spans[k - 1]] && spans'[..k] == spans'[..k - 1] + [spans'[k - 1]];
    }
  }

  lemma StopUnique(s: string, a: int, b: int, b': int, w: int)
    requires StopsRight(s, a, b, w) && StopsRight(s, a, b', w)
    ensures b == b'
  {
  }

  /** The lines of the output for an input that does not fit: `bodies` are the lines without their
      prefix, `spans` says where each starts and stops in the text, and `cut` whether it was cut off. */
  ghost predicate WrappedAs(s: string, out: seq<string>, width: nat, maxLineWrap: int, prefix: string,
                            bodies: seq<string>, spans: seq<(int, int)>, cut: bool) {
    && out != [] && LinesOk(out, bodies, width, maxLineWrap, prefix)
    && SpansOk(s, spans, width, |prefix|) && BodiesOk(s, spans, bodies, width, maxLineWrap, prefix)
    && (if cut then maxLineWrap > 0 && |spans| == maxLineWrap && spans[|spans| - 1].1 != |s|
        else ResumeOf(s, spans, width, |prefix|) == |s|)
    && if cut then CutOff(Expected(s, width, |prefix|), maxLineWrap, bodies)
       else InkAll(bodies) == Expected(s, width, |prefix|)
  }

  ghost predicate Wrapped(s: string, out: seq<string>, width: int, maxLineWrap: int, prefix: string) {
    if |s| <= width then out == [s]
    else width >= 0 && exists bodies, spans, cut :: WrappedAs(s, out, width, maxLineWrap, prefix, bodies, spans, cut)
  }

  /** A line is only ever taken up within the text. */
  lemma TakenUpWithin(s: string, spans: seq<(int, int)>, width: int, p: int, k: nat)
    requires SpansOk(s, spans, width, p) && k < |spans|
    ensures ResumeOf(s, spans[..k], width, p) < |s|
  {
    assert SpanOk(s, spans, width, p, k);
  }

  /** What comes out is determined: by where lines break, the prefix, and the cut of the last line. */
  lemma WrappedUnique(s: string, out: seq<string>, out': seq<string>, width: nat, maxLineWrap: int, prefix: string)
    requires Wrapped(s, out, width, maxLineWrap, prefix) && Wrapped(s, out', width, maxLineWrap, prefix)
    requires Roomy(width, maxLineWrap, prefix)
    ensures out == out'
  {
    if |s| > width {
      var bodies, spans, cut :| WrappedAs(s, out, width, maxLineWrap, prefix, bodies, spans, cut);
      var bodies', spans', cut' :| WrappedAs(s, out', width, maxLineWrap, prefix, bodies', spans', cut');
      hide SpansOk, BodiesOk, LinesOk, Expected, CutOff, InkAll, ResumeOf;
      LinesLimited(s, out, spans, bodies, width, maxLineWrap, prefix);
      LinesLimited(s, out', spans', bodies', width, maxLineWrap, prefix);
      SpansSame(s, spans, spans', width, maxLineWrap, prefix, cut, cut');
      BodiesSame(s, spans, bodies, bodies', width, maxLineWrap, prefix);
      LinesSame(out, out', bodies, width, maxLineWrap, prefix);
    }
  }

  lemma LinesLimited(s: string, out: seq<string>, spans: seq<(int, int)>, bodies: seq<string>, width: int,
                     maxLineWrap: int, prefix: string)
    requires LinesOk(out, bodies, width, maxLineWrap, prefix) && BodiesOk(s, spans, bodies, width, maxLineWrap, prefix)
    ensures |spans| == |out| && (maxLineWrap > 0 ==> |spans| <= maxLineWrap)
  {
  }

  lemma LinesSame(out: seq<string>, out': seq<string>, bodies: seq<string>, width: int, maxLineWrap: int,
                  prefix: string)
    requires LinesOk(out, bodies, width, maxLineWrap, prefix) && LinesOk(out', bodies, width, maxLineWrap, prefix)
    ensures out == out'
  {
    assert |out| == |out'| && forall i :: 0 <= i < |out| ==> out[i] == out'[i];
  }

  lemma BodiesSame(s: string, spans: seq<(int, int)>, bodies: seq<string>, bodies': seq<string>, width: int,
                   maxLineWrap: int, prefix: string)
    requires BodiesOk(s, spans, bodies, width, maxLineWrap, prefix)
    requires BodiesOk(s, spans, bodies', width, maxLineWrap, prefix)
    ensures bodies == bodies'
  {
    hide Body;
  }

  ghost predicate EndsRight(s: string, spans: seq<(int, int)>, width: int, maxLineWrap: int, prefix: string,
                            cut: bool) {
    && spans != [] && (maxLineWrap > 0 ==> |spans| <= maxLineWrap)
    && if cut then maxLineWrap > 0 && |spans| == maxLineWrap && spans[|spans| - 1].1 != |s|
       else ResumeOf(s, spans, width, |prefix|) == |s|
  }

  lemma SpansSame(s: string, spans: seq<(int, int)>, spans': seq<(int, int)>, width: int, maxLineWrap: int,
                  prefix: string, cut: bool, cut': bool)
    requires SpansOk(s, spans, width, |prefix|) && SpansOk(s, spans', width, |prefix|)
    requires EndsRight(s, spans, width, maxLineWrap, prefix, cut)
    requires EndsRight(s, spans', width, maxLineWrap, prefix, cut')
    ensures spans == spans'
  {
    hide ResumeOf, SpanOk, SpansOk;
    var k := if |spans| < |spans'| then |spans| else |spans'|;
    BreaksUnique(s, spans, spans', width, |prefix|, k);
    assert spans[..|spans|] == spans && spans'[..|spans'|] == spans';
    if k < |spans'| {
      TakenUpWithin(s, spans', width, |prefix|, k);
    } else if k < |spans| {
      TakenUpWithin(s, spans, width, |prefix|, k);
    }
  }

  /** Is this a part of the text, or a line cut for the ellipsis where that is allowed? */
  ghost predicate ShowsPart(s: string, text: string, a: int, b: int, last: bool) {
    0 <= a < b <= |s| && (text == s[a..b] || (last && |text| >= 3 && text[|text| - 3..] == "..."))
  }

  /** What a line shows beside its prefix. */
  function Shown(line: string, prefix: string, k: nat): string {
    if k == 0 || |line| < |prefix| then line else line[|prefix|..]
  }

  /** Every line but the first begins with the prefix; after it comes the line's part of the text, which on
      the last line allowed may be cut. */
  lemma PrefixedLines(s: string, out: seq<string>, width: nat, maxLineWrap: int, prefix: string, k: nat)
    returns (a: int, b: int)
    requires Wrapped(s, out, width, maxLineWrap, prefix) && |s| > width && k < |out|
    ensures k > 0 ==> |out[k]| >= |prefix| && out[k][..|prefix|] == prefix
    ensures ShowsPart(s, Shown(out[k], prefix, k), a, b, maxLineWrap > 0 && k >= maxLineWrap - 1)
  {
    var bodies, spans: seq<(int, int)>, cut :| WrappedAs(s, out, width, maxLineWrap, prefix, bodies, spans, cut);
    hide Expected, CutOff, InkAll, ResumeOf, StartsRight, StopsRight;
    assert SpanOk(s, spans, width, |prefix|, k);
    a, b := spans[k].0, spans[k].1;
    LinePart(s, bodies[k], a, b, Room(width, |prefix|, k), maxLineWrap > 0 && k >= maxLineWrap - 1 && b != |s|);
    PrefixOff(prefix, bodies[k]);
    hide SpansOk, BodiesOk, Body;
  }

  lemma PrefixOff(prefix: string, body: string)
    ensures (prefix + body)[..|prefix|] == prefix && (prefix + body)[|prefix|..] == body && "" + body == body
  {
  }

  lemma LinePart(s: string, body: string, a: int, b: int, w: int, cut: bool)
    requires 0 <= a < b <= |s| && (cut ==> w >= |ELLIPSIS|) && body == Body(s, a, b, w, cut)
    ensures ShowsPart(s, body, a, b, cut)
  {
  }

  /** The rule at work: the first line ends at its gap, the others are the last lines of the text. */
  lemma WrapExample(out: seq<string>)
    requires Wrapped("hello world foo", out, 8, 0, "")
    ensures out == ["hello", "world fo", "o"]
  {
    var s := "hello world foo";
    var bodies, spans, cut :| WrappedAs(s, out, 8, 0, "", bodies, spans, cut);
    ExampleSpans(s);
    ExampleBodies(s, spans, bodies) by {
      hide SpansOk, ResumeOf, BodiesOk;
      SpansSame(s, spans, [(0, 5), (6, 14), (14, 15)], 8, 0, "", cut, false);
    }
    hide BodiesOk, SpansOk, ResumeOf;
    assert forall i :: 0 <= i < |out| ==> out[i] == bodies[i];
  }

  lemma ExampleBodies(s: string, spans: seq<(int, int)>, bodies: seq<string>)
    requires s == "hello world foo" && spans == [(0, 5), (6, 14), (14, 15)]
    requires BodiesOk(s, spans, bodies, 8, 0, "")
    ensures bodies == ["hello", "world fo", "o"]
  {
    assert |bodies| == 3 && bodies[0] == s[0..5] && bodies[1] == s[6..14] && bodies[2] == s[14..15];
    assert s[0..5] == "hello" && s[6..14] == "world fo" && s[14..15] == "o";
  }

  lemma ExampleGaps(s: string)
    requires s == "hello world foo"
    ensures forall g :: GapBegins(s, g) <==> g == 5 || g == 11
    ensures GapEnd(s, 5) == 6 && GapEnd(s, 11) == 12
  {
    assert forall g :: 0 <= g < 15 && g != 5 && g != 11 ==> !IsSpace(s[g]);
    assert GapEnd(s, 6) == 6 && GapEnd(s, 12) == 12;
  }

  lemma ExampleSpans(s: string)
    requires s == "hello world foo"
    ensures SpansOk(s, [(0, 5), (6, 14), (14, 15)], 8, 0)
    ensures ResumeOf(s, [(0, 5), (6, 14), (14, 15)], 8, 0) == 15
    ensures ResumeOf(s, [(0, 5)], 8, 0) == 6 && ResumeOf(s, [(0, 5), (6, 14)], 8, 0) == 14
  {
    ExampleGaps(s);
    assert GapBegins(s, 11) && GapBegins(s, 5);
    var spans := [(0, 5), (6, 14), (14, 15)];
    assert spans[..0] == [] && spans[..1] == [(0, 5)] && spans[..2] == [(0, 5), (6, 14)];
    hide IsSpace, GapEnd;
  }

  /** Wraps one line. Every slice is in bounds and the loops end (width shrinks under them after the
      first line); no line, prefix included, is wider than asked; no more lines than allowed; and the
      text is all there, or the last line ends in the ellipsis. */
  method WriteLineWrapped(s: string, width: int, maxLineWrap: int, wrapPrefix: string) returns (out: seq<string>)
    requires |s| <= width || Roomy(width, maxLineWrap, wrapPrefix)
    ensures Wrapped(s, out, width, maxLineWrap, wrapPrefix)
    ensures forall k :: 0 <= k < |out| ==> |out[k]| <= width
  {
    if |s| <= width {
      return [s];
    }
    ghost var bodies, spans, cut;
    out, bodies, spans, cut := WrapLong(s, width, maxLineWrap, wrapPrefix);
    assert WrappedAs(s, out, width, maxLineWrap, wrapPrefix, bodies, spans, cut);
  }

  lemma NothingBroken(s: string, width: nat, p: nat)
    ensures ResumeOf(s, [], width, p) == 0 && Tracks(s, width, p, [], 0)
  {
  }

  lemma ConsecutiveGaps(s: string, k: nat)
    requires k < |Gaps(s, 0)|
    ensures var gaps := Gaps(s, 0);
            k > 0 || gaps[0].0 > 0 ==> LastGap(s, if k == 0 then (0, 0) else gaps[k - 1], gaps[k].0)
  {
    var gaps := Gaps(s, 0);
    GapsAreOk(s, 0);
    GapsAreAll(s, 0);
    if k > 0 || gaps[0].0 > 0 {
      var gap := if k == 0 then (0, 0) else gaps[k - 1];
      forall g | gap.0 < g < gaps[k].0 ensures !GapBegins(s, g) {
        BetweenGaps(s, gaps, k, g);
      }
      if k > 0 {
        GapEndIsFirstInk(s, gap.0);
      } else {
        BetweenGaps(s, gaps, 0, 0);
      }
      WordEndIsFirstSpace(s, gap.1);
      var j := WordEnd(s, gap.1);
      assert j < gaps[k].0 ==> GapBegins(s, j);
    }
  }

  lemma BetweenGaps(s: string, gaps: seq<(nat, nat)>, k: nat, g: nat)
    requires GapsOk(s, 0, gaps) && k < |gaps| && g < gaps[k].0 && (k > 0 ==> gaps[k - 1].0 < g)
    requires forall g :: 0 <= g && GapBegins(s, g) ==> exists k :: 0 <= k < |gaps| && gaps[k].0 == g
    ensures !GapBegins(s, g)
  {
    forall m | 0 <= m < |gaps| ensures gaps[m].0 != g {
      if m < k {
        GapsOrdered(s, gaps, m, k - 1);
      } else {
        GapsOrdered(s, gaps, k, m);
      }
    }
  }

  lemma {:induction false} GapsOrdered(s: string, gaps: seq<(nat, nat)>, i: nat, j: nat)
    requires GapsOk(s, 0, gaps) && i <= j < |gaps|
    ensures gaps[i].0 <= gaps[j].0
    decreases j - i
  {
    if i == j {
    } else {
      GapsOrdered(s, gaps, i, j - 1);
      assert gaps[j - 1].1 < gaps[j].0;
    }
  }

  lemma NoGapAfterLast(s: string)
    ensures var gaps := Gaps(s, 0);
            !GapBeyond(s, if gaps == [] then -1 else gaps[|gaps| - 1].0)
  {
    var gaps := Gaps(s, 0);
    GapsAreOk(s, 0);
    GapsAreAll(s, 0);
    forall g | GapBegins(s, g) ensures gaps != [] && g <= gaps[|gaps| - 1].0 {
      var k :| 0 <= k < |gaps| && gaps[k].0 == g;
      GapsOrdered(s, gaps, k, |gaps| - 1);
    }
  }

  method WrapLong(s: string, width: nat, maxLineWrap: int, wrapPrefix: string)
    returns (out: seq<string>, ghost bodies: seq<string>, ghost spans: seq<(int, int)>, ghost cut: bool)
    requires |s| > width && Roomy(width, maxLineWrap, wrapPrefix)
    ensures WrappedAs(s, out, width, maxLineWrap, wrapPrefix, bodies, spans, cut)
  {
    hide CutOff, Expected, LinesOk, SpansOk, BodiesOk, ResumeOf, LastGap, GapBegins, GapBeyond, SkipsGap;
    hide Gaps, GapEnd, WordEnd, Roomy, Tracks;
    var w := new LineWriter(s, width, maxLineWrap, wrapPrefix);
    var start := 0;
    var last := (0, 0);
    var breakPoints := Gaps(s, 0);
    ghost var lead := GapEnd(s, 0);
    ghost var first := FirstGap(s);
    FirstWord(s);
    NothingBroken(s, width, |wrapPrefix|);
    for k := 0 to |breakPoints|
      invariant fresh(w) && w.Valid() && !w.done && w.At(start)
      invariant w.s == s && w.fullWidth == width && w.maxLineWrap == maxLineWrap && w.wrapPrefix == wrapPrefix
      invariant 0 <= start <= last.0 <= last.1 <= |s| && last.0 - start <= w.width && IsGap(s, last.0, last.1)
      invariant k > 0 ==> last == breakPoints[k - 1]
      invariant k <= first ==> w.lines == 0 && start == 0 && last.0 == 0 && last.1 == (if k == 0 then 0 else lead)
      invariant k > first && w.lines == 0 ==> !w.Forced() && start < last.0
      invariant k > 0 ==> start < |s|
      invariant w.Next(start) && (k == 0 ==> last == (0, 0))
    {
      var bp := breakPoints[k];
      ConsecutiveGaps(s, k);
      if bp.0 - start > w.width {
        start := w.BreakLine(start, last, bp.0);
        if w.done {
          return w.out, w.bodies, w.spans, true;
        }
      }
      last := bp;
    }
    NoGapAfterLast(s);
    var seen := if breakPoints == [] then -1 else last.0;
    BeyondMore(s, seen, start + w.width - seen);
    cut := w.WriteTail(start);
    out, bodies, spans := w.out, w.bodies, w.spans;
  }
}
