/**
 A row of cells from their contents to physical lines: the last column is wrapped into what the other
 columns leave of the terminal's width, every content is trimmed and split into lines, and the lines
 of all cells are laid out side by side.
 */
module Row {
  import opened Base
  import opened Wrap
  import opened Pad

  // ----- splitting at line feeds -----

  function LineEnd(s: string, i: nat): (j: nat)
    requires i <= |s|
    ensures i <= j <= |s| && (j < |s| ==> s[j] == '\n')
    ensures forall k :: i <= k < j ==> s[k] != '\n'
    decreases |s| - i
  {
    if i < |s| && s[i] != '\n' then LineEnd(s, i + 1) else i
  }

  /** What a line scanner hands out: no empty line after the last line feed, and no carriage return
      at the end of a line. */
  function ScanLines(s: string): seq<string> {
    if s == [] then []
    else
      var e := LineEnd(s, 0);
      [DropCR(s[..e])] + if e < |s| then ScanLines(s[e + 1..]) else []
  }

  function DropCR(s: string): string {
    if s != [] && s[|s| - 1] == '\r' then s[..|s| - 1] else s
  }

  /** The parts between the line feeds. */
  function Split(s: string): seq<string> {
    var e := LineEnd(s, 0);
    [s[..e]] + if e < |s| then Split(s[e + 1..]) else []
  }

  function Unsplit(parts: seq<string>): string
    requires parts != []
  {
    if |parts| == 1 then parts[0] else parts[0] + "\n" + Unsplit(parts[1..])
  }

  /** Splitting loses nothing, and the parts are free of line feeds. */
  lemma {:induction false} SplitUnsplit(s: string)
    ensures Split(s) != [] && Unsplit(Split(s)) == s
    ensures forall k :: 0 <= k < |Split(s)| ==> '\n' !in Split(s)[k]
  {
    var e := LineEnd(s, 0);
    if e >= |s| {
      assert s[..e] == s;
    } else {
      SplitUnsplit(s[e + 1..]);
      assert s == s[..e] + "\n" + s[e + 1..];
      assert Split(s) == [s[..e]] + Split(s[e + 1..]);
      assert Split(s)[1..] == Split(s[e + 1..]);
    }
  }

  function TrailStart(s: string, i: nat): (j: nat)
    requires i <= |s|
    ensures j <= i
  {
    if i > 0 && IsSpace(s[i - 1]) then TrailStart(s, i - 1) else i
  }

  /** The text without the white space around it. */
  function Trim(s: string): string {
    var lead := GapEnd(s, 0);
    if lead <= TrailStart(s, |s|) then s[lead..TrailStart(s, |s|)] else []
  }

  ghost predicate AllSpace(s: string) {
    forall k :: 0 <= k < |s| ==> IsSpace(s[k])
  }

  /** Trimming takes white space off both ends, all of it and nothing else. */
  lemma TrimMeans(s: string) returns (pre: string, post: string)
    ensures s == pre + Trim(s) + post && AllSpace(pre) && AllSpace(post)
    ensures Trim(s) != [] ==> !IsSpace(Trim(s)[0]) && !IsSpace(Trim(s)[|Trim(s)| - 1])
  {
    var lead, trail := GapEnd(s, 0), TrailStart(s, |s|);
    GapEndIsFirstInk(s, 0);
    TrailIsSpace(s, |s|);
    assert Trim(s) == if lead <= trail then s[lead..trail] else [];
    pre, post := if lead <= trail then s[..lead] else s, if lead <= trail then s[trail..] else [];
    TrimParts(s, lead, trail);
  }

  lemma TrimParts(s: string, lead: nat, trail: nat)
    requires lead <= |s| && trail <= |s| && (forall k :: 0 <= k < lead ==> IsSpace(s[k]))
    requires (forall k :: trail <= k < |s| ==> IsSpace(s[k])) && (trail > 0 ==> !IsSpace(s[trail - 1]))
    requires lead < |s| ==> !IsSpace(s[lead])
    ensures lead <= trail ==> s == s[..lead] + s[lead..trail] + s[trail..]
    ensures lead <= trail ==> AllSpace(s[..lead]) && AllSpace(s[trail..])
    ensures lead > trail ==> AllSpace(s)
  {
    hide IsSpace;
  }

  lemma {:induction false} TrailIsSpace(s: string, i: nat)
    requires i <= |s|
    ensures forall k :: TrailStart(s, i) <= k < i ==> IsSpace(s[k])
    ensures TrailStart(s, i) > 0 ==> !IsSpace(s[TrailStart(s, i) - 1])
  {
    if i > 0 && IsSpace(s[i - 1]) {
      TrailIsSpace(s, i - 1);
    }
  }

  /** A line scanner hands out the parts between the line feeds, each without a carriage return at its
      end, but for an empty one at the very end of the text. */
  lemma {:induction false} ScanLinesMeans(s: string)
    ensures Split(s) != [] && Scanned(Split(s), ScanLines(s))
  {
    if s == [] {
      assert Split(s) == [[]];
    } else {
      var e := LineEnd(s, 0);
      if e >= |s| {
        assert s[..e] == s;
        assert Split(s) == [s[..e]] + [] && ScanLines(s) == [DropCR(s[..e])] + [];
      } else {
        ScanLinesMeans(s[e + 1..]);
        SplitUnsplit(s[e + 1..]);
        FirstScanned(s, e);
      }
    }
  }

  lemma FirstScanned(s: string, e: nat)
    requires s != [] && e == LineEnd(s, 0) < |s| && Split(s[e + 1..]) != []
    requires Scanned(Split(s[e + 1..]), ScanLines(s[e + 1..]))
    ensures Split(s) != [] && Scanned(Split(s), ScanLines(s))
  {
    hide Split, ScanLines, LineEnd, Scanned;
    SplitStep(s, e);
    ScanStep(s, e);
    ScannedMore(s[..e], Split(s[e + 1..]), ScanLines(s[e + 1..]));
  }

  lemma SplitStep(s: string, e: nat)
    requires e == LineEnd(s, 0) < |s|
    ensures Split(s) == [s[..e]] + Split(s[e + 1..])
  {
    hide LineEnd;
  }

  lemma ScanStep(s: string, e: nat)
    requires s != [] && e == LineEnd(s, 0) < |s|
    ensures ScanLines(s) == [DropCR(s[..e])] + ScanLines(s[e + 1..])
  {
    hide LineEnd, DropCR;
  }

  lemma ScannedMore(first: string, rest: seq<string>, lines: seq<string>)
    requires rest != [] && Scanned(rest, lines)
    ensures Scanned([first] + rest, [DropCR(first)] + lines)
  {
    hide DropCR;
    assert ([first] + rest)[|rest|] == rest[|rest| - 1];
    assert ([first] + rest)[..|rest|] == [first] + rest[..|rest| - 1];
  }

  /** The lines read are the parts, each without its carriage return, but for an empty last one. */
  ghost predicate Scanned(parts: seq<string>, lines: seq<string>)
    requires parts != []
  {
    var read := if parts[|parts| - 1] == [] then parts[..|parts| - 1] else parts;
    |lines| == |read| && forall k :: 0 <= k < |read| ==> lines[k] == DropCR(read[k])
  }

  lemma DropCRMeans(t: string)
    ensures DropCR(t + ['\r']) == t
    ensures t == [] || t[|t| - 1] != '\r' ==> DropCR(t) == t
  {
    assert (t + ['\r'])[..|t|] == t;
  }

  // ----- no line longer than the width -----

  /** No part of the text without a line feed is longer than the width. */
  ghost predicate Within(s: string, width: int) {
    forall i, j :: 0 <= i <= j <= |s| && '\n' !in s[i..j] ==> j - i <= width
  }

  lemma SliceOfSlice(s: string, a: nat, b: nat, i: nat, j: nat)
    requires a <= b <= |s| && i <= j <= b - a
    ensures s[a..b][i..j] == s[a + i..a + j]
  {
    forall k | 0 <= k < j - i ensures s[a..b][i..j][k] == s[a + i..a + j][k] {
      assert s[a..b][i + k] == s[a + i + k];
    }
  }

  lemma WithinPart(s: string, width: int, a: nat, b: nat)
    requires Within(s, width) && a <= b <= |s|
    ensures Within(s[a..b], width)
  {
    forall i, j | 0 <= i <= j <= b - a && '\n' !in s[a..b][i..j] ensures j - i <= width {
      SliceOfSlice(s, a, b, i, j);
    }
  }

  lemma FeedBetween(s: string, i: nat, k: nat, j: nat)
    requires i <= k < j <= |s| && s[k] == '\n'
    ensures '\n' in s[i..j]
  {
    assert s[i..j][k - i] == '\n';
  }

  lemma WithinLine(s: string, line: string, width: int)
    requires Within(s, width) && |line| <= width && (s == [] || s[|s| - 1] == '\n')
    ensures Within(s + line + "\n", width)
  {
    var t := s + line + "\n";
    forall i, j | 0 <= i <= j <= |t| && '\n' !in t[i..j] ensures j - i <= width {
      if i < |s| < j {
        FeedBetween(t, i, |s| - 1, j);
      } else if j <= |s| {
        assert t[i..j] == s[i..j];
      } else if j == |t| && i < j {
        FeedBetween(t, i, |t| - 1, j);
      }
    }
  }

  lemma {:induction false} SplitWithin(s: string, width: int)
    requires Within(s, width)
    ensures forall k :: 0 <= k < |Split(s)| ==> |Split(s)[k]| <= width
  {
    var e := LineEnd(s, 0);
    assert '\n' !in s[0..e];
    if e >= |s| {
    } else {
      WithinPart(s, width, e + 1, |s|);
      assert s[e + 1..|s|] == s[e + 1..];
      SplitWithin(s[e + 1..], width);
      assert Split(s) == [s[..e]] + Split(s[e + 1..]);
    }
  }

  lemma TrimWithin(s: string, width: int)
    requires Within(s, width) && width >= 0
    ensures Within(Trim(s), width)
  {
    var lead := GapEnd(s, 0);
    if lead <= TrailStart(s, |s|) {
      WithinPart(s, width, lead, TrailStart(s, |s|));
    }
  }

  // ----- wrapping a text -----

  function Terminated(lines: seq<string>): string {
    if lines == [] then [] else Terminated(lines[..|lines| - 1]) + lines[|lines| - 1] + "\n"
  }

  function AllTerminated(blocks: seq<seq<string>>): string {
    if blocks == [] then [] else AllTerminated(blocks[..|blocks| - 1]) + Terminated(blocks[|blocks| - 1])
  }

  /** Every line of the text wrapped on its own, one after the other. */
  ghost predicate WrappedText(s: string, w: string, width: int, maxLineWrap: int, prefix: string) {
    exists blocks :: w == AllTerminated(blocks) && AllWrapped(ScanLines(s), blocks, width, maxLineWrap, prefix)
  }

  ghost predicate AllWrapped(lines: seq<string>, blocks: seq<seq<string>>, width: int, maxLineWrap: int,
                             prefix: string) {
    |blocks| == |lines| && forall k :: 0 <= k < |blocks| ==> Wrapped(lines[k], blocks[k], width, maxLineWrap, prefix)
  }

  /** No line of the result is too long. */
  method WrapLines(s: string, width: nat, maxLineWrap: int, prefix: string) returns (w: string)
    requires Roomy(width, maxLineWrap, prefix)
    ensures WrappedText(s, w, width, maxLineWrap, prefix) && Within(w, width)
  {
    hide Roomy, Wrapped, Within, Terminated, AllTerminated, ScanLines;
    w := [];
    NothingTerminated();
    ghost var blocks: seq<seq<string>> := [];
    var lines := ScanLines(s);
    NothingWithin(width);
    for i := 0 to |lines|
      invariant |blocks| == i && w == AllTerminated(blocks) && Within(w, width)
      invariant w == [] || w[|w| - 1] == '\n'
      invariant forall k :: 0 <= k < i ==> Wrapped(lines[k], blocks[k], width, maxLineWrap, prefix)
    {
      var block := WriteLineWrapped(lines[i], width, maxLineWrap, prefix);
      TerminatedWithin(w, block, width);
      OneMoreBlock(blocks, block);
      w, blocks := w + Terminated(block), blocks + [block];
    }
    assert AllWrapped(lines, blocks, width, maxLineWrap, prefix);
  }

  lemma NothingTerminated()
    ensures AllTerminated([]) == ""
  {
  }

  lemma OneMoreBlock(blocks: seq<seq<string>>, block: seq<string>)
    ensures AllTerminated(blocks + [block]) == AllTerminated(blocks) + Terminated(block)
  {
    assert (blocks + [block])[..|blocks|] == blocks;
  }

  /** Every line ends with one line feed, and there is nothing between the lines. */
  lemma TerminatedMeans(lines: seq<string>, line: string)
    ensures Terminated([]) == "" && Terminated(lines + [line]) == Terminated(lines) + line + "\n"
  {
    assert (lines + [line])[..|lines|] == lines;
  }

  lemma NothingWithin(width: nat)
    ensures Within([], width)
  {
  }

  lemma {:induction false} TerminatedWithin(w: string, lines: seq<string>, width: nat)
    requires Within(w, width) && (w == [] || w[|w| - 1] == '\n')
    requires forall k :: 0 <= k < |lines| ==> |lines[k]| <= width
    ensures var w' := w + Terminated(lines); Within(w', width) && (w' == [] || w'[|w'| - 1] == '\n')
  {
    hide Within;
    if lines == [] {
      assert w + Terminated(lines) == w;
    } else {
      var init, last := lines[..|lines| - 1], lines[|lines| - 1];
      TerminatedWithin(w, init, width);
      WithinLine(w + Terminated(init), last, width);
      assert w + Terminated(lines) == w + Terminated(init) + last + "\n";
    }
  }

  // ----- the row -----

  datatype Column = Column(width: nat, maxLineWrap: int, wrapPrefix: string)

  function Widths(columns: seq<Column>): seq<nat> {
    seq(|columns|, j requires 0 <= j < |columns| => columns[j].width)
  }

  /** What the other columns leave for the last one, a separator kept free at the right edge. */
  function LastWidth(columns: seq<Column>, terminal: int): int
    requires columns != []
  {
    var rest := terminal - Offset(Widths(columns), |columns| - 1) - |CELL_SEP|;
    var own := columns[|columns| - 1].width;
    if rest > own then rest else own
  }

  /** The last column is given what is left of the terminal, but never less than its own width. */
  lemma LastWidthMeans(columns: seq<Column>, terminal: int)
    requires columns != []
    ensures var n := |columns| - 1;
            var left := terminal - Total(Widths(columns), n) - 2 * n - 2;
            LastWidth(columns, terminal) == if left > columns[n].width then left else columns[n].width
  {
    OffsetMeans(Widths(columns), |columns| - 1);
  }

  /** The lines of each cell: its content trimmed and split, the last one wrapped before that. */
  ghost predicate CellLinesOk(contents: seq<string>, wrapped: string, terminal: int, cellLines: seq<seq<string>>) {
    && |cellLines| == |contents|
    && forall j :: 0 <= j < |contents| ==>
         cellLines[j] == Split(Trim(if j == |contents| - 1 && terminal > 0 then wrapped else contents[j]))
  }

  lemma {:induction false} VisibleFrom(s: string, i: nat)
    requires i <= |s|
    ensures |Runes(Lex(s, i))| <= |s| - i
    decreases |s| - i
  {
    if i == |s| {
    } else {
      var t, rest := TokenAt(s, i), Lex(s, NextAt(s, i));
      VisibleFrom(s, NextAt(s, i));
      TokensConcat([t], rest);
      OneToken(t);
    }
  }

  /** A row on a terminal of the given width, zero if unknown. Columns are aligned in every physical
      line; and if the columns before the last leave it at least its own width, no physical line is
      wider than the terminal less the separator at its edge. */
  method PrintWrappedRow(columns: seq<Column>, contents: seq<string>, terminal: int, prefixHead: string,
                         prefixTail: string)
    returns (rows: seq<seq<string>>, ghost cellLines: seq<seq<string>>, ghost wrapped: string)
    requires |columns| == |contents| > 0
    requires terminal > 0 ==>
               var last := columns[|columns| - 1];
               Roomy(LastWidth(columns, terminal), last.maxLineWrap, last.wrapPrefix)
    ensures CellLinesOk(contents, wrapped, terminal, cellLines)
    ensures terminal > 0 ==>
              var last := columns[|columns| - 1];
              WrappedText(contents[|columns| - 1], wrapped, LastWidth(columns, terminal),
                          last.maxLineWrap, last.wrapPrefix)
    ensures forall i :: 0 <= i < |rows| ==> RowLineOk(Widths(columns), cellLines, prefixHead, prefixTail, i, rows[i])
    ensures forall j :: 0 <= j < |columns| ==> |cellLines[j]| <= |rows|
    ensures exists j :: 0 <= j < |columns| && |cellLines[j]| == |rows|
    ensures terminal > 0 && |columns| > 1
            && columns[|columns| - 1].width <= terminal - Offset(Widths(columns), |columns| - 1) - |CELL_SEP| ==>
              forall i :: 0 <= i < |rows| ==> |Visible(Joined(rows[i]))| <= terminal - |CELL_SEP|
  {
    hide Roomy, Within, WrappedText, Split, Trim, Aligned, Visible, Offset;
    var n := |columns|;
    var texts: seq<seq<string>> := [];
    var curWidth: nat := 0;
    wrapped := "";
    OffsetStart(Widths(columns));
    for i := 0 to n
      invariant |texts| == i && curWidth == (if i < n then Offset(Widths(columns), i) else curWidth)
      invariant forall j :: 0 <= j < i ==>
                  texts[j] == Split(Trim(if j == n - 1 && terminal > 0 then wrapped else contents[j]))
      invariant i == n && terminal > 0 ==>
                  && Within(wrapped, LastWidth(columns, terminal))
                  && WrappedText(contents[n - 1], wrapped, LastWidth(columns, terminal),
                                 columns[n - 1].maxLineWrap, columns[n - 1].wrapPrefix)
    {
      var txt, width := contents[i], columns[i].width;
      if i == n - 1 && terminal > 0 {
        width := LastWidth(columns, terminal);
        txt := WrapLines(txt, width, columns[i].maxLineWrap, columns[i].wrapPrefix);
        wrapped := txt;
      }
      texts := texts + [Split(Trim(txt))];
      OffsetNext(Widths(columns), i);
      curWidth := curWidth + width + |CELL_SEP|;
    }
    rows := PrintRow(Widths(columns), texts, prefixHead, prefixTail);
    cellLines := texts;
    SplitUnsplit(Trim(if n == 1 && terminal > 0 then wrapped else contents[0]));
    if terminal > 0 && n > 1 {
      forall i | 0 <= i < |rows|
        ensures |Visible(Joined(rows[i]))| <= Offset(Widths(columns), n - 1) + LastWidth(columns, terminal)
      {
        RowFits(columns, texts, wrapped, terminal, prefixHead, prefixTail, i, rows[i]);
      }
    }
  }

  lemma OffsetStart(widths: seq<nat>)
    ensures Offset(widths, 0) == 0
  {
  }

  lemma OffsetNext(widths: seq<nat>, i: nat)
    requires i < |widths|
    ensures Offset(widths, i + 1) == Offset(widths, i) + widths[i] + |CELL_SEP|
  {
  }

  lemma RowFits(columns: seq<Column>, cellLines: seq<seq<string>>, wrapped: string, terminal: int,
                prefixHead: string, prefixTail: string, i: nat, cells: seq<string>)
    requires |columns| == |cellLines| > 1 && terminal > 0 && LastWidth(columns, terminal) >= 0
    requires Within(wrapped, LastWidth(columns, terminal)) && cellLines[|columns| - 1] == Split(Trim(wrapped))
    requires RowLineOk(Widths(columns), cellLines, prefixHead, prefixTail, i, cells)
    ensures |Visible(Joined(cells))| <= Offset(Widths(columns), |columns| - 1) + LastWidth(columns, terminal)
  {
    var n := |columns|;
    TrimWithin(wrapped, LastWidth(columns, terminal));
    SplitWithin(Trim(wrapped), LastWidth(columns, terminal));
    hide Within, Split, Trim, Aligned, Offset, Lex, Runes;
    var text := CellText(cellLines, prefixHead, prefixTail, i, n - 1);
    assert CellTexts(cellLines, prefixHead, prefixTail, i)[n - 1] == text;
    VisibleFrom(text, 0);
    assert "" + "" == "" && forall t: string :: "" + t == t;
  }
}
