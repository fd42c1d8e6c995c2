/**
 Repainting a frame in place: the printer counts the lines it wrote, moves the cursor up over them,
 erases them and writes the next frame. The terminal follows section 8.3.22 (CUU) and section 8.3.41
 (EL) of ECMA-48; a newline also returns the carriage, and scrolls when the cursor is on the last line.
 */
module Screen {
  import opened Base
  import opened Pad

  // How much of a colour sequence (ESC [ digits m) has come in so far.
  datatype Escape = Plain | Started | Opened | Numbered

  // Everything ever shown, scrolled-off rows included, with the cursor and the first visible row.
  datatype Terminal = Terminal(
    rows: seq<string>,
    row: nat,
    col: nat,
    top: nat,
    height: nat,
    columns: nat,
    escape: Escape
  )

  predicate Ready(t: Terminal) {
    t.row < |t.rows| && t.top <= t.row && t.height > 0
  }

  function NewLine(t: Terminal): Terminal
    requires Ready(t)
  {
    t.(rows := if t.row + 1 < |t.rows| then t.rows else t.rows + [""],
       row := t.row + 1,
       col := 0,
       top := if t.row + 1 >= t.top + t.height then t.row + 2 - t.height else t.top)
  }

  /** The line with c at position i, filled up with blanks if it is shorter. */
  function Overwrite(line: string, i: nat, c: char): string {
    if i < |line| then line[i := c] else line + Blanks(i - |line|) + [c]
  }

  function PutChar(t: Terminal, c: char): Terminal
    requires Ready(t)
  {
    var t' := if t.col >= t.columns then NewLine(t) else t;
    t'.(rows := t'.rows[t'.row := Overwrite(t'.rows[t'.row], t'.col, c)], col := t'.col + 1)
  }

  /** One character of the stream. A colour sequence takes no column, however it is split into writes;
      a character that breaks one off is taken by itself. */
  function Receive(t: Terminal, c: char): (r: Terminal)
    requires Ready(t)
    ensures Ready(r) && r.height == t.height && r.columns == t.columns
  {
    if t.escape.Started? && c == '[' then t.(escape := Opened)
    else if (t.escape.Opened? || t.escape.Numbered?) && IsDigit(c) then t.(escape := Numbered)
    else if t.escape.Numbered? && c == 'm' then t.(escape := Plain)
    else if c == ESC then t.(escape := Started)
    else if c == '\n' then NewLine(t.(escape := Plain))
    else PutChar(t.(escape := Plain), c)
  }

  function PutText(t: Terminal, text: string): (r: Terminal)
    requires Ready(t)
    ensures Ready(r) && r.height == t.height && r.columns == t.columns
  {
    if text == [] then t else Receive(PutText(t, text[..|text| - 1]), text[|text| - 1])
  }

  /** CUU: up n rows, stopping at the first visible one. */
  function CursorUp(t: Terminal, n: nat): Terminal
    requires Ready(t)
  {
    t.(row := if t.row < t.top + n then t.top else t.row - n)
  }

  /** EL with parameter 2: the whole row becomes blank, the cursor stays. */
  function EraseLine(t: Terminal): Terminal
    requires Ready(t)
  {
    t.(rows := t.rows[t.row := ""])
  }

  function CarriageReturn(t: Terminal): Terminal {
    t.(col := 0)
  }

  function LineFeeds(text: string): nat {
    if text == [] then 0 else LineFeeds(text[..|text| - 1]) + if text[|text| - 1] == '\n' then 1 else 0
  }

  // ----- frames -----

  /** The text of a frame: every line with its line feed. */
  function Text(frame: seq<string>): string {
    if frame == [] then [] else Text(frame[..|frame| - 1]) + (frame[|frame| - 1] + "\n")
  }

  /** Every escape character of the line starts a colour sequence. */
  ghost predicate WellColoured(ts: seq<Token>) {
    forall k :: 0 <= k < |ts| ==> ts[k] != Rune(ESC)
  }

  ghost predicate LineFits(line: string, columns: nat) {
    |Visible(line)| <= columns && '\n' !in line && WellColoured(Lex(line, 0))
  }

  /** Few enough lines, and none with more visible characters than there are columns. */
  ghost predicate Fits(frame: seq<string>, height: nat, columns: nat) {
    |frame| < height && forall i :: 0 <= i < |frame| ==> LineFits(frame[i], columns)
  }

  /** What the reader sees of a frame: its lines without their colour sequences. */
  function Displayed(frame: seq<string>): seq<string> {
    seq(|frame|, i requires 0 <= i < |frame| => Visible(frame[i]))
  }

  function Empties(n: nat): seq<string> {
    seq(n, _ => "")
  }

  /** The screen is what was there before, then exactly the lines shown, then blank lines; the cursor is
      just below them, and they have not been scrolled out of reach. */
  ghost predicate Shows(t: Terminal, before: seq<string>, shown: seq<string>) {
    && Ready(t) && t.col == 0 && t.row == |before| + |shown| && t.top <= |before| && t.escape.Plain?
    && exists k: nat :: k > 0 && t.rows == before + shown + Empties(k)
  }

  // ----- writing a frame -----

  lemma {:induction false} PutTextConcat(t: Terminal, a: string, b: string)
    requires Ready(t)
    ensures PutText(t, a + b) == PutText(PutText(t, a), b)
  {
    if b == [] {
      assert a + b == a;
    } else {
      PutTextConcat(t, a, b[..|b| - 1]);
      assert (a + b)[..|a + b| - 1] == a + b[..|b| - 1];
    }
  }

  lemma {:induction false} LineFeedsConcat(a: string, b: string)
    ensures LineFeeds(a + b) == LineFeeds(a) + LineFeeds(b)
  {
    if b == [] {
      assert a + b == a;
    } else {
      LineFeedsConcat(a, b[..|b| - 1]);
      assert (a + b)[..|a + b| - 1] == a + b[..|b| - 1];
    }
  }

  lemma OneCharacter(t: Terminal, c: char)
    requires Ready(t)
    ensures PutText(t, [c]) == Receive(t, c)
  {
    assert [c][..0] == [] && PutText(t, []) == t;
  }

  ghost predicate AllDigits(s: string) {
    forall k :: 0 <= k < |s| ==> IsDigit(s[k])
  }

  lemma {:induction false} DigitsKept(t: Terminal, s: string)
    requires Ready(t) && (t.escape.Opened? || t.escape.Numbered?) && s != [] && AllDigits(s)
    ensures PutText(t, s) == t.(escape := Numbered)
  {
    if |s| == 1 {
      assert s == [s[0]];
      OneCharacter(t, s[0]);
    } else {
      DigitsKept(t, s[..|s| - 1]);
    }
  }

  lemma {:induction false} DigitsUntilEnd(s: string, i: nat)
    requires i <= |s|
    ensures forall k :: i <= k < DigitsEnd(s, i) ==> IsDigit(s[k])
    decreases |s| - i
  {
    if i >= |s| || !IsDigit(s[i]) {
    } else {
      DigitsUntilEnd(s, i + 1);
    }
  }

  lemma ControlText(s: string, i: nat)
    requires i < |s| && ControlEnd(s, i) > i
    ensures var d := DigitsEnd(s, i + 2);
            && i + 2 < d && AllDigits(s[i + 2..d])
            && s[i..ControlEnd(s, i)] == [ESC] + ['['] + s[i + 2..d] + ['m']
  {
    DigitsUntilEnd(s, i + 2);
  }

  lemma ReceiveControl(t: Terminal)
    requires Ready(t) && t.escape.Plain?
    ensures Receive(t, ESC) == t.(escape := Started)
    ensures Receive(t.(escape := Started), '[') == t.(escape := Opened)
    ensures Receive(t.(escape := Numbered), 'm') == t
  {
  }

  /** A colour sequence leaves the screen and the cursor alone. */
  lemma ControlIgnored(t: Terminal, s: string, i: nat)
    requires Ready(t) && t.escape.Plain? && i < |s| && ControlEnd(s, i) > i
    ensures PutText(t, s[i..ControlEnd(s, i)]) == t
  {
    var digits := s[i + 2..DigitsEnd(s, i + 2)];
    ControlText(s, i);
    ReceiveControl(t);
    hide PutText, Receive, ControlEnd, DigitsEnd;
    PutTextConcat(t, [ESC] + ['['] + digits, ['m']);
    PutTextConcat(t, [ESC] + ['['], digits);
    PutTextConcat(t, [ESC], ['[']);
    OneCharacter(t, ESC);
    OneCharacter(t.(escape := Started), '[');
    DigitsKept(t.(escape := Opened), digits);
    OneCharacter(t.(escape := Numbered), 'm');
  }

  lemma OverwriteAtEnd(line: string, c: char)
    ensures Overwrite(line, |line|, c) == line + [c]
  {
  }

  lemma LexStep(line: string, i: nat)
    requires i < |line| && WellColoured(Lex(line, i))
    ensures WellColoured(Lex(line, NextAt(line, i))) && TokenAt(line, i) != Rune(ESC)
    ensures Runes(Lex(line, i)) ==
            (if TokenAt(line, i).Rune? then [line[i]] else []) + Runes(Lex(line, NextAt(line, i)))
  {
    var tok, rest := TokenAt(line, i), Lex(line, NextAt(line, i));
    assert Lex(line, i) == [tok] + rest;
    hide Lex;
    assert Lex(line, i)[0] == tok;
    forall k | 0 <= k < |rest| ensures rest[k] != Rune(ESC) {
      assert rest[k] == Lex(line, i)[k + 1];
    }
    TokensConcat([tok], rest);
    OneToken(tok);
  }

  lemma NothingToPut(t: Terminal, line: string)
    requires Ready(t)
    ensures PutText(t, line[|line|..]) == t && Runes(Lex(line, |line|)) == []
  {
    assert line[|line|..] == [];
  }

  /** The rest of a line on its row: only its visible characters appear. */
  lemma {:induction false} PutRest(t: Terminal, line: string, i: nat)
    requires Ready(t) && t.escape.Plain? && i <= |line| && t.col == |t.rows[t.row]|
    requires '\n' !in line && WellColoured(Lex(line, i)) && t.col + |Runes(Lex(line, i))| <= t.columns
    ensures var now := t.rows[t.row] + Runes(Lex(line, i));
            PutText(t, line[i..]) == t.(rows := t.rows[t.row := now], col := |now|)
    decreases |line| - i
  {
    hide Lex, Runes, ControlEnd, PutText, WellColoured;
    if i == |line| {
      NothingToPut(t, line);
      assert t.rows[t.row] + [] == t.rows[t.row];
    } else {
      var n := NextAt(line, i);
      assert line[i..] == line[i..n] + line[n..];
      PutTextConcat(t, line[i..n], line[n..]);
      LexStep(line, i);
      var rest := Runes(Lex(line, n));
      if TokenAt(line, i).Control? {
        PutControl(t, line, i);
        PutRest(t, line, n);
        assert [] + rest == rest;
      } else {
        PutRune(t, line, i);
        var begun := t.rows[t.row] + [line[i]];
        var t' := t.(rows := t.rows[t.row := begun], col := t.col + 1);
        PutRest(t', line, n);
        assert begun + rest == t.rows[t.row] + ([line[i]] + rest);
        assert t'.rows[t.row := begun + rest] == t.rows[t.row := begun + rest];
      }
    }
  }

  lemma PutControl(t: Terminal, line: string, i: nat)
    requires Ready(t) && t.escape.Plain? && i < |line| && TokenAt(line, i).Control?
    ensures PutText(t, line[i..NextAt(line, i)]) == t
  {
    ControlIgnored(t, line, i);
  }

  lemma PutRune(t: Terminal, line: string, i: nat)
    requires Ready(t) && t.escape.Plain? && t.col == |t.rows[t.row]| && t.col < t.columns
    requires i < |line| && '\n' !in line && TokenAt(line, i).Rune? && TokenAt(line, i) != Rune(ESC)
    ensures PutText(t, line[i..NextAt(line, i)]) ==
            t.(rows := t.rows[t.row := t.rows[t.row] + [line[i]]], col := t.col + 1)
  {
    assert line[i] in line && line[i..i + 1] == [line[i]];
    OneCharacter(t, line[i]);
    OverwriteAtEnd(t.rows[t.row], line[i]);
  }

  /** A line on a blank row, from its start. */
  lemma PutOnBlank(t: Terminal, line: string)
    requires Ready(t) && t.escape.Plain? && t.col == 0 && t.rows[t.row] == "" && LineFits(line, t.columns)
    ensures PutText(t, line) == t.(rows := t.rows[t.row := Visible(line)], col := |Visible(line)|)
  {
    PutRest(t, line, 0);
    assert line[0..] == line && "" + Visible(line) == Visible(line);
  }

  lemma {:induction false} NoLineFeeds(line: string)
    requires '\n' !in line
    ensures LineFeeds(line) == 0
  {
    if line == [] {
    } else {
      assert line[|line| - 1] in line;
      NoLineFeeds(line[..|line| - 1]);
    }
  }

  /** One more line of a frame. */
  lemma ShowsLine(t: Terminal, before: seq<string>, shown: seq<string>, line: string)
    requires Shows(t, before, shown) && LineFits(line, t.columns) && |shown| + 1 < t.height
    ensures Shows(PutText(t, line + "\n"), before, shown + [Visible(line)])
  {
    var k: nat :| k > 0 && t.rows == before + shown + Empties(k);
    assert t.rows[t.row] == "";
    PutOnBlank(t, line);
    assert (line + "\n")[..|line|] == line;
    var t' := PutText(t, line + "\n");
    hide Visible, PutText, LineFits;
    assert t' == NewLine(PutText(t, line)) by { LastFeed(t, line); }
    var k' := if k > 1 then k - 1 else 1;
    assert t'.rows == before + (shown + [Visible(line)]) + Empties(k');
  }

  lemma LastFeed(t: Terminal, line: string)
    requires Ready(t) && PutText(t, line).escape.Plain?
    ensures PutText(t, line + "\n") == NewLine(PutText(t, line))
  {
    PutTextConcat(t, line, "\n");
    OneCharacter(PutText(t, line), '\n');
  }

  lemma {:induction false} ShowsFrame(t: Terminal, before: seq<string>, frame: seq<string>)
    requires Shows(t, before, []) && Fits(frame, t.height, t.columns)
    ensures Shows(PutText(t, Text(frame)), before, Displayed(frame))
    ensures LineFeeds(Text(frame)) == |frame|
  {
    if frame == [] {
      NothingWritten(t);
      assert Displayed(frame) == [];
    } else {
      var init, line := frame[..|frame| - 1], frame[|frame| - 1];
      hide Shows, PutText, LineFeeds, Text, Visible, LineFits;
      ShowsFrame(t, before, init);
      assert Ready(t) by { ShowsIsReady(t, before, []); }
      ShowsLine(PutText(t, Text(init)), before, Displayed(init), line);
      TextSnoc(frame);
      PutTextConcat(t, Text(init), line + "\n");
      assert Displayed(init) + [Visible(line)] == Displayed(frame);
      LineFeedsConcat(Text(init), line + "\n");
      FittingLine(line, t.columns);
      OneLineFeed(line);
    }
  }

  lemma FittingLine(line: string, columns: nat)
    requires LineFits(line, columns)
    ensures '\n' !in line
  {
  }

  lemma TextSnoc(frame: seq<string>)
    requires frame != []
    ensures Text(frame) == Text(frame[..|frame| - 1]) + (frame[|frame| - 1] + "\n")
  {
  }

  lemma OneLineFeed(line: string)
    requires '\n' !in line
    ensures LineFeeds(line + "\n") == 1
  {
    NoLineFeeds(line);
    assert (line + "\n")[..|line|] == line;
  }

  // ----- erasing a frame -----

  /** One round of resetScreen: the last line of the frame is gone. */
  lemma ErasedLine(t: Terminal, before: seq<string>, shown: seq<string>)
    requires Shows(t, before, shown) && shown != []
    ensures Ready(CursorUp(t, 1))
    ensures Shows(CarriageReturn(EraseLine(CursorUp(t, 1))), before, shown[..|shown| - 1])
  {
    var k: nat :| k > 0 && t.rows == before + shown + Empties(k);
    var t' := CarriageReturn(EraseLine(CursorUp(t, 1)));
    assert t'.rows == before + shown[..|shown| - 1] + Empties(k + 1);
  }

  class PeriodicPrinter {
    var terminal: Terminal       // standard output
    var previousLines: nat

    constructor (t: Terminal)
      ensures terminal == t && previousLines == 0
    {
      terminal, previousLines := t, 0;
    }

    method ResetScreen(ghost before: seq<string>, ghost shown: seq<string>)
      requires Shows(terminal, before, shown) && previousLines == |shown|
      modifies this`terminal
      ensures Shows(terminal, before, [])
      ensures terminal.height == old(terminal.height) && terminal.columns == old(terminal.columns)
    {
      ghost var left := shown;
      for i := 0 to previousLines
        invariant |left| == previousLines - i && Shows(terminal, before, left)
        invariant terminal.height == old(terminal.height) && terminal.columns == old(terminal.columns)
      {
        hide Shows;
        ErasedLine(terminal, before, left);
        assert Ready(terminal) by { ShowsIsReady(terminal, before, left); }
        terminal := CursorUp(terminal, 1);
        terminal := CarriageReturn(EraseLine(terminal));
        left := left[..|left| - 1];
      }
      assert left == [];
    }

    /** The line counting writer: passes the text on and counts its line feeds. */
    method Write(lines: nat, p: string) returns (lines': nat)
      requires Ready(terminal)
      modifies this`terminal
      ensures terminal == PutText(old(terminal), p) && lines' == lines + LineFeeds(p)
    {
      terminal := PutText(terminal, p);
      lines' := lines;
      for i := 0 to |p|
        invariant lines' == lines + LineFeeds(p[..i]) && terminal == PutText(old(terminal), p)
      {
        assert p[..i + 1][..i] == p[..i];
        if p[i] == '\n' {
          lines' := lines' + 1;
        }
      }
      assert p[..|p|] == p;
    }

    /** One update of the loop. The frame comes in any number of writes, split anywhere. After an
        error the line count is forgotten and the last frame stays on the screen. */
    method Update(failed: bool, writes: seq<string>, ghost before: seq<string>, ghost last: seq<string>,
                  ghost frame: seq<string>)
      requires Shows(terminal, before, last) && previousLines == |last|
      requires Joined(writes) == Text(frame) && Fits(frame, terminal.height, terminal.columns)
      modifies this
      ensures Shows(terminal, if failed then before + last else before, Displayed(frame))
      ensures previousLines == |frame|
      ensures terminal.height == old(terminal.height) && terminal.columns == old(terminal.columns)
    {
      hide Shows, PutText, LineFeeds, Text, Displayed, Fits;
      ghost var base := if failed then before + last else before;
      if failed {
        previousLines := 0;
        LastStays(terminal, before, last);
      }
      ResetScreen(base, if failed then [] else last);
      ghost var cleared := terminal;
      assert Ready(cleared) by { ShowsIsReady(cleared, base, []); }
      var lines := 0;
      NothingWritten(cleared);
      for i := 0 to |writes|
        invariant terminal == PutText(cleared, Joined(writes[..i])) && lines == LineFeeds(Joined(writes[..i]))
      {
        assert writes[..i + 1][..i] == writes[..i];
        PutTextConcat(cleared, Joined(writes[..i]), writes[i]);
        LineFeedsConcat(Joined(writes[..i]), writes[i]);
        lines := Write(lines, writes[i]);
      }
      assert writes[..|writes|] == writes;
      ShowsFrame(cleared, base, frame);
      previousLines := lines;
    }
  }

  lemma ShowsIsReady(t: Terminal, before: seq<string>, frame: seq<string>)
    requires Shows(t, before, frame)
    ensures Ready(t)
  {
  }

  lemma NothingWritten(t: Terminal)
    requires Ready(t)
    ensures PutText(t, "") == t && LineFeeds("") == 0
  {
  }

  lemma LastStays(t: Terminal, before: seq<string>, last: seq<string>)
    requires Shows(t, before, last)
    ensures Shows(t, before + last, [])
  {
    var k: nat :| k > 0 && t.rows == before + last + Empties(k);
    assert t.rows == (before + last) + [] + Empties(k);
  }

  /** Any run of updates without errors: the screen is the original content, then exactly the latest
      frame, then blank lines. */
  method RunUpdates(t: Terminal, before: seq<string>, updates: seq<seq<string>>, ghost frames: seq<seq<string>>)
    returns (final: Terminal)
    requires Shows(t, before, []) && |frames| == |updates|
    requires forall i :: 0 <= i < |updates| ==>
               Joined(updates[i]) == Text(frames[i]) && Fits(frames[i], t.height, t.columns)
    ensures Shows(final, before, if frames == [] then [] else Displayed(frames[|frames| - 1]))
  {
    hide Shows, Fits;
    var p := new PeriodicPrinter(t);
    ghost var last: seq<string> := [];
    for i := 0 to |updates|
      invariant fresh(p) && Shows(p.terminal, before, last) && p.previousLines == |last|
      invariant p.terminal.height == t.height && p.terminal.columns == t.columns
      invariant last == if i == 0 then [] else Displayed(frames[i - 1])
    {
      p.Update(false, updates[i], before, last, frames[i]);
      last := Displayed(frames[i]);
    }
    final := p.terminal;
  }
}
