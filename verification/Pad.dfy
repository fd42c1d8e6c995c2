/**
 Padding a cell to a number of visible characters while keeping its colour sequences, and laying the
 cells of a row out in columns. Text is a sequence of runes.
 */
module Pad {
  import opened Base

  const ESC := '\U{001B}'
  const CELL_SEP := "  "

  predicate IsDigit(c: char) {
    '0' <= c <= '9'
  }

  // ----- colour sequences: ESC [ digits m -----

  function DigitsEnd(s: string, i: nat): (j: nat)
    requires i <= |s|
    ensures i <= j <= |s|
    decreases |s| - i
  {
    if i < |s| && IsDigit(s[i]) then DigitsEnd(s, i + 1) else i
  }

  /** Where the colour sequence starting at i ends; i itself if none starts there. */
  function ControlEnd(s: string, i: nat): (j: nat)
    requires i <= |s|
    ensures i <= j <= |s|
  {
    if i + 1 < |s| && s[i] == ESC && s[i + 1] == '[' then
      var d := DigitsEnd(s, i + 2);
      if i + 2 < d < |s| && s[d] == 'm' then d + 1 else i
    else i
  }

  datatype Token = Rune(c: char) | Control(text: string)

  function NextAt(s: string, i: nat): (j: nat)
    requires i < |s|
    ensures i < j <= |s|
  {
    if ControlEnd(s, i) > i then ControlEnd(s, i) else i + 1
  }

  function TokenAt(s: string, i: nat): Token
    requires i < |s|
  {
    if ControlEnd(s, i) > i then Control(s[i..ControlEnd(s, i)]) else Rune(s[i])
  }

  function Lex(s: string, i: nat): seq<Token>
    requires i <= |s|
    decreases |s| - i
  {
    if i == |s| then [] else [TokenAt(s, i)] + Lex(s, NextAt(s, i))
  }

  function Runes(ts: seq<Token>): string {
    if ts == [] then [] else Runes(ts[..|ts| - 1]) + if ts[|ts| - 1].Rune? then [ts[|ts| - 1].c] else []
  }

  function Controls(ts: seq<Token>): seq<string> {
    if ts == [] then [] else Controls(ts[..|ts| - 1]) + if ts[|ts| - 1].Control? then [ts[|ts| - 1].text] else []
  }

  /** What the reader sees of a string, and the colour sequences in it. */
  function Visible(s: string): string {
    Runes(Lex(s, 0))
  }

  function Colours(s: string): seq<string> {
    Controls(Lex(s, 0))
  }

  lemma {:induction false} TokensConcat(a: seq<Token>, b: seq<Token>)
    ensures Runes(a + b) == Runes(a) + Runes(b)
    ensures Controls(a + b) == Controls(a) + Controls(b)
  {
    if b == [] {
      assert a + b == a;
    } else {
      TokensConcat(a, b[..|b| - 1]);
      assert (a + b)[..|a + b| - 1] == a + b[..|b| - 1];
    }
  }

  // ----- when lexing splits at a boundary -----

  /** A character that could carry on an unfinished colour sequence. */
  predicate CarriesOn(c: char) {
    c == '[' || c == 'm' || IsDigit(c)
  }

  lemma {:induction false} DigitsEndConcat(a: string, b: string, i: nat)
    requires i <= |a| && (b == [] || !CarriesOn(b[0]))
    ensures DigitsEnd(a + b, i) == DigitsEnd(a, i)
    decreases |a| - i
  {
    if i >= |a| || !IsDigit(a[i]) {
    } else {
      DigitsEndConcat(a, b, i + 1);
    }
  }

  lemma {:induction false} DigitsEndShift(a: string, b: string, i: nat)
    requires i <= |b|
    ensures DigitsEnd(a + b, |a| + i) == |a| + DigitsEnd(b, i)
    decreases |b| - i
  {
    if i >= |b| || !IsDigit(b[i]) {
    } else {
      DigitsEndShift(a, b, i + 1);
    }
  }

  lemma ControlEndConcat(a: string, b: string, i: nat)
    requires i < |a| && (b == [] || !CarriesOn(b[0]))
    ensures ControlEnd(a + b, i) == ControlEnd(a, i)
  {
    if i + 2 <= |a| {
      DigitsEndConcat(a, b, i + 2);
    }
  }

  lemma ControlEndShift(a: string, b: string, i: nat)
    requires i <= |b|
    ensures ControlEnd(a + b, |a| + i) == |a| + ControlEnd(b, i)
  {
    if i + 2 <= |b| {
      DigitsEndShift(a, b, i + 2);
    }
  }

  lemma TokenShift(a: string, b: string, i: nat)
    requires i < |b|
    ensures NextAt(a + b, |a| + i) == |a| + NextAt(b, i) && TokenAt(a + b, |a| + i) == TokenAt(b, i)
  {
    ControlEndShift(a, b, i);
    assert (a + b)[|a| + i..|a| + ControlEnd(b, i)] == b[i..ControlEnd(b, i)];
  }

  lemma TokenConcat(a: string, b: string, i: nat)
    requires i < |a| && (b == [] || !CarriesOn(b[0]))
    ensures NextAt(a + b, i) == NextAt(a, i) && TokenAt(a + b, i) == TokenAt(a, i)
  {
    ControlEndConcat(a, b, i);
    assert (a + b)[i..ControlEnd(a, i)] == a[i..ControlEnd(a, i)];
  }

  lemma {:induction false} LexShift(a: string, b: string, i: nat)
    requires i <= |b|
    ensures Lex(a + b, |a| + i) == Lex(b, i)
    decreases |b| - i
  {
    hide ControlEnd, TokenAt, NextAt;
    if i >= |b| {
    } else {
      TokenShift(a, b, i);
      LexShift(a, b, NextAt(b, i));
    }
  }

  /** No colour sequence reaches across a boundary whose right side cannot carry one on. */
  lemma {:induction false} LexConcat(a: string, b: string, i: nat)
    requires i <= |a| && (b == [] || !CarriesOn(b[0]))
    ensures Lex(a + b, i) == Lex(a, i) + Lex(b, 0)
    decreases |a| - i
  {
    hide ControlEnd, TokenAt, NextAt;
    if i == |a| {
      LexShift(a, b, 0);
    } else {
      TokenConcat(a, b, i);
      var t, next := TokenAt(a, i), NextAt(a, i);
      LexConcat(a, b, next);
      assert [t] + (Lex(a, next) + Lex(b, 0)) == ([t] + Lex(a, next)) + Lex(b, 0);
    }
  }

  /** Whatever is appended is lexed on its own. */
  ghost predicate Closed(a: string) {
    forall r: string :: Lex(a + r, 0) == Lex(a, 0) + Lex(r, 0)
  }

  lemma ClosedEmpty()
    ensures Closed("")
  {
    forall r: string ensures Lex("" + r, 0) == Lex("", 0) + Lex(r, 0) {
      assert "" + r == r;
    }
  }

  predicate IsControl(c: string) {
    |c| > 0 && ControlEnd(c, 0) == |c|
  }

  lemma ControlFirst(c: string, r: string)
    requires IsControl(c)
    ensures Lex(c + r, 0) == [Control(c)] + Lex(r, 0)
  {
    DigitsEndWithin(c, r, 2);
    assert ControlEnd(c + r, 0) == |c| && (c + r)[0..|c|] == c;
    LexShift(c, r, 0);
  }

  lemma {:induction false} DigitsEndWithin(a: string, b: string, i: nat)
    requires i <= |a| && DigitsEnd(a, i) < |a|
    ensures DigitsEnd(a + b, i) == DigitsEnd(a, i)
    decreases |a| - i
  {
    if i >= |a| || !IsDigit(a[i]) {
    } else {
      DigitsEndWithin(a, b, i + 1);
    }
  }

  lemma LexEmpty()
    ensures Lex([], 0) == []
  {
  }

  lemma ControlStarts(c: string)
    requires IsControl(c)
    ensures c[0] == ESC
  {
  }

  lemma ClosedAfterControl(x: string, c: string)
    requires IsControl(c)
    ensures Closed(x + c)
    ensures Lex(x + c, 0) == Lex(x, 0) + [Control(c)]
  {
    hide Lex, ControlEnd;
    forall r: string ensures Lex(x + c + r, 0) == Lex(x, 0) + [Control(c)] + Lex(r, 0) {
      assert x + c + r == x + (c + r);
      assert (c + r)[0] == ESC by { ControlStarts(c); }
      LexConcat(x, c + r, 0);
      ControlFirst(c, r);
      assert Lex(x, 0) + ([Control(c)] + Lex(r, 0)) == Lex(x, 0) + [Control(c)] + Lex(r, 0);
    }
    LexEmpty();
    assert x + c + [] == x + c;
  }

  lemma SpaceFirst(r: string)
    ensures Lex(" " + r, 0) == [Rune(' ')] + Lex(r, 0)
  {
    LexShift(" ", r, 0);
    assert ControlEnd(" " + r, 0) == 0;
  }

  lemma ClosedAfterSpace(x: string)
    ensures Closed(x + " ")
    ensures Lex(x + " ", 0) == Lex(x, 0) + [Rune(' ')]
  {
    hide Lex;
    forall r: string ensures Lex(x + " " + r, 0) == Lex(x, 0) + [Rune(' ')] + Lex(r, 0) {
      assert x + " " + r == x + (" " + r);
      LexConcat(x, " " + r, 0);
      SpaceFirst(r);
      assert Lex(x, 0) + ([Rune(' ')] + Lex(r, 0)) == Lex(x, 0) + [Rune(' ')] + Lex(r, 0);
    }
    LexEmpty();
    assert x + " " + [] == x + " ";
  }

  // ----- the spans of colour sequences -----

  function NextControl(s: string, i: nat): (j: nat)
    requires i <= |s|
    ensures i <= j <= |s|
    decreases |s| - i
  {
    if i == |s| || ControlEnd(s, i) > i then i else NextControl(s, i + 1)
  }

  function Spans(s: string, i: nat): seq<(nat, nat)>
    requires i <= |s|
    decreases |s| - i
  {
    var j := NextControl(s, i);
    if j == |s| || ControlEnd(s, j) <= i then [] else [(j, ControlEnd(s, j))] + Spans(s, ControlEnd(s, j))
  }

  function AsRunes(s: string): seq<Token> {
    seq(|s|, i requires 0 <= i < |s| => Rune(s[i]))
  }

  lemma {:induction false} RunesAsRunes(s: string)
    ensures Runes(AsRunes(s)) == s && Controls(AsRunes(s)) == []
  {
    if s == [] {
    } else {
      RunesAsRunes(s[..|s| - 1]);
      assert AsRunes(s)[..|s| - 1] == AsRunes(s[..|s| - 1]);
    }
  }

  lemma {:induction false} NextControlIsFirst(s: string, i: nat)
    requires i <= |s|
    ensures forall k :: i <= k < NextControl(s, i) ==> ControlEnd(s, k) == k
    ensures NextControl(s, i) < |s| ==> ControlEnd(s, NextControl(s, i)) > NextControl(s, i)
    decreases |s| - i
  {
    if i >= |s| || ControlEnd(s, i) > i {
    } else {
      NextControlIsFirst(s, i + 1);
    }
  }

  lemma RuneBeforeControl(s: string, i: nat)
    requires i <= |s|
    ensures NextControl(s, i) > i ==>
              && i < |s| && TokenAt(s, i) == Rune(s[i])
              && NextAt(s, i) == i + 1 && NextControl(s, i + 1) == NextControl(s, i)
  {
  }

  /** Up to the next colour sequence the text lexes to its characters. */
  lemma {:induction false} LexToNext(s: string, i: nat)
    requires i <= |s|
    ensures var j := NextControl(s, i); Lex(s, i) == AsRunes(s[i..j]) + Lex(s, j)
    decreases |s| - i
  {
    hide ControlEnd, TokenAt, NextAt, NextControl;
    var j := NextControl(s, i);
    RuneBeforeControl(s, i);
    if i < j {
      LexToNext(s, i + 1);
      hide Lex;
      LexRune(s, i);
      var rest := AsRunes(s[i + 1..j]);
      assert AsRunes(s[i..j]) == [Rune(s[i])] + rest;
      assert [Rune(s[i])] + (rest + Lex(s, j)) == ([Rune(s[i])] + rest) + Lex(s, j);
    } else {
      assert AsRunes(s[i..j]) == [];
    }
  }

  lemma LexRune(s: string, i: nat)
    requires i < |s| && TokenAt(s, i) == Rune(s[i]) && NextAt(s, i) == i + 1
    ensures Lex(s, i) == [Rune(s[i])] + Lex(s, i + 1)
  {
  }

  lemma {:induction false} DigitsEndOfPart(s: string, i: nat, j: nat, k: nat)
    requires i <= j <= |s| && k <= j - i && DigitsEnd(s[i..j], k) < j - i
    ensures DigitsEnd(s, i + k) == i + DigitsEnd(s[i..j], k)
    decreases j - i - k
  {
    if k >= j - i || !IsDigit(s[i..j][k]) {
    } else {
      DigitsEndOfPart(s, i, j, k + 1);
    }
  }

  lemma ControlOfPart(s: string, i: nat, j: nat, k: nat)
    requires i <= j <= |s| && k < j - i
    ensures ControlEnd(s[i..j], k) > k ==> ControlEnd(s, i + k) > i + k
  {
    if ControlEnd(s[i..j], k) > k {
      DigitsEndOfPart(s, i, j, k + 2);
    }
  }

  /** Cutting text short of its next colour sequence makes no new one. */
  lemma {:induction false} LexOfPart(s: string, i: nat, j: nat, k: nat)
    requires i <= j <= |s| && k <= j - i && forall x :: i <= x < j ==> ControlEnd(s, x) == x
    ensures Lex(s[i..j], k) == AsRunes(s[i + k..j])
    decreases j - i - k
  {
    var part := s[i..j];
    if k >= |part| {
    } else {
      ControlOfPart(s, i, j, k);
      LexRune(part, k);
      hide Lex, ControlEnd;
      LexOfPart(s, i, j, k + 1);
      assert AsRunes(s[i + k..j]) == [Rune(s[i + k])] + AsRunes(s[i + k + 1..j]);
    }
  }

  lemma IsControlSpan(s: string, i: nat)
    requires i < |s| && ControlEnd(s, i) > i
    ensures IsControl(s[i..ControlEnd(s, i)])
    ensures Lex(s, i) == [Control(s[i..ControlEnd(s, i)])] + Lex(s, ControlEnd(s, i))
  {
    var e := ControlEnd(s, i);
    DigitsEndInSpan(s, i, e, i + 2);
  }

  lemma {:induction false} DigitsEndInSpan(s: string, i: nat, e: nat, k: nat)
    requires i <= k <= e <= |s| && DigitsEnd(s, k) < e
    ensures DigitsEnd(s[i..e], k - i) == DigitsEnd(s, k) - i
    decreases e - k
  {
    if k >= |s| || !IsDigit(s[k]) {
    } else {
      DigitsEndInSpan(s, i, e, k + 1);
    }
  }

  lemma SpansStep(s: string, i: nat)
    requires i <= |s|
    ensures var j := NextControl(s, i);
            && (Spans(s, i) == [] <==> j == |s|)
            && (j < |s| ==> ControlEnd(s, j) > j && Spans(s, i)[0] == (j, ControlEnd(s, j))
                            && Spans(s, i)[1..] == Spans(s, ControlEnd(s, j)))
  {
    NextControlIsFirst(s, i);
  }

  // ----- padding -----

  /** The longest part of the text that fits, filled up with blanks. */
  function Fit(text: string, length: nat): string {
    text[..Min(|text|, length)] + Blanks(length - Min(|text|, length))
  }

  lemma KeepFitting(shown: string, more: string, length: nat)
    ensures var room := length - Min(|shown|, length);
            (shown + more)[..Min(|shown + more|, length)] == shown[..Min(|shown|, length)] + more[..Min(|more|, room)]
  {
  }

  /** One round of the loop: the part of a chunk that fits, then the colour sequence after it. */
  lemma AppendChunk(out: string, s: string, cur: nat, m: nat)
    requires Closed(out) && cur <= |s| && m <= NextControl(s, cur) - cur
    ensures var chunk, c := s[cur..cur + m], NextControl(s, cur);
            && Visible(out + chunk) == Visible(out) + chunk && Colours(out + chunk) == Colours(out)
            && (c < |s| ==>
                  var text := s[c..ControlEnd(s, c)];
                  && Closed(out + chunk + text)
                  && Visible(out + chunk + text) == Visible(out) + chunk
                  && Colours(out + chunk + text) == Colours(out) + [text])
  {
    hide Lex, Runes, Controls;
    var chunk, c := s[cur..cur + m], NextControl(s, cur);
    NextControlIsFirst(s, cur);
    LexOfPart(s, cur, cur + m, 0);
    assert Lex(out + chunk, 0) == Lex(out, 0) + AsRunes(chunk);
    TokensConcat(Lex(out, 0), AsRunes(chunk));
    RunesAsRunes(chunk);
    if c < |s| {
      IsControlSpan(s, c);
      var text := s[c..ControlEnd(s, c)];
      ClosedAfterControl(out + chunk, text);
      TokensConcat(Lex(out + chunk, 0), [Control(text)]);
      OneToken(Control(text));
    }
  }

  lemma OneToken(t: Token)
    ensures Runes([t]) == (if t.Rune? then [t.c] else []) && Controls([t]) == if t.Control? then [t.text] else []
  {
    assert [t][..0] == [];
  }

  /** What the input holds from a position on: its next chunk, then the colour sequence after it. */
  lemma ReadChunk(s: string, cur: nat)
    requires cur <= |s|
    ensures var c := NextControl(s, cur);
            && Runes(Lex(s, cur)) == s[cur..c] + (if c < |s| then Runes(Lex(s, ControlEnd(s, c))) else [])
            && Controls(Lex(s, cur)) ==
               if c < |s| then [s[c..ControlEnd(s, c)]] + Controls(Lex(s, ControlEnd(s, c))) else []
  {
    hide Lex, Runes, Controls, ControlEnd;
    var c := NextControl(s, cur);
    NextControlIsFirst(s, cur);
    LexToNext(s, cur);
    TokensConcat(AsRunes(s[cur..c]), Lex(s, c));
    RunesAsRunes(s[cur..c]);
    if c < |s| {
      IsControlSpan(s, c);
      var t := Control(s[c..ControlEnd(s, c)]);
      TokensConcat([t], Lex(s, ControlEnd(s, c)));
      OneToken(t);
    } else {
      NothingLeft(s);
    }
  }

  lemma NothingLeft(s: string)
    ensures Runes(Lex(s, |s|)) == [] && Controls(Lex(s, |s|)) == []
  {
  }

  lemma AppendBlank(out: string)
    ensures Visible(out + " ") == Visible(out) + " " && Colours(out + " ") == Colours(out)
  {
    hide Lex, Runes, Controls, Closed;
    ClosedAfterSpace(out);
    TokensConcat(Lex(out, 0), [Rune(' ')]);
    OneToken(Rune(' '));
  }

  lemma {:induction false} AppendBlanks(out: string, n: nat)
    ensures Visible(out + Blanks(n)) == Visible(out) + Blanks(n)
    ensures Colours(out + Blanks(n)) == Colours(out)
  {
    hide Visible, Colours;
    if n == 0 {
      assert out + Blanks(0) == out && Visible(out) + Blanks(0) == Visible(out);
    } else {
      AppendBlanks(out, n - 1);
      AppendBlank(out + Blanks(n - 1));
      assert Blanks(n) == Blanks(n - 1) + " ";
      assert out + Blanks(n) == out + Blanks(n - 1) + " ";
      assert Visible(out) + Blanks(n) == Visible(out) + Blanks(n - 1) + " ";
    }
  }

  /** Exactly the requested number of visible characters, the longest visible part that fits, and
      every colour sequence of the input in its order, also those past the cut. */
  method PadStringKeepControl(s: string, length: nat) returns (out: string)
    ensures Visible(out) == Fit(Visible(s), length) && |Visible(out)| == length
    ensures Colours(out) == Colours(s)
  {
    hide Lex, Runes, Controls, Closed, Visible, Colours, Spans, NextControl, ControlEnd;
    var spans := Spans(s, 0);
    var controls := spans + [(|s|, |s|)];
    var cur: nat, remaining: nat := 0, length;
    out := [];
    ghost var shown: string := [];
    ClosedEmpty();
    EmptyText();
    WholeText(s);
    for k := 0 to |controls|
      invariant cur <= |s| && remaining == length - Min(|shown|, length)
      invariant k <= |spans| ==> spans[k..] == Spans(s, cur) && Closed(out)
      invariant k <= |spans| ==> Visible(s) == shown + Runes(Lex(s, cur))
      invariant k <= |spans| ==> Colours(s) == Colours(out) + Controls(Lex(s, cur))
      invariant k == |controls| ==> Visible(s) == shown && Colours(s) == Colours(out)
      invariant Visible(out) == shown[..Min(|shown|, length)]
    {
      SpansStep(s, cur);
      ReadChunk(s, cur);
      var control := controls[k];
      assert k < |spans| ==> spans[k..][0] == spans[k] && spans[k..][1..] == spans[k + 1..];
      assert control.0 == NextControl(s, cur);
      var chunk := s[cur..control.0];
      var chunkLength := |chunk|;
      if remaining < chunkLength {
        chunk := chunk[..remaining];
        chunkLength := remaining;
      }
      AppendChunk(out, s, cur, chunkLength);
      assert chunk == s[cur..cur + chunkLength];
      KeepFitting(shown, s[cur..control.0], length);
      shown := shown + s[cur..control.0];
      out := out + chunk;
      remaining := remaining - chunkLength;
      assert k == |spans| ==> s[control.0..control.1] == [] && out + [] == out;
      out := out + s[control.0..control.1];
      cur := control.1;
    }
    AppendBlanks(out, remaining);
    if remaining > 0 {
      out := out + Blanks(remaining);
    } else {
      assert Blanks(0) == [];
    }
  }

  lemma WholeText(s: string)
    ensures Visible(s) == [] + Runes(Lex(s, 0)) && Colours(s) == [] + Controls(Lex(s, 0))
  {
  }

  lemma EmptyText()
    ensures Visible("") == "" && Colours("") == []
  {
  }

  // ----- rows -----

  /** Where column j starts: the widths before it, each with its separator. */
  function Offset(widths: seq<nat>, j: nat): nat
    requires j <= |widths|
  {
    if j == 0 then 0 else Offset(widths, j - 1) + widths[j - 1] + |CELL_SEP|
  }

  /** The text of column j in physical line i: the tree prefix goes before the first column. */
  function CellText(cellLines: seq<seq<string>>, prefixHead: string, prefixTail: string, i: nat, j: nat): string
    requires j < |cellLines|
  {
    (if j == 0 then (if i == 0 then prefixHead else prefixTail) else "")
    + (if i < |cellLines[j]| then cellLines[j][i] else "")
  }

  /** The column starts at its offset and shows its text: fitted and separated, or as is if last. */
  ghost predicate ColumnOk(widths: seq<nat>, texts: seq<string>, cells: seq<string>, j: nat)
    requires |texts| == |widths| && j < |widths| && j < |cells|
  {
    && |Visible(Joined(cells[..j]))| == Offset(widths, j)
    && if j == |widths| - 1 then cells[j] == texts[j]
       else Visible(cells[j]) == Fit(Visible(texts[j]), widths[j]) + CELL_SEP && Colours(cells[j]) == Colours(texts[j])
  }

  ghost predicate Aligned(widths: seq<nat>, texts: seq<string>, cells: seq<string>) {
    |texts| == |widths| == |cells| && forall j :: 0 <= j < |cells| ==> ColumnOk(widths, texts, cells, j)
  }

  /** The last column is not padded: a line ends where its text ends. */
  ghost predicate LineWidth(widths: seq<nat>, texts: seq<string>, cells: seq<string>)
    requires |texts| == |widths|
  {
    widths != [] ==>
      |Visible(Joined(cells))| == Offset(widths, |widths| - 1) + |Visible(texts[|widths| - 1])|
  }

  lemma AppendSep(out: string)
    ensures Closed(out + CELL_SEP) && Visible(out + CELL_SEP) == Visible(out) + CELL_SEP
    ensures Colours(out + CELL_SEP) == Colours(out)
  {
    assert out + CELL_SEP == out + " " + " ";
    ClosedAfterSpace(out + " ");
    AppendBlanks(out, 2);
    assert Blanks(2) == CELL_SEP;
  }

  lemma AppendClosed(a: string, b: string)
    requires Closed(a)
    ensures Visible(a + b) == Visible(a) + Visible(b)
  {
    TokensConcat(Lex(a, 0), Lex(b, 0));
  }

  /** One physical line of a row. */
  method PrintLine(widths: seq<nat>, texts: seq<string>) returns (cells: seq<string>)
    requires |texts| == |widths|
    ensures Aligned(widths, texts, cells) && LineWidth(widths, texts, cells)
  {
    hide Lex, Runes, Controls, Closed, Visible, Colours, Fit;
    cells := [];
    ClosedEmpty();
    EmptyText();
    for j := 0 to |widths|
      invariant |cells| == j && forall i :: 0 <= i < j ==> ColumnOk(widths, texts, cells, i)
      invariant j < |widths| ==> Closed(Joined(cells)) && |Visible(Joined(cells))| == Offset(widths, j)
      invariant j == |widths| ==> LineWidth(widths, texts, cells)
    {
      var txt := texts[j];
      ghost var before := cells;
      if j != |widths| - 1 {
        var padded := PadStringKeepControl(txt, widths[j]);
        AppendSep(padded);
        txt := padded + CELL_SEP;
        AppendClosed(Joined(cells), txt);
        AppendSep(Joined(cells) + padded);
        assert Joined(cells) + padded + CELL_SEP == Joined(cells) + txt;
      } else {
        AppendClosed(Joined(cells), txt);
      }
      cells := cells + [txt];
      assert cells[..j] == before;
      forall i | 0 <= i < j ensures ColumnOk(widths, texts, cells, i) {
        assert cells[..i] == before[..i];
        assert ColumnOk(widths, texts, before, i);
      }
      assert ColumnOk(widths, texts, cells, j);
    }
  }

  function CellTexts(cellLines: seq<seq<string>>, prefixHead: string, prefixTail: string, i: nat): seq<string> {
    seq(|cellLines|, j requires 0 <= j < |cellLines| => CellText(cellLines, prefixHead, prefixTail, i, j))
  }

  ghost predicate RowLineOk(widths: seq<nat>, cellLines: seq<seq<string>>, prefixHead: string, prefixTail: string,
                            i: nat, cells: seq<string>)
    requires |cellLines| == |widths|
  {
    var texts := CellTexts(cellLines, prefixHead, prefixTail, i);
    Aligned(widths, texts, cells) && LineWidth(widths, texts, cells)
  }

  /** A whole row, cell texts already split into lines: as many physical lines as the tallest cell
      has, and in every one of them every column starts at the same visible offset. */
  method PrintRow(widths: seq<nat>, cellLines: seq<seq<string>>, prefixHead: string, prefixTail: string)
    returns (rows: seq<seq<string>>)
    requires |cellLines| == |widths|
    ensures forall j :: 0 <= j < |cellLines| ==> |cellLines[j]| <= |rows|
    ensures |rows| > 0 ==> exists j :: 0 <= j < |cellLines| && |cellLines[j]| == |rows|
    ensures forall i :: 0 <= i < |rows| ==> RowLineOk(widths, cellLines, prefixHead, prefixTail, i, rows[i])
  {
    var maxLines: nat := 0;
    for j := 0 to |cellLines|
      invariant forall k :: 0 <= k < j ==> |cellLines[k]| <= maxLines
      invariant maxLines > 0 ==> exists k :: 0 <= k < j && |cellLines[k]| == maxLines
    {
      if |cellLines[j]| > maxLines {
        maxLines := |cellLines[j]|;
      }
    }
    rows := [];
    for i := 0 to maxLines
      invariant |rows| == i
      invariant forall k :: 0 <= k < i ==> RowLineOk(widths, cellLines, prefixHead, prefixTail, k, rows[k])
    {
      var texts := CellTexts(cellLines, prefixHead, prefixTail, i);
      var cells := PrintLine(widths, texts);
      rows := rows + [cells];
    }
  }

  // ----- what the texts are -----

  /** A colour sequence is an escape, a bracket, at least one digit and an m, and ends there. */
  lemma ControlEndMeans(s: string, i: nat, d: nat)
    requires i < |s| && i + 2 < d < |s| && s[i] == '\U{001B}' && s[i + 1] == '[' && s[d] == 'm'
    requires forall k :: i + 2 <= k < d ==> '0' <= s[k] <= '9'
    ensures ControlEnd(s, i) == d + 1
  {
    DigitsEndAt(s, i + 2, d);
  }

  lemma {:induction false} DigitsEndAt(s: string, i: nat, d: nat)
    requires i <= d < |s| && !IsDigit(s[d]) && forall k :: i <= k < d ==> IsDigit(s[k])
    ensures DigitsEnd(s, i) == d
    decreases d - i
  {
    if i == d {
    } else {
      DigitsEndAt(s, i + 1, d);
    }
  }

  lemma {:induction false} DigitsBeforeEnd(s: string, i: nat)
    requires i <= |s|
    ensures forall k :: i <= k < DigitsEnd(s, i) ==> '0' <= s[k] <= '9'
    decreases |s| - i
  {
    if i >= |s| || !IsDigit(s[i]) {
    } else {
      DigitsBeforeEnd(s, i + 1);
    }
  }

  /** And nothing else is one. */
  lemma ControlOnly(s: string, i: nat)
    requires i < |s| && ControlEnd(s, i) != i
    ensures var d := ControlEnd(s, i) - 1;
            && i + 2 < d < |s| && s[i] == '\U{001B}' && s[i + 1] == '[' && s[d] == 'm'
            && forall k :: i + 2 <= k < d ==> '0' <= s[k] <= '9'
  {
    DigitsBeforeEnd(s, i + 2);
  }

  /** A text fitted to a length keeps its characters as far as they go, and goes on with blanks. */
  lemma FitMeans(text: string, length: nat)
    ensures |Fit(text, length)| == length
    ensures forall k :: 0 <= k < length ==> Fit(text, length)[k] == if k < |text| then text[k] else ' '
  {
  }

  /** The head prefix goes before the first column of the first line, the tail prefix before that of every
      other line; a cell without that many lines is empty. */
  lemma CellTextMeans(cellLines: seq<seq<string>>, head: string, tail: string, i: nat, j: nat)
    requires j < |cellLines|
    ensures var line := if i < |cellLines[j]| then cellLines[j][i] else "";
            && (j == 0 && i == 0 ==> CellText(cellLines, head, tail, i, j) == head + line)
            && (j == 0 && i > 0 ==> CellText(cellLines, head, tail, i, j) == tail + line)
            && (j > 0 ==> CellText(cellLines, head, tail, i, j) == line)
  {
    assert forall t: string :: "" + t == t && t + "" == t;
  }

  /** A column starts where the widths of those before it, and two blanks after each, end. */
  lemma {:induction false} OffsetMeans(widths: seq<nat>, j: nat)
    requires j <= |widths|
    ensures Offset(widths, j) == Total(widths, j) + 2 * j
  {
    if j == 0 {
    } else {
      OffsetMeans(widths, j - 1);
    }
  }

  function Total(widths: seq<nat>, j: nat): nat
    requires j <= |widths|
  {
    if j == 0 then 0 else Total(widths, j - 1) + widths[j - 1]
  }
}
