/**
 * The message-of-the-day manager: the de-duplicating append to the loaded
 * MOTD data, the numbered listing, the framed box and the per-character
 * colour gradient.  ANSI styling is modelled by its escape sequences; what a
 * terminal shows is given by `Visible`, which drops them again.
 */
module HakcMotd {
  import opened Wrappers
  import opened PyStr
  import GenLib

  const ESC: char := 27 as char

  /** The select-graphic-rendition sequence `ESC [ code m`. */
  function Sgr(code: string): string
  {
    [ESC] + "[" + code + "m"
  }

  const RESET := Sgr("0")
  const RED := Sgr("31")
  const GREEN := Sgr("32")
  const YELLOW := Sgr("33")
  const BLUE := Sgr("34")
  const MAGENTA := Sgr("35")
  const CYAN := Sgr("36")

  /** The four colour gradients one is drawn from. */
  const GRADIENTS: seq<seq<string>> := [
    [CYAN, BLUE, MAGENTA],
    [GREEN, CYAN, BLUE],
    [MAGENTA, RED, YELLOW],
    [YELLOW, GREEN, CYAN]
  ]

  // ---------------------------------------------------------------------
  // What a terminal shows
  // ---------------------------------------------------------------------

  /** Drops everything up to and including the first 'm'. */
  function SkipCode(s: string): (r: string)
    ensures |r| <= |s|
    decreases |s|
  {
    if s == [] then []
    else if s[0] == 'm' then s[1..]
    else SkipCode(s[1..])
  }

  /** The text with every escape sequence (ESC up to its final 'm') taken out. */
  function Visible(s: string): string
    decreases |s|
  {
    if s == [] then []
    else if s[0] == ESC then Visible(SkipCode(s[1..]))
    else [s[0]] + Visible(s[1..])
  }

  /** An escape sequence that `Visible` removes whole. */
  predicate IsCode(code: string)
  {
    |code| >= 2 && code[0] == ESC && code[|code| - 1] == 'm' && 'm' !in code[1..|code| - 1]
  }

  lemma {:induction false} SkipThrough(mid: string, s: string)
    requires 'm' !in mid
    ensures SkipCode(mid + "m" + s) == s
    decreases |mid|
  {
    if mid == [] {
      assert mid + "m" + s == "m" + s;
    } else {
      assert (mid + "m" + s)[1..] == mid[1..] + "m" + s;
      SkipThrough(mid[1..], s);
    }
  }

  lemma {:induction false} CodeInvisible(code: string, s: string)
    requires IsCode(code)
    ensures Visible(code + s) == Visible(s)
  {
    var mid := code[1..|code| - 1];
    assert code == [ESC] + mid + "m";
    assert (code + s)[1..] == mid + "m" + s;
    SkipThrough(mid, s);
  }

  lemma {:induction false} SgrIsCode(code: string)
    requires 'm' !in code
    ensures IsCode(Sgr(code))
  {
    var s := Sgr(code);
    assert s[1..|s| - 1] == "[" + code;
  }

  lemma {:induction false} GradientsAreCodes()
    ensures forall g, k :: 0 <= g < |GRADIENTS| && 0 <= k < |GRADIENTS[g]| ==> IsCode(GRADIENTS[g][k])
    ensures IsCode(RESET) && IsCode(CYAN)
  {
    SgrIsCode("0");
    SgrIsCode("31");
    SgrIsCode("32");
    SgrIsCode("33");
    SgrIsCode("34");
    SgrIsCode("35");
    SgrIsCode("36");
  }

  /** Text without escape characters is shown as it is. */
  lemma {:induction false} PlainVisible(s: string)
    requires ESC !in s
    ensures Visible(s) == s
    decreases |s|
  {
    if s != [] {
      assert s[1..] == s[1..] && ESC !in s[1..];
      PlainVisible(s[1..]);
      assert [s[0]] + s[1..] == s;
    }
  }

  lemma {:induction false} VisibleSkipsChar(c: char, s: string)
    requires c != ESC
    ensures Visible([c] + s) == [c] + Visible(s)
  {
    assert ([c] + s)[1..] == s;
  }

  // ---------------------------------------------------------------------
  // colorize
  // ---------------------------------------------------------------------

  /** Position `i` of the text: whitespace as it is, anything else after its gradient colour. */
  function Cell(i: nat, c: char, gradient: seq<string>): string
    requires |gradient| > 0
  {
    if IsSpace(c) then [c] else gradient[i % |gradient|] + [c]
  }

  /** The pieces `f` makes of each character of `text`, concatenated; the first character is at position `from`. */
  function Cat(f: (nat, char) -> string, text: string, from: nat): string
    decreases |text|
  {
    if text == [] then [] else f(from, text[0]) + Cat(f, text[1..], from + 1)
  }

  lemma {:induction false} CatAppend(f: (nat, char) -> string, a: string, b: string, from: nat)
    ensures Cat(f, a + b, from) == Cat(f, a, from) + Cat(f, b, from + |a|)
    decreases |a|
  {
    if a == [] {
      assert a + b == b;
    } else {
      assert (a + b)[0] == a[0];
      assert (a + b)[1..] == a[1..] + b;
      CatAppend(f, a[1..], b, from + 1);
    }
  }

  /** The cells of `text`, its first character being at position `from`. */
  function Painted(text: string, gradient: seq<string>, from: nat): string
    requires |gradient| > 0
  {
    Cat((i: nat, c: char) => Cell(i, c, gradient), text, from)
  }

  lemma {:induction false} PaintedAppend(a: string, b: string, gradient: seq<string>, from: nat)
    requires |gradient| > 0
    ensures Painted(a + b, gradient, from) == Painted(a, gradient, from) + Painted(b, gradient, from + |a|)
  {
    CatAppend((i: nat, c: char) => Cell(i, c, gradient), a, b, from);
  }

  /** The first cell and the rest. */
  lemma {:induction false} PaintedCons(text: string, gradient: seq<string>, from: nat)
    requires |gradient| > 0 && text != []
    ensures Painted(text, gradient, from) == Cell(from, text[0], gradient) + Painted(text[1..], gradient, from + 1)
  {
  }

  /**
   * `colorize`: the identity without ANSI; with it, every non-blank character
   * is preceded by the colour of its position in the gradient drawn (`choice`
   * stands for the random draw), and a reset ends the text.
   */
  method Colorize(text: string, useAnsi: bool, choice: nat) returns (out: string)
    requires choice < |GRADIENTS|
    ensures !useAnsi ==> out == text
    ensures useAnsi ==> out == Painted(text, GRADIENTS[choice], 0) + RESET
  {
    if !useAnsi {
      return text;
    }
    var gradient := GRADIENTS[choice];
    var result := "";
    var i := 0;
    while i < |text|
      invariant 0 <= i <= |text|
      invariant result == Painted(text[..i], gradient, 0)
    {
      assert text[..i + 1] == text[..i] + [text[i]];
      PaintedAppend(text[..i], [text[i]], gradient, 0);
      PaintedCons([text[i]], gradient, i);
      assert Painted([text[i]][1..], gradient, i + 1) == [];
      result := result + Cell(i, text[i], gradient);
      i := i + 1;
    }
    assert text[..i] == text;
    out := result + RESET;
  }

  lemma {:induction false} CellVisible(i: nat, c: char, gradient: seq<string>, rest: string)
    requires |gradient| > 0 && forall k :: 0 <= k < |gradient| ==> IsCode(gradient[k])
    requires c != ESC
    ensures Visible(Cell(i, c, gradient) + rest) == [c] + Visible(rest)
  {
    if !IsSpace(c) {
      var code := gradient[i % |gradient|];
      assert code + [c] + rest == code + ([c] + rest);
      CodeInvisible(code, [c] + rest);
    }
    VisibleSkipsChar(c, rest);
  }

  /** Colouring only adds escape sequences: a terminal shows the text itself. */
  lemma {:induction false} PaintedVisible(text: string, gradient: seq<string>, from: nat, tail: string)
    requires |gradient| > 0 && forall k :: 0 <= k < |gradient| ==> IsCode(gradient[k])
    requires ESC !in text
    ensures Visible(Painted(text, gradient, from) + tail) == text + Visible(tail)
    decreases |text|
  {
    if text != [] {
      var c := text[0];
      var rest := Painted(text[1..], gradient, from + 1) + tail;
      PaintedCons(text, gradient, from);
      assert Painted(text, gradient, from) + tail == Cell(from, c, gradient) + rest;
      CellVisible(from, c, gradient, rest);
      PaintedVisible(text[1..], gradient, from + 1, tail);
      assert [c] + (text[1..] + Visible(tail)) == ([c] + text[1..]) + Visible(tail);
      assert [c] + text[1..] == text;
    } else {
      assert Painted(text, gradient, from) + tail == tail;
    }
  }

  lemma {:induction false} ColorizeVisible(text: string, choice: nat)
    requires choice < |GRADIENTS| && ESC !in text
    ensures Visible(Painted(text, GRADIENTS[choice], 0) + RESET) == text
  {
    GradientsAreCodes();
    PaintedVisible(text, GRADIENTS[choice], 0, RESET);
    CodeInvisible(RESET, "");
    assert RESET + "" == RESET;
  }

  /** Each non-blank character is coloured by its position, cycling through the three colours. */
  lemma {:induction false} PaintedCycle(text: string, gradient: seq<string>, from: nat, k: nat)
    requires |gradient| > 0 && k < |text|
    ensures Painted(text, gradient, from)
         == Painted(text[..k], gradient, from) + Cell(from + k, text[k], gradient) + Painted(text[k + 1..], gradient, from + k + 1)
  {
    assert text == text[..k] + ([text[k]] + text[k + 1..]);
    PaintedAppend(text[..k], [text[k]] + text[k + 1..], gradient, from);
    PaintedAppend([text[k]], text[k + 1..], gradient, from + k);
    PaintedCons([text[k]], gradient, from + k);
    assert Painted([text[k]][1..], gradient, from + k + 1) == [];
  }

  // ---------------------------------------------------------------------
  // format_box
  // ---------------------------------------------------------------------

  function Border(left: char, right: char, width: int): string
  {
    [left] + Rep('═', width) + [right]
  }

  /** `f"║  {line}{' ' * padding}║"` with padding = width - len(line). */
  function ContentRow(line: string, width: int): string
  {
    "║  " + line + Spaces(width - |line|) + "║"
  }

  function BoxWidth(text: string): int
  {
    GenLib.MaxLen(Split(text, '\n')) + 4
  }

  function ContentRows(parts: seq<string>, width: int): (rows: seq<string>)
    ensures |rows| == |parts|
    ensures forall k :: 0 <= k < |parts| ==> rows[k] == ContentRow(parts[k], width)
  {
    seq(|parts|, k requires 0 <= k < |parts| => ContentRow(parts[k], width))
  }

  /** The lines `format_box` joins, before any colouring. */
  function BoxLines(text: string): seq<string>
  {
    var width := BoxWidth(text);
    [Border('╔', '╗', width)] + ContentRows(Split(text, '\n'), width) + [Border('╚', '╝', width)]
  }

  method FormatBox(text: string, useAnsi: bool) returns (box: string)
    ensures box == (if useAnsi then CYAN + JoinLines(BoxLines(text)) + RESET else JoinLines(BoxLines(text)))
  {
    var parts := Split(text, '\n');
    var width := GenLib.MaxLen(parts) + 4;
    var lines := [Border('╔', '╗', width)];
    var i := 0;
    while i < |parts|
      invariant 0 <= i <= |parts|
      invariant lines == [Border('╔', '╗', width)] + ContentRows(parts[..i], width)
    {
      ContentRowsSnoc(parts, i, width);
      lines := lines + [ContentRow(parts[i], width)];
      i := i + 1;
    }
    assert parts[..i] == parts;
    lines := lines + [Border('╚', '╝', width)];
    var result := JoinLines(lines);
    if useAnsi {
      box := CYAN + result + RESET;
    } else {
      box := result;
    }
  }

  lemma {:induction false} ContentRowsSnoc(parts: seq<string>, i: nat, width: int)
    requires i < |parts|
    ensures ContentRows(parts[..i + 1], width) == ContentRows(parts[..i], width) + [ContentRow(parts[i], width)]
  {
    var a := ContentRows(parts[..i + 1], width);
    var b := ContentRows(parts[..i], width) + [ContentRow(parts[i], width)];
    forall k | 0 <= k < |a| ensures a[k] == b[k] {
      if k < i {
        assert parts[..i + 1][k] == parts[..i][k];
      }
    }
  }

  /** Rows of lines no longer than width - 4: each is width + 4 long and holds its line from column 3. */
  lemma {:induction false} ContentRowsShape(parts: seq<string>, width: int)
    requires forall k :: 0 <= k < |parts| ==> |parts[k]| <= width - 4
    ensures forall k :: 0 <= k < |parts| ==>
      |ContentRows(parts, width)[k]| == width + 4 && ContentRows(parts, width)[k][3..3 + |parts[k]|] == parts[k]
  {
    forall k | 0 <= k < |parts|
      ensures |ContentRow(parts[k], width)| == width + 4
      ensures ContentRow(parts[k], width)[3..3 + |parts[k]|] == parts[k]
    {
      var line := parts[k];
      assert ContentRow(line, width) == "║  " + (line + (Spaces(width - |line|) + "║"));
    }
  }

  lemma {:induction false} WidthFits(text: string)
    ensures BoxWidth(text) >= 4
    ensures forall k :: 0 <= k < |Split(text, '\n')| ==> |Split(text, '\n')[k]| <= BoxWidth(text) - 4
  {
  }

  /**
   * The box has one row per line of the text between two borders; the
   * borders are width + 2 long but every content row is width + 4 long, so
   * the right edge of the content sticks out two columns past the corners.
   */
  lemma {:induction false} BoxShape(text: string)
    ensures |BoxLines(text)| == |Split(text, '\n')| + 2
    ensures |BoxLines(text)[0]| == BoxWidth(text) + 2
    ensures |BoxLines(text)[|BoxLines(text)| - 1]| == BoxWidth(text) + 2
    ensures forall k :: 1 <= k < |BoxLines(text)| - 1 ==>
      |BoxLines(text)[k]| == BoxWidth(text) + 4 && BoxLines(text)[k][3..3 + |Split(text, '\n')[k - 1]|] == Split(text, '\n')[k - 1]
  {
    var parts := Split(text, '\n');
    var width := BoxWidth(text);
    WidthFits(text);
    ContentRowsShape(parts, width);
    var rows := ContentRows(parts, width);
    forall k | 1 <= k < |BoxLines(text)| - 1 ensures BoxLines(text)[k] == rows[k - 1] {
    }
  }

  /** With the padding two shorter, every row of the box is width + 2 long. */
  function AlignedRow(line: string, width: int): string
  {
    "║  " + line + Spaces(width - |line| - 2) + "║"
  }

  function AlignedRows(parts: seq<string>, width: int): (rows: seq<string>)
    ensures |rows| == |parts|
    ensures forall k :: 0 <= k < |parts| ==> rows[k] == AlignedRow(parts[k], width)
  {
    seq(|parts|, k requires 0 <= k < |parts| => AlignedRow(parts[k], width))
  }

  function AlignedBoxLines(text: string): seq<string>
  {
    var width := BoxWidth(text);
    [Border('╔', '╗', width)] + AlignedRows(Split(text, '\n'), width) + [Border('╚', '╝', width)]
  }

  lemma {:induction false} AlignedRowsShape(parts: seq<string>, width: int)
    requires forall k :: 0 <= k < |parts| ==> |parts[k]| <= width - 4
    ensures forall k :: 0 <= k < |parts| ==>
      |AlignedRows(parts, width)[k]| == width + 2 && AlignedRows(parts, width)[k][3..3 + |parts[k]|] == parts[k]
  {
    forall k | 0 <= k < |parts|
      ensures |AlignedRow(parts[k], width)| == width + 2
      ensures AlignedRow(parts[k], width)[3..3 + |parts[k]|] == parts[k]
    {
      var line := parts[k];
      assert AlignedRow(line, width) == "║  " + (line + (Spaces(width - |line| - 2) + "║"));
    }
  }

  lemma {:induction false} AlignedFrame(parts: seq<string>, width: int)
    requires width >= 0 && forall k :: 0 <= k < |parts| ==> |parts[k]| <= width - 4
    ensures var lines := [Border('╔', '╗', width)] + AlignedRows(parts, width) + [Border('╚', '╝', width)];
      (forall k :: 0 <= k < |lines| ==> |lines[k]| == width + 2) &&
      (forall k :: 1 <= k < |lines| - 1 ==> lines[k][3..3 + |parts[k - 1]|] == parts[k - 1])
  {
    AlignedRowsShape(parts, width);
    var rows := AlignedRows(parts, width);
    var lines := [Border('╔', '╗', width)] + rows + [Border('╚', '╝', width)];
    forall k | 0 <= k < |lines| ensures |lines[k]| == width + 2 {
      if 1 <= k < |lines| - 1 {
        assert lines[k] == rows[k - 1];
      }
    }
    forall k | 1 <= k < |lines| - 1 ensures lines[k][3..3 + |parts[k - 1]|] == parts[k - 1] {
      assert lines[k] == rows[k - 1];
    }
  }

  lemma {:induction false} AlignedBoxShape(text: string)
    ensures |AlignedBoxLines(text)| == |Split(text, '\n')| + 2
    ensures forall k :: 0 <= k < |AlignedBoxLines(text)| ==> |AlignedBoxLines(text)[k]| == BoxWidth(text) + 2
    ensures forall k :: 1 <= k < |AlignedBoxLines(text)| - 1 ==>
      AlignedBoxLines(text)[k][3..3 + |Split(text, '\n')[k - 1]|] == Split(text, '\n')[k - 1]
  {
    WidthFits(text);
    AlignedFrame(Split(text, '\n'), BoxWidth(text));
  }

  /** The cyan wrapping of a box adds nothing a terminal shows. */
  lemma {:induction false} CyanWrapVisible(s: string)
    requires ESC !in s
    ensures Visible(CYAN + s + RESET) == s
  {
    GradientsAreCodes();
    assert CYAN + s + RESET == CYAN + (s + RESET);
    CodeInvisible(CYAN, s + RESET);
    PlainTail(s, RESET);
    CodeInvisible(RESET, "");
    assert RESET + "" == RESET;
  }

  lemma {:induction false} PlainTail(s: string, tail: string)
    requires ESC !in s
    ensures Visible(s + tail) == s + Visible(tail)
    decreases |s|
  {
    if s != [] {
      assert s + tail == [s[0]] + (s[1..] + tail);
      VisibleSkipsChar(s[0], s[1..] + tail);
      PlainTail(s[1..], tail);
      assert [s[0]] + (s[1..] + Visible(tail)) == ([s[0]] + s[1..]) + Visible(tail);
      assert [s[0]] + s[1..] == s;
    } else {
      assert s + tail == tail;
    }
  }

  // ---------------------------------------------------------------------
  // The MOTD data: add_motd and list_motds
  // ---------------------------------------------------------------------

  /** `data.get("motd", [])`. */
  function Listed(motd: Option<seq<string>>): seq<string>
  {
    motd.GetOr([])
  }

  /** The MOTD list after `add_motd(message)`. */
  function AfterAdd(motd: Option<seq<string>>, message: string): Option<seq<string>>
  {
    if message in Listed(motd) then motd else Some(Listed(motd) + [message])
  }

  /**
   * The loaded MOTD data, of which the model keeps the optional "motd" list
   * and the number of times the data was written back.
   */
  class MotdData {
    var motd: Option<seq<string>>
    var saves: nat

    constructor (motd0: Option<seq<string>>)
      ensures motd == motd0 && saves == 0
    {
      motd := motd0;
      saves := 0;
    }

    /**
     * `add_motd`: a message already listed is refused and nothing changes;
     * otherwise it is appended (creating the list if absent) and the data saved.
     */
    method AddMotd(message: string) returns (added: bool)
      modifies this
      ensures added == (message !in Listed(old(motd)))
      ensures motd == AfterAdd(old(motd), message)
      ensures saves == old(saves) + (if added then 1 else 0)
    {
      if motd.Some? && message in motd.value {
        return false;
      }
      if motd.None? {
        motd := Some([]);
      }
      motd := Some(motd.value + [message]);
      saves := saves + 1;
      added := true;
    }

    /** `list_motds`: a header, an empty line, then one numbered line per MOTD. */
    method ListMotds(useAnsi: bool) returns (text: string)
      ensures text == JoinLines(ListLines(Listed(motd), useAnsi))
    {
      var motds := Listed(motd);
      var lines := [ListHeader(|motds|), ""];
      var i := 0;
      while i < |motds|
        invariant 0 <= i <= |motds|
        invariant lines == [ListHeader(|motds|), ""] + Numbered(motds[..i], useAnsi)
      {
        assert Numbered(motds[..i + 1], useAnsi) == Numbered(motds[..i], useAnsi) + [Prefix(i + 1, useAnsi) + motds[i]];
        lines := lines + [Prefix(i + 1, useAnsi) + motds[i]];
        i := i + 1;
      }
      assert motds[..i] == motds;
      text := JoinLines(lines);
    }
  }

  /** A message that was not listed is appended exactly once, after everything that was. */
  lemma {:induction false} AddAppendsOnce(motd: Option<seq<string>>, message: string)
    requires message !in Listed(motd)
    ensures Listed(AfterAdd(motd, message)) == Listed(motd) + [message]
    ensures multiset(Listed(AfterAdd(motd, message)))[message] == 1
  {
    assert multiset(Listed(motd))[message] == 0;
  }

  /** Adding the same message twice is adding it once. */
  lemma {:induction false} AddIdempotent(motd: Option<seq<string>>, message: string)
    ensures message in Listed(AfterAdd(motd, message))
    ensures AfterAdd(AfterAdd(motd, message), message) == AfterAdd(motd, message)
  {
    if message !in Listed(motd) {
      assert Listed(AfterAdd(motd, message))[|Listed(motd)|] == message;
    }
  }

  predicate Distinct(xs: seq<string>)
  {
    forall i, j :: 0 <= i < j < |xs| ==> xs[i] != xs[j]
  }

  /** A list without repetitions stays without them. */
  lemma {:induction false} AddKeepsDistinct(motd: Option<seq<string>>, message: string)
    requires Distinct(Listed(motd))
    ensures Distinct(Listed(AfterAdd(motd, message)))
  {
    var l := Listed(motd);
    if message !in l {
      var n := l + [message];
      forall i, j | 0 <= i < j < |n| ensures n[i] != n[j] {
        if j == |l| {
          assert n[i] == l[i];
        } else {
          assert n[i] == l[i] && n[j] == l[j];
        }
      }
    }
  }

  function ListHeader(count: nat): string
  {
    "=== haKC MOTDs (" + NatToString(count) + " total) ==="
  }

  /** `f"[{i:3d}] "`: the number right-aligned in three columns, cyan-wrapped with ANSI. */
  function NumberTag(i: nat): string
  {
    "[" + Spaces(3 - |NatToString(i)|) + NatToString(i) + "] "
  }

  function Prefix(i: nat, useAnsi: bool): string
  {
    if useAnsi then CYAN + NumberTag(i) + RESET else NumberTag(i)
  }

  function Numbered(motds: seq<string>, useAnsi: bool): (lines: seq<string>)
    ensures |lines| == |motds|
    ensures forall k :: 0 <= k < |motds| ==> lines[k] == Prefix(k + 1, useAnsi) + motds[k]
  {
    seq(|motds|, k requires 0 <= k < |motds| => Prefix(k + 1, useAnsi) + motds[k])
  }

  function ListLines(motds: seq<string>, useAnsi: bool): seq<string>
  {
    [ListHeader(|motds|), ""] + Numbered(motds, useAnsi)
  }

  lemma {:induction false} ListShape(motds: seq<string>, useAnsi: bool)
    ensures |ListLines(motds, useAnsi)| == |motds| + 2
    ensures ListLines(motds, useAnsi)[1] == ""
    ensures forall k :: 0 <= k < |motds| ==>
      EndsWith(ListLines(motds, useAnsi)[k + 2], motds[k]) && StartsWith(ListLines(motds, useAnsi)[k + 2], Prefix(k + 1, useAnsi))
  {
    forall k | 0 <= k < |motds|
      ensures EndsWith(ListLines(motds, useAnsi)[k + 2], motds[k])
      ensures StartsWith(ListLines(motds, useAnsi)[k + 2], Prefix(k + 1, useAnsi))
    {
      var line := Prefix(k + 1, useAnsi) + motds[k];
      assert line[|line| - |motds[k]|..] == motds[k];
      StartsWithJoin(Prefix(k + 1, useAnsi), motds[k]);
    }
  }

  /** Below 1000 every tag is six characters long, and different numbers get different tags. */
  lemma {:induction false} NumberTagsDiffer(i: nat, j: nat)
    requires i < 1000 && j < 1000 && i != j
    ensures |NumberTag(i)| == 6
    ensures NumberTag(i) != NumberTag(j)
  {
    TagField(i);
    TagField(j);
    if NumberTag(i) == NumberTag(j) {
      assert NumberTag(i)[1..4] == NumberTag(j)[1..4];
      NatToStringInjective(i, j);
    }
  }

  /** The three columns of a tag, stripped of their leading blanks, are the number. */
  lemma {:induction false} TagField(n: nat)
    requires n < 1000
    ensures |NumberTag(n)| == 6
    ensures LStrip(NumberTag(n)[1..4]) == NatToString(n)
  {
    NatToStringBelow1000(n);
    var a := NatToString(n);
    assert NumberTag(n)[1..4] == Spaces(3 - |a|) + a;
    assert !IsSpace(a[0]) by {
      assert IsDigit(a[0]);
    }
    StripBlanks(3 - |a|, a);
  }

  lemma {:induction false} StripBlanks(k: nat, a: string)
    requires a != [] && !IsSpace(a[0])
    ensures LStrip(Spaces(k) + a) == a
    decreases k
  {
    if k == 0 {
      assert Spaces(k) + a == a;
    } else {
      assert (Spaces(k) + a)[1..] == Spaces(k - 1) + a;
      StripBlanks(k - 1, a);
    }
  }

  lemma {:induction false} NatToStringBelow1000(n: nat)
    requires n < 1000
    ensures |NatToString(n)| <= 3
  {
    if n >= 10 {
      assert NatToString(n) == NatToString(n / 10) + [DigitChar(n % 10)];
      if n / 10 >= 10 {
        assert NatToString(n / 10) == NatToString(n / 100) + [DigitChar(n / 10 % 10)];
      }
    }
  }

  /** With ANSI the listing shows the same text as without. */
  lemma {:induction false} PrefixVisible(i: nat, motd: string)
    requires ESC !in motd
    ensures Visible(Prefix(i, true) + motd) == Prefix(i, false) + motd
  {
    GradientsAreCodes();
    var tag := NumberTag(i);
    assert forall d :: 0 <= d < |NatToString(i)| ==> NatToString(i)[d] != ESC;
    assert ESC !in tag;
    assert CYAN + tag + RESET + motd == CYAN + (tag + (RESET + motd));
    CodeInvisible(CYAN, tag + (RESET + motd));
    PlainTail(tag, RESET + motd);
    CodeInvisible(RESET, motd);
    PlainVisible(motd);
  }
}
