/**
 * The menu generator: four framed menu styles built line by line, and
 * submenus made from them by replacing the quit line with a "Back to"
 * line.  Every framed row is a left border, a padded inner text and a right
 * border; the text is the lines joined with newlines.
 */
module HakcMenu {
  import opened Wrappers
  import opened PyStr

  datatype Style = Minimal | Bbs | Modern

  /** `left + fill * (width - 2) + right`. */
  function Rule(left: char, fill: char, right: char, width: int): string
  {
    [left] + Rep(fill, width - 2) + [right]
  }

  /** `left + text.center(width - 2, fill) + right`. */
  function Centered(side: char, text: string, width: int, fill: char): string
  {
    [side] + Center(text, width - 2, fill) + [side]
  }

  /** `side + text.ljust(width - 2) + side`. */
  function Framed(side: char, text: string, width: int): string
  {
    [side] + LJust(text, width - 2) + [side]
  }

  function Side(style: Style): char
  {
    match style
    case Minimal => '│'
    case Bbs => '║'
    case Modern => '┃'
  }

  /** The text of option `i` (counted from 1) before it is framed. */
  function OptionText(style: Style, i: nat, opt: string): string
  {
    match style
    case Minimal => "  " + NatToString(i) + ". " + opt
    case Bbs => "  <" + NatToString(i) + "> " + opt
    case Modern => "  → " + NatToString(i) + "  " + opt
  }

  /** One framed row per option, numbered from 1. */
  function OptionRows(style: Style, options: seq<string>, width: int): (rows: seq<string>)
    ensures |rows| == |options|
    ensures forall k :: 0 <= k < |options| ==>
      rows[k] == Framed(Side(style), OptionText(style, k + 1, options[k]), width)
  {
    seq(|options|, k requires 0 <= k < |options| =>
      Framed(Side(style), OptionText(style, k + 1, options[k]), width))
  }

  /** The quit and exit lines, each an indent followed by what a submenu replaces. */
  const QUIT_KEY := "q. Quit"
  const EXIT_KEY := "q  Exit"
  const BBS_EXIT_KEY := "<X> eXit to Main"
  const MINIMAL_QUIT := "  " + QUIT_KEY
  const BBS_EXIT := "  " + BBS_EXIT_KEY
  const BBS_PROMPT := "  Your choice? _"
  const MODERN_EXIT := "  → " + EXIT_KEY

  /** The list of lines `generate_minimal_menu` joins. */
  function MinimalLines(name: string, options: seq<string>, width: int): seq<string>
  {
    [Rule('┌', '─', '┐', width), Centered('│', name, width, ' '), Rule('├', '─', '┤', width)]
    + OptionRows(Minimal, options, width)
    + [Centered('│', "", width, ' ')] + [Framed('│', MINIMAL_QUIT, width)] + [Rule('└', '─', '┘', width)] + [""]
  }

  function BbsTitle(name: string): string
  {
    " ◄ " + name + " MENU ► "
  }

  /** The list of lines `generate_bbs_menu` joins. */
  function BbsLines(name: string, options: seq<string>, width: int): seq<string>
  {
    [Rule('╔', '═', '╗', width), Centered('║', BbsTitle(name), width, '═'),
     Rule('╠', '═', '╣', width), Centered('║', "", width, ' ')]
    + OptionRows(Bbs, options, width)
    + [Centered('║', "", width, ' ')] + [Framed('║', BBS_EXIT, width)] + [Centered('║', "", width, ' ')]
    + [Rule('╟', '─', '╢', width)] + [Framed('║', BBS_PROMPT, width)] + [Rule('╚', '═', '╝', width)] + [""]
  }

  /** The list of lines `generate_modern_menu` joins. */
  function ModernLines(name: string, options: seq<string>, width: int): seq<string>
  {
    [Rule('┏', '━', '┓', width), Centered('┃', name, width, ' '),
     Rule('┣', '━', '┫', width), Centered('┃', "", width, ' ')]
    + OptionRows(Modern, options, width)
    + [Centered('┃', "", width, ' ')] + [Framed('┃', MODERN_EXIT, width)] + [Centered('┃', "", width, ' ')]
    + [Rule('┗', '━', '┛', width)] + [""]
  }

  /** The loop shared by the three working generators: frame each option in turn. */
  method AddOptionRows(style: Style, lines: seq<string>, options: seq<string>, width: int)
    returns (out: seq<string>)
    ensures out == lines + OptionRows(style, options, width)
  {
    out := lines;
    var i := 0;
    while i < |options|
      invariant 0 <= i <= |options|
      invariant out == lines + OptionRows(style, options[..i], width)
    {
      var row := Framed(Side(style), OptionText(style, i + 1, options[i]), width);
      OptionRowsSnoc(style, options, i, width);
      out := out + [row];
      i := i + 1;
    }
    assert options[..i] == options;
  }

  lemma {:induction false} OptionRowsSnoc(style: Style, options: seq<string>, i: nat, width: int)
    requires i < |options|
    ensures OptionRows(style, options[..i + 1], width)
         == OptionRows(style, options[..i], width) + [Framed(Side(style), OptionText(style, i + 1, options[i]), width)]
  {
    var o1 := options[..i + 1];
    var o0 := options[..i];
    var a := OptionRows(style, o1, width);
    var b := OptionRows(style, o0, width) + [Framed(Side(style), OptionText(style, i + 1, options[i]), width)];
    assert |a| == |b|;
    forall k | 0 <= k < |a| ensures a[k] == b[k] {
      assert o1[k] == options[k];
      if k < i {
        assert o0[k] == options[k];
        assert b[k] == OptionRows(style, o0, width)[k];
      }
    }
  }

  method GenerateMinimalMenu(name: string, options: seq<string>, width: int) returns (menu: string)
    ensures menu == JoinLines(MinimalLines(name, options, width))
  {
    var lines := [Rule('┌', '─', '┐', width), Centered('│', name, width, ' '), Rule('├', '─', '┤', width)];
    lines := AddOptionRows(Minimal, lines, options, width);
    lines := lines + [Centered('│', "", width, ' ')];
    lines := lines + [Framed('│', MINIMAL_QUIT, width)];
    lines := lines + [Rule('└', '─', '┘', width)];
    lines := lines + [""];
    menu := JoinLines(lines);
  }

  method GenerateBbsMenu(name: string, options: seq<string>, width: int) returns (menu: string)
    ensures menu == JoinLines(BbsLines(name, options, width))
  {
    var lines := [Rule('╔', '═', '╗', width), Centered('║', BbsTitle(name), width, '═'),
                  Rule('╠', '═', '╣', width), Centered('║', "", width, ' ')];
    lines := AddOptionRows(Bbs, lines, options, width);
    lines := lines + [Centered('║', "", width, ' ')];
    lines := lines + [Framed('║', BBS_EXIT, width)];
    lines := lines + [Centered('║', "", width, ' ')];
    lines := lines + [Rule('╟', '─', '╢', width)];
    lines := lines + [Framed('║', BBS_PROMPT, width)];
    lines := lines + [Rule('╚', '═', '╝', width)];
    lines := lines + [""];
    menu := JoinLines(lines);
  }

  method GenerateModernMenu(name: string, options: seq<string>, width: int) returns (menu: string)
    ensures menu == JoinLines(ModernLines(name, options, width))
  {
    var lines := [Rule('┏', '━', '┓', width), Centered('┃', name, width, ' '),
                  Rule('┣', '━', '┫', width), Centered('┃', "", width, ' ')];
    lines := AddOptionRows(Modern, lines, options, width);
    lines := lines + [Centered('┃', "", width, ' ')];
    lines := lines + [Framed('┃', MODERN_EXIT, width)];
    lines := lines + [Centered('┃', "", width, ' ')];
    lines := lines + [Rule('┗', '━', '┛', width)];
    lines := lines + [""];
    menu := JoinLines(lines);
  }

  // ---------------------------------------------------------------------
  // The warez style
  // ---------------------------------------------------------------------

  /** The first option number whose label `chr` rejects: `ord('A') + i - 10` passes U+10FFFF. */
  const KEY_LIMIT: nat := 0x11_0000 - 55
  const CHR_ERROR := "chr() arg not in range(0x110000)"
  /** What evaluating `(width - 4).center(...)` raises. */
  const ATTRIBUTE_ERROR := "'int' object has no attribute 'center'"

  /**
   * The label of option `i`: the digit for i < 10, otherwise the character
   * `ord('A') + i - 10`; None when that code point is no Unicode scalar value.
   */
  function WarezKey(i: nat): Option<string>
  {
    if i < 10 then Some(NatToString(i))
    else
      var cp := 55 + i;
      if cp < 0xD800 || (0xE000 <= cp < 0x11_0000) then Some([cp as char]) else None
  }

  /** The exception `generate_warez_menu` ends in, whatever its arguments. */
  function WarezFailure(options: seq<string>): string
  {
    if |options| >= KEY_LIMIT then CHR_ERROR else ATTRIBUTE_ERROR
  }

  /**
   * `generate_warez_menu`: it frames the header and the options, then fails
   * on the separator row, where `.center` is called on an integer.
   */
  method GenerateWarezMenu(name: string, options: seq<string>, width: int) returns (r: Result<string, string>)
    ensures r.Failure?
    ensures r.error == WarezFailure(options)
  {
    var lines := [Rule('╔', '═', '╗', width), Centered('║', " " + name + " ", width, '═'),
                  Rule('╠', '═', '╣', width), Centered('║', "", width, ' ')];
    var i := 1;
    while i <= |options|
      invariant 1 <= i <= |options| + 1
      invariant i <= KEY_LIMIT
    {
      if i >= KEY_LIMIT {
        return Failure(CHR_ERROR);
      }
      var key := WarezKey(i);
      if key.Some? {
        lines := lines + [Framed('║', "  [" + key.value + "] " + options[i - 1], width)];
      }
      i := i + 1;
    }
    lines := lines + [Centered('║', "", width, ' '), Framed('║', "  [Q] Quit", width), Centered('║', "", width, ' ')];
    return Failure(ATTRIBUTE_ERROR);
  }

  /** Every label is one character, digits for the first nine options, and no two options share one. */
  lemma {:induction false} WarezKeys(i: nat, j: nat)
    requires 1 <= i < j
    requires WarezKey(i).Some? && WarezKey(j).Some?
    ensures |WarezKey(i).value| == 1
    ensures i < 10 ==> IsDigit(WarezKey(i).value[0])
    ensures i >= 10 ==> WarezKey(i).value[0] as int == 'A' as int + i - 10
    ensures WarezKey(i).value != WarezKey(j).value
  {
    if j < 10 {
      if WarezKey(i).value == WarezKey(j).value {
        NatToStringInjective(i, j);
      }
    } else if i < 10 {
      assert IsDigit(WarezKey(i).value[0]);
      assert WarezKey(j).value[0] as int >= 65;
    } else {
      assert WarezKey(i).value[0] as int == 55 + i;
      assert WarezKey(j).value[0] as int == 55 + j;
    }
  }

  const WAREZ_QUIT := "  [Q] Quit"
  const WAREZ_PROMPT := "  Select option: _"

  /** Every option up to the last has a label. */
  predicate WarezLabelled(options: seq<string>)
  {
    forall i :: 1 <= i <= |options| ==> WarezKey(i).Some?
  }

  /** The text of option `i` (counted from 1) before it is framed: its label in brackets, then the option. */
  function WarezText(i: nat, opt: string): string
    requires WarezKey(i).Some?
  {
    "  [" + WarezKey(i).value + "] " + opt
  }

  function WarezRows(options: seq<string>, width: int): (rows: seq<string>)
    requires WarezLabelled(options)
    ensures |rows| == |options|
    ensures forall k :: 0 <= k < |options| ==> rows[k] == Framed('║', WarezText(k + 1, options[k]), width)
  {
    seq(|options|, k requires 0 <= k < |options| => Framed('║', WarezText(k + 1, options[k]), width))
  }

  /** The four rows above the options of the warez menu. */
  function WarezHead(name: string, width: int): seq<string>
  {
    [Rule('╔', '═', '╗', width), Centered('║', " " + name + " ", width, '═'),
     Rule('╠', '═', '╣', width), Centered('║', "", width, ' ')]
  }

  /**
   * The seven lines below the options of the warez menu as evidently meant:
   * as written, except that the separator row centres the rule
   * `"─" * (width - 4)` instead of calling `.center` on the number
   * `width - 4`.
   */
  function WarezFoot(width: int): seq<string>
  {
    [Centered('║', "", width, ' '), Framed('║', WAREZ_QUIT, width), Centered('║', "", width, ' '),
     Centered('║', Rep('─', width - 4), width, ' '), Framed('║', WAREZ_PROMPT, width),
     Rule('╚', '═', '╝', width), ""]
  }

  /** The lines `generate_warez_menu` evidently means to join. */
  function WarezLines(name: string, options: seq<string>, width: int): seq<string>
    requires WarezLabelled(options)
  {
    WarezHead(name, width) + WarezRows(options, width) + WarezFoot(width)
  }

  /** Indexing a join of three sequences. */
  lemma {:induction false} JoinAt<T>(a: seq<T>, b: seq<T>, c: seq<T>, k: nat)
    requires k < |a| + |b| + |c|
    ensures (a + b + c)[k] == if k < |a| then a[k] else if k < |a| + |b| then b[k - |a|] else c[k - |a| - |b|]
  {
  }

  lemma {:induction false} WarezParts(name: string, width: int)
    ensures |WarezHead(name, width)| == 4 && |WarezFoot(width)| == 7
    ensures WarezFoot(width)[1] == Framed('║', WAREZ_QUIT, width) && WarezFoot(width)[6] == ""
    ensures width >= |WAREZ_PROMPT| + 2 && |name| + 2 <= width - 2 ==>
      (forall k :: 0 <= k < 4 ==> |WarezHead(name, width)[k]| == width) && (forall k :: 0 <= k < 6 ==> |WarezFoot(width)[k]| == width)
  {
    assert |WAREZ_PROMPT| == 18 && |WAREZ_QUIT| == 10;
  }

  /** The intended warez menu: eleven more lines than options, its options in order after the four header rows, and a final empty line. */
  lemma {:induction false} WarezShape(name: string, options: seq<string>, width: int)
    requires WarezLabelled(options)
    ensures |WarezLines(name, options, width)| == |options| + 11
    ensures WarezLines(name, options, width)[|options| + 10] == ""
    ensures forall k :: 0 <= k < |options| ==> WarezLines(name, options, width)[k + 4] == Framed('║', WarezText(k + 1, options[k]), width)
    ensures WarezLines(name, options, width)[|options| + 5] == Framed('║', WAREZ_QUIT, width)
  {
    var head, rows, foot := WarezHead(name, width), WarezRows(options, width), WarezFoot(width);
    WarezParts(name, width);
    JoinAt(head, rows, foot, |options| + 10);
    JoinAt(head, rows, foot, |options| + 5);
    forall k | 0 <= k < |options| ensures (head + rows + foot)[k + 4] == rows[k] {
      JoinAt(head, rows, foot, k + 4);
    }
  }

  /** When the title and every option fit in width - 2, every row of the intended warez menu but the final empty one is `width` long. */
  lemma {:induction false} WarezWidths(name: string, options: seq<string>, width: int)
    requires WarezLabelled(options)
    requires width >= |WAREZ_PROMPT| + 2 && |name| + 2 <= width - 2
    requires forall k :: 0 <= k < |options| ==> |WarezText(k + 1, options[k])| <= width - 2
    ensures forall k :: 0 <= k < |options| + 10 ==> |WarezLines(name, options, width)[k]| == width
  {
    var head, rows, foot := WarezHead(name, width), WarezRows(options, width), WarezFoot(width);
    WarezParts(name, width);
    forall k | 0 <= k < |options| + 10 ensures |(head + rows + foot)[k]| == width {
      JoinAt(head, rows, foot, k);
    }
  }

  // ---------------------------------------------------------------------
  // Submenus
  // ---------------------------------------------------------------------

  const MINIMAL_WIDTH := 40
  const BBS_WIDTH := 60
  const MODERN_WIDTH := 50

  /**
   * `generate_submenu`: the generator of `style` at its default width, with
   * its quit line turned into a "Back to parent" line by `str.replace`.
   */
  function GenerateSubmenu(name: string, options: seq<string>, parent: string, style: string): (r: Result<string, string>)
    ensures style == "warez" ==> r == Failure(WarezFailure(options))
    ensures style != "warez" ==> r.Success?
  {
    if style == "warez" then Failure(WarezFailure(options))
    else if style == "bbs" then
      Success(ReplaceAll(JoinLines(BbsLines(name, options, BBS_WIDTH)), BBS_EXIT_KEY, "<B> Back to " + parent))
    else
      var menu := if style == "minimal" then JoinLines(MinimalLines(name, options, MINIMAL_WIDTH))
                  else JoinLines(ModernLines(name, options, MODERN_WIDTH));
      Success(ReplaceAll(ReplaceAll(menu, QUIT_KEY, "b. Back to " + parent), EXIT_KEY, "b  Back to " + parent))
  }

  // ---------------------------------------------------------------------
  // Shape of the three working menus
  // ---------------------------------------------------------------------

  /** A trailing empty line makes the joined text end in a newline. */
  lemma {:induction false} JoinTrailingEmpty(front: seq<string>)
    requires |front| >= 1
    ensures JoinLines(front + [""]) == JoinLines(front) + "\n"
    decreases |front|
  {
    if |front| == 1 {
      assert front + [""] == [front[0], ""];
      assert [front[0], ""][1..] == [""];
      assert Join([""], "\n") == "";
      assert Join([front[0], ""], "\n") == front[0] + "\n" + Join([""], "\n");
      assert JoinLines(front) == front[0];
    } else {
      assert (front + [""])[1..] == front[1..] + [""];
      JoinTrailingEmpty(front[1..]);
    }
  }

  lemma {:induction false} MinimalShape(name: string, options: seq<string>, width: int)
    ensures |MinimalLines(name, options, width)| == |options| + 7
    ensures MinimalLines(name, options, width)[|options| + 6] == ""
    ensures JoinLines(MinimalLines(name, options, width))
         == JoinLines(MinimalLines(name, options, width)[..|options| + 6]) + "\n"
  {
    var l := MinimalLines(name, options, width);
    assert l == l[..|options| + 6] + [""];
    JoinTrailingEmpty(l[..|options| + 6]);
  }

  lemma {:induction false} BbsShape(name: string, options: seq<string>, width: int)
    ensures |BbsLines(name, options, width)| == |options| + 11
    ensures BbsLines(name, options, width)[|options| + 10] == ""
    ensures JoinLines(BbsLines(name, options, width))
         == JoinLines(BbsLines(name, options, width)[..|options| + 10]) + "\n"
  {
    var l := BbsLines(name, options, width);
    assert l == l[..|options| + 10] + [""];
    JoinTrailingEmpty(l[..|options| + 10]);
  }

  lemma {:induction false} ModernShape(name: string, options: seq<string>, width: int)
    ensures |ModernLines(name, options, width)| == |options| + 9
    ensures ModernLines(name, options, width)[|options| + 8] == ""
    ensures JoinLines(ModernLines(name, options, width))
         == JoinLines(ModernLines(name, options, width)[..|options| + 8]) + "\n"
  {
    var l := ModernLines(name, options, width);
    assert l == l[..|options| + 8] + [""];
    JoinTrailingEmpty(l[..|options| + 8]);
  }

  /** Every option text of `style` fits between the borders. */
  predicate OptionsFit(style: Style, options: seq<string>, width: int)
  {
    forall k :: 0 <= k < |options| ==> |OptionText(style, k + 1, options[k])| <= width - 2
  }

  lemma {:induction false} RowWidths(style: Style, options: seq<string>, width: int)
    requires width >= 2 && OptionsFit(style, options, width)
    ensures forall k :: 0 <= k < |options| ==> |OptionRows(style, options, width)[k]| == width
  {
  }

  /** When the title and every option fit in width - 2, every row but the final empty one is `width` long. */
  lemma {:induction false} MinimalWidths(name: string, options: seq<string>, width: int)
    requires width >= |MINIMAL_QUIT| + 2 && |name| <= width - 2
    requires OptionsFit(Minimal, options, width)
    ensures forall k :: 0 <= k < |options| + 6 ==> |MinimalLines(name, options, width)[k]| == width
  {
    RowWidths(Minimal, options, width);
  }

  lemma {:induction false} BbsWidths(name: string, options: seq<string>, width: int)
    requires width >= |BBS_EXIT| + 2 && |BbsTitle(name)| <= width - 2
    requires OptionsFit(Bbs, options, width)
    ensures forall k :: 0 <= k < |options| + 10 ==> |BbsLines(name, options, width)[k]| == width
  {
    var head := [Rule('╔', '═', '╗', width), Centered('║', BbsTitle(name), width, '═'),
                 Rule('╠', '═', '╣', width), Centered('║', "", width, ' ')];
    var rows := OptionRows(Bbs, options, width);
    var foot := [Centered('║', "", width, ' '), Framed('║', BBS_EXIT, width), Centered('║', "", width, ' '),
                 Rule('╟', '─', '╢', width), Framed('║', BBS_PROMPT, width), Rule('╚', '═', '╝', width), ""];
    AppendSeven(head + rows, foot[0], foot[1], foot[2], foot[3], foot[4], foot[5], foot[6]);
    RowWidths(Bbs, options, width);
    BbsFrameWidths(name, width);
    forall k | 0 <= k < |options| + 10 ensures |(head + rows + foot)[k]| == width {
      if k < 4 {
        assert (head + rows + foot)[k] == head[k];
      } else if k < |options| + 4 {
        assert (head + rows + foot)[k] == rows[k - 4];
      } else {
        assert (head + rows + foot)[k] == foot[k - 4 - |options|];
      }
    }
  }

  /** Every fixed row of the bbs menu is as wide as the menu. */
  lemma {:induction false} BbsFrameWidths(name: string, width: int)
    requires width >= |BBS_EXIT| + 2 && |BbsTitle(name)| <= width - 2
    ensures |Rule('╔', '═', '╗', width)| == width && |Centered('║', BbsTitle(name), width, '═')| == width
    ensures |Rule('╠', '═', '╣', width)| == width && |Centered('║', "", width, ' ')| == width
    ensures |Framed('║', BBS_EXIT, width)| == width && |Rule('╟', '─', '╢', width)| == width
    ensures |Framed('║', BBS_PROMPT, width)| == width && |Rule('╚', '═', '╝', width)| == width
  {
    assert |BBS_PROMPT| == 16 && |BBS_EXIT| == 18;
  }

  lemma {:induction false} AppendSeven<T>(q: seq<T>, x1: T, x2: T, x3: T, x4: T, x5: T, x6: T, x7: T)
    ensures q + [x1] + [x2] + [x3] + [x4] + [x5] + [x6] + [x7] == q + [x1, x2, x3, x4, x5, x6, x7]
  {
  }

  lemma {:induction false} ModernWidths(name: string, options: seq<string>, width: int)
    requires width >= |MODERN_EXIT| + 2 && |name| <= width - 2
    requires OptionsFit(Modern, options, width)
    ensures forall k :: 0 <= k < |options| + 8 ==> |ModernLines(name, options, width)[k]| == width
  {
    RowWidths(Modern, options, width);
  }

  // ---------------------------------------------------------------------
  // What a submenu changes
  // ---------------------------------------------------------------------

  /** No line holds the pattern `p`. */
  predicate AllFree(lines: seq<string>, p: string)
  {
    forall j :: 0 <= j < |lines| ==> !Contains(lines[j], p)
  }

  lemma {:induction false} AllFreeJoin(xs: seq<string>, ys: seq<string>, p: string)
    requires AllFree(xs, p) && AllFree(ys, p)
    ensures AllFree(xs + ys, p)
  {
    forall j | 0 <= j < |xs + ys| ensures !Contains((xs + ys)[j], p) {
      if j >= |xs| {
        assert (xs + ys)[j] == ys[j - |xs|];
      }
    }
  }

  /** Replacing a pattern that no line holds leaves the text as it is. */
  lemma {:induction false} ReplaceNoLine(lines: seq<string>, p: string, r: string)
    requires |p| > 0 && '\n' !in p && AllFree(lines, p)
    ensures ReplaceAll(JoinLines(lines), p, r) == JoinLines(lines)
  {
    ReplaceJoinedLines(lines, p, r);
    forall j | 0 <= j < |lines| ensures ReplaceAll(lines[j], p, r) == lines[j] {
      ReplaceAbsent(lines[j], p, r);
    }
    assert ReplaceEach(lines, p, r) == lines;
  }

  /** Replacing a pattern that only one line holds, once, changes that line alone. */
  lemma {:induction false} ReplaceOneLine(pre: seq<string>, a: string, b: string, post: seq<string>,
                                          p: string, r: string)
    requires |p| > 0 && '\n' !in p && p[0] !in a && !Contains(b, p)
    requires AllFree(pre, p) && AllFree(post, p)
    ensures ReplaceAll(JoinLines(pre + [a + p + b] + post), p, r) == JoinLines(pre + [a + r + b] + post)
  {
    var lines := pre + [a + p + b] + post;
    var target := pre + [a + r + b] + post;
    ReplaceJoinedLines(lines, p, r);
    ReplaceFirst(a, b, p, r);
    ReplaceAbsent(b, p, r);
    forall j | 0 <= j < |lines| ensures ReplaceAll(lines[j], p, r) == target[j] {
      if j < |pre| {
        assert lines[j] == pre[j] && target[j] == pre[j];
        ReplaceAbsent(pre[j], p, r);
      } else if j > |pre| {
        assert lines[j] == post[j - |pre| - 1] && target[j] == post[j - |pre| - 1];
        ReplaceAbsent(post[j - |pre| - 1], p, r);
      }
    }
    assert ReplaceEach(lines, p, r) == target;
  }

  /** Writing the line between `pre` and `post` afresh. */
  lemma {:induction false} UpdateMiddle(pre: seq<string>, x: string, post: seq<string>, y: string)
    ensures (pre + [x] + post)[|pre| := y] == pre + [y] + post
  {
  }

  /** A framed row split around a pattern that follows `pad` in its text. */
  lemma {:induction false} FramedAround(side: char, pad: string, p: string, width: int)
    ensures Framed(side, pad + p, width) == ([side] + pad) + p + (Spaces(width - 2 - |pad + p|) + [side])
  {
  }

  lemma {:induction false} AppendTwo<T>(q: seq<T>, x1: T, x2: T)
    ensures q + [x1] + [x2] == q + [x1, x2]
  {
  }

  lemma {:induction false} AppendThree<T>(q: seq<T>, x1: T, x2: T, x3: T)
    ensures q + [x1] + [x2] + [x3] == q + [x1, x2, x3]
  {
  }

  lemma {:induction false} AppendFive<T>(q: seq<T>, x1: T, x2: T, x3: T, x4: T, x5: T)
    ensures q + [x1] + [x2] + [x3] + [x4] + [x5] == q + [x1, x2, x3, x4, x5]
  {
  }

  /**
   * An occurrence in `l + x + r` that cannot start in `l` (which lacks its
   * first character) nor end in `r` (which lacks its last) lies inside `x`.
   */
  lemma {:induction false} StraddleInside(l: string, x: string, r: string, p: string, j: nat)
    requires |p| > 0 && p[0] !in l && p[|p| - 1] !in r
    requires OccursAt(l + x + r, p, j)
    ensures Contains(x, p)
  {
    var s := l + x + r;
    var e := j + |p| - 1;
    assert s[j] == s[j..j + |p|][0] == p[0];
    assert s[e] == s[j..j + |p|][|p| - 1] == p[|p| - 1];
    assert j >= |l|;
    assert e < |l| + |x|;
    assert s[j..j + |p|] == x[j - |l|..j - |l| + |p|];
    ContainsAt(x, p, j - |l|);
  }

  /** Framing a text between pieces that cannot begin or end the pattern adds no occurrence. */
  lemma {:induction false} NoStraddle(l: string, x: string, r: string, p: string)
    requires |p| > 0 && p[0] !in l && p[|p| - 1] !in r && !Contains(x, p)
    ensures !Contains(l + x + r, p)
  {
    forall j: nat ensures !OccursAt(l + x + r, p, j) {
      if OccursAt(l + x + r, p, j) {
        StraddleInside(l, x, r, p, j);
        assert false;
      }
    }
    NoOccurrence(l + x + r, p);
  }

  lemma {:induction false} RuleLacks(left: char, fill: char, right: char, width: int, c: char)
    requires c != left && c != fill && c != right
    ensures c !in Rule(left, fill, right, width)
  {
  }

  lemma {:induction false} RuleFree(left: char, fill: char, right: char, width: int, p: string)
    requires |p| > 0 && p[0] != left && p[0] != fill && p[0] != right
    ensures !Contains(Rule(left, fill, right, width), p)
  {
    RuleLacks(left, fill, right, width, p[0]);
    MissingCharNotContained(Rule(left, fill, right, width), p, p[0]);
  }

  lemma {:induction false} SeqAssoc(a: string, b: string, x: string, c: string, d: string)
    ensures a + (b + x + c) + d == (a + b) + x + (c + d)
  {
  }

  /** A centred row is its text between runs of the fill, each inside a border. */
  lemma {:induction false} CenteredParts(side: char, text: string, width: int, fill: char)
    returns (lf: string, rf: string)
    ensures Centered(side, text, width, fill) == ([side] + lf) + text + (rf + [side])
    ensures forall i :: 0 <= i < |lf| ==> lf[i] == fill
    ensures forall i :: 0 <= i < |rf| ==> rf[i] == fill
  {
    lf, rf := CenterParts(text, width - 2, fill);
    assert Centered(side, text, width, fill) == [side] + (lf + text + rf) + [side];
    SeqAssoc([side], lf, text, rf, [side]);
  }

  lemma {:induction false} CenterParts(text: string, w: int, fill: char) returns (lf: string, rf: string)
    ensures Center(text, w, fill) == lf + text + rf
    ensures forall i :: 0 <= i < |lf| ==> lf[i] == fill
    ensures forall i :: 0 <= i < |rf| ==> rf[i] == fill
  {
    if w <= |text| {
      lf, rf := "", "";
      assert text == lf + text + rf;
    } else {
      var marg := w - |text|;
      var left := marg / 2 + (if marg % 2 == 1 && w % 2 == 1 then 1 else 0);
      lf := Rep(fill, left);
      rf := Rep(fill, marg - left);
    }
  }

  lemma {:induction false} CenteredFree(side: char, text: string, width: int, fill: char, p: string)
    requires |p| > 0 && p[0] != side && p[0] != fill && p[|p| - 1] != side && p[|p| - 1] != fill
    requires !Contains(text, p)
    ensures !Contains(Centered(side, text, width, fill), p)
  {
    var lf, rf := CenteredParts(side, text, width, fill);
    NoStraddle([side] + lf, text, rf + [side], p);
  }

  lemma {:induction false} FramedFree(side: char, text: string, width: int, p: string)
    requires |p| > 0 && p[0] != side && p[|p| - 1] != side && p[|p| - 1] != ' ' && !Contains(text, p)
    ensures !Contains(Framed(side, text, width), p)
  {
    var r := Spaces(width - 2 - |text|) + [side];
    assert Framed(side, text, width) == [side] + text + r;
    NoStraddle([side], text, r, p);
  }

  lemma {:induction false} FramedLacks(side: char, text: string, width: int, c: char)
    requires c != side && c != ' ' && c !in text
    ensures c !in Framed(side, text, width)
  {
    assert LJust(text, width - 2) == text + Spaces(width - 2 - |text|);
  }

  /** The pattern a submenu replaces in each style. */
  predicate KeyOf(style: Style, p: string)
  {
    if style == Bbs then p == BBS_EXIT_KEY else p == QUIT_KEY || p == EXIT_KEY
  }

  /** An option row holds a key only if its option does: the numbering cannot start or end one. */
  lemma {:induction false} OptionRowFree(style: Style, i: nat, opt: string, width: int, p: string)
    requires KeyOf(style, p) && !Contains(opt, p)
    ensures !Contains(Framed(Side(style), OptionText(style, i, opt), width), p)
  {
    var side := Side(style);
    var r := Spaces(width - 2 - |OptionText(style, i, opt)|) + [side];
    assert Framed(side, OptionText(style, i, opt), width) == [side] + OptionText(style, i, opt) + r;
    KeyLiterals();
    BbsLiterals();
    FillLacks(width - 2 - |OptionText(style, i, opt)|, side, p[|p| - 1]);
    match style {
      case Minimal => MinimalRowFree(side, i, opt, r, p);
      case Modern => ModernRowFree(side, i, opt, r, p);
      case Bbs => BbsRowFree(side, i, opt, r, p);
    }
  }

  lemma {:induction false} MinimalRowFree(side: char, i: nat, opt: string, r: string, p: string)
    requires KeyOf(Minimal, p) && !Contains(opt, p) && side != 'q' && p[|p| - 1] !in r
    ensures !Contains([side] + OptionText(Minimal, i, opt) + r, p)
  {
    var l := [side] + "  " + NatToString(i) + ". ";
    KeyLiterals();
    assert [side] + OptionText(Minimal, i, opt) + r == l + opt + r;
    NoStraddle(l, opt, r, p);
  }

  lemma {:induction false} ModernRowFree(side: char, i: nat, opt: string, r: string, p: string)
    requires KeyOf(Modern, p) && !Contains(opt, p) && side != 'q' && p[|p| - 1] !in r
    ensures !Contains([side] + OptionText(Modern, i, opt) + r, p)
  {
    var l := [side] + "  → " + NatToString(i) + "  ";
    KeyLiterals();
    assert [side] + OptionText(Modern, i, opt) + r == l + opt + r;
    NoStraddle(l, opt, r, p);
  }

  /** The bbs numbering `<n>` cannot start the key `<X>`, as `n` begins with a digit. */
  lemma {:induction false} BbsRowFree(side: char, i: nat, opt: string, r: string, p: string)
    requires KeyOf(Bbs, p) && !Contains(opt, p) && side != '<' && p[|p| - 1] !in r
    ensures !Contains([side] + OptionText(Bbs, i, opt) + r, p)
  {
    var n := NatToString(i);
    var y := n + "> " + opt;
    var x := "<" + y;
    BbsLiterals();
    assert y == (n + "> ") + opt + "";
    NoStraddle(n + "> ", opt, "", p);
    assert x[1..] == y;
    assert !StartsWith(x, p) by { assert x[1] == n[0] && p[1] == 'X'; }
    assert [side] + OptionText(Bbs, i, opt) + r == ([side] + "  ") + x + r;
    NoStraddle([side] + "  ", x, r, p);
  }

  /** An option row holds a key only through its option. */
  lemma {:induction false} OptionRowsFree(style: Style, options: seq<string>, width: int, p: string)
    requires KeyOf(style, p)
    requires forall k :: 0 <= k < |options| ==> !Contains(options[k], p)
    ensures AllFree(OptionRows(style, options, width), p)
  {
    forall k | 0 <= k < |options|
      ensures !Contains(OptionRows(style, options, width)[k], p)
    {
      OptionRowFree(style, k + 1, options[k], width, p);
    }
  }

  lemma {:induction false} EmptyFree(p: string)
    requires |p| > 0
    ensures !Contains("", p)
  {
  }

  lemma {:induction false} AllFreeOne(a: string, p: string)
    requires !Contains(a, p)
    ensures AllFree([a], p)
  {
  }

  lemma {:induction false} AllFreeTwo(a: string, b: string, p: string)
    requires !Contains(a, p) && !Contains(b, p)
    ensures AllFree([a, b], p)
  {
  }

  lemma {:induction false} AllFreeThree(a: string, b: string, c: string, p: string)
    requires !Contains(a, p) && !Contains(b, p) && !Contains(c, p)
    ensures AllFree([a, b, c], p)
  {
  }

  lemma {:induction false} AllFreeFour(a: string, b: string, c: string, d: string, p: string)
    requires !Contains(a, p) && !Contains(b, p) && !Contains(c, p) && !Contains(d, p)
    ensures AllFree([a, b, c, d], p)
  {
  }

  lemma {:induction false} AllFreeFive(a: string, b: string, c: string, d: string, e: string, p: string)
    requires !Contains(a, p) && !Contains(b, p) && !Contains(c, p) && !Contains(d, p) && !Contains(e, p)
    ensures AllFree([a, b, c, d, e], p)
  {
  }

  /** Above and below its quit line the minimal menu holds neither key. */
  lemma {:induction false} MinimalPartsFree(name: string, options: seq<string>, p: string)
    requires KeyOf(Minimal, p) && !Contains(name, p)
    requires forall k :: 0 <= k < |options| ==> !Contains(options[k], p)
    ensures AllFree([Rule('┌', '─', '┐', MINIMAL_WIDTH), Centered('│', name, MINIMAL_WIDTH, ' '),
                     Rule('├', '─', '┤', MINIMAL_WIDTH)]
                    + OptionRows(Minimal, options, MINIMAL_WIDTH) + [Centered('│', "", MINIMAL_WIDTH, ' ')], p)
    ensures AllFree([Rule('└', '─', '┘', MINIMAL_WIDTH), ""], p)
  {
    var w := MINIMAL_WIDTH;
    var head := [Rule('┌', '─', '┐', w), Centered('│', name, w, ' '), Rule('├', '─', '┤', w)];
    var rows := OptionRows(Minimal, options, w);
    RuleFree('┌', '─', '┐', w, p);
    RuleFree('├', '─', '┤', w, p);
    RuleFree('└', '─', '┘', w, p);
    CenteredFree('│', name, w, ' ', p);
    CenteredFree('│', "", w, ' ', p);
    EmptyFree(p);
    AllFreeThree(Rule('┌', '─', '┐', w), Centered('│', name, w, ' '), Rule('├', '─', '┤', w), p);
    OptionRowsFree(Minimal, options, w, p);
    AllFreeJoin(head, rows, p);
    AllFreeOne(Centered('│', "", w, ' '), p);
    AllFreeJoin(head + rows, [Centered('│', "", w, ' ')], p);
    AllFreeTwo(Rule('└', '─', '┘', w), "", p);
  }

  /** The minimal menu at its default width around its quit line, which alone holds a key. */
  lemma {:induction false} MinimalSplit(name: string, options: seq<string>) returns (pre: seq<string>, post: seq<string>)
    requires !Contains(name, QUIT_KEY) && forall k :: 0 <= k < |options| ==> !Contains(options[k], QUIT_KEY)
    requires !Contains(name, EXIT_KEY) && forall k :: 0 <= k < |options| ==> !Contains(options[k], EXIT_KEY)
    ensures MinimalLines(name, options, MINIMAL_WIDTH) == pre + [Framed('│', MINIMAL_QUIT, MINIMAL_WIDTH)] + post
    ensures |pre| == |options| + 4
    ensures AllFree(pre, QUIT_KEY) && AllFree(post, QUIT_KEY) && AllFree(pre, EXIT_KEY) && AllFree(post, EXIT_KEY)
  {
    var w := MINIMAL_WIDTH;
    pre := [Rule('┌', '─', '┐', w), Centered('│', name, w, ' '), Rule('├', '─', '┤', w)]
           + OptionRows(Minimal, options, w) + [Centered('│', "", w, ' ')];
    post := [Rule('└', '─', '┘', w), ""];
    AppendTwo(pre + [Framed('│', MINIMAL_QUIT, w)], Rule('└', '─', '┘', w), "");
    MinimalPartsFree(name, options, QUIT_KEY);
    MinimalPartsFree(name, options, EXIT_KEY);
  }

  /** The characters of the bbs exit key that its surroundings lack. */
  lemma {:induction false} BbsLiterals()
    ensures |BBS_EXIT_KEY| == 16 && BBS_EXIT_KEY[0] == '<' && BBS_EXIT_KEY[1] == 'X' && BBS_EXIT_KEY[15] == 'n'
    ensures '<' !in " ◄ " && 'n' !in " MENU ► " && 'X' !in BBS_PROMPT
  {
  }

  /** Above and below its exit line the bbs menu holds no exit key. */
  lemma {:induction false} BbsPartsFree(name: string, options: seq<string>, p: string)
    requires p == BBS_EXIT_KEY && !Contains(name, p)
    requires forall k :: 0 <= k < |options| ==> !Contains(options[k], p)
    ensures AllFree([Rule('╔', '═', '╗', BBS_WIDTH), Centered('║', BbsTitle(name), BBS_WIDTH, '═'),
                     Rule('╠', '═', '╣', BBS_WIDTH), Centered('║', "", BBS_WIDTH, ' ')]
                    + OptionRows(Bbs, options, BBS_WIDTH) + [Centered('║', "", BBS_WIDTH, ' ')], p)
    ensures AllFree([Centered('║', "", BBS_WIDTH, ' '), Rule('╟', '─', '╢', BBS_WIDTH),
                     Framed('║', BBS_PROMPT, BBS_WIDTH), Rule('╚', '═', '╝', BBS_WIDTH), ""], p)
  {
    var w := BBS_WIDTH;
    var head := [Rule('╔', '═', '╗', w), Centered('║', BbsTitle(name), w, '═'),
                 Rule('╠', '═', '╣', w), Centered('║', "", w, ' ')];
    var rows := OptionRows(Bbs, options, w);
    RuleFree('╔', '═', '╗', w, p);
    RuleFree('╠', '═', '╣', w, p);
    RuleFree('╟', '─', '╢', w, p);
    RuleFree('╚', '═', '╝', w, p);
    BbsLiterals();
    NoStraddle(" ◄ ", name, " MENU ► ", p);
    CenteredFree('║', BbsTitle(name), w, '═', p);
    CenteredFree('║', "", w, ' ', p);
    MissingCharNotContained(BBS_PROMPT, p, 'X');
    FramedFree('║', BBS_PROMPT, w, p);
    EmptyFree(p);
    AllFreeFour(Rule('╔', '═', '╗', w), Centered('║', BbsTitle(name), w, '═'),
                Rule('╠', '═', '╣', w), Centered('║', "", w, ' '), p);
    OptionRowsFree(Bbs, options, w, p);
    AllFreeJoin(head, rows, p);
    AllFreeOne(Centered('║', "", w, ' '), p);
    AllFreeJoin(head + rows, [Centered('║', "", w, ' ')], p);
    AllFreeFive(Centered('║', "", w, ' '), Rule('╟', '─', '╢', w),
                Framed('║', BBS_PROMPT, w), Rule('╚', '═', '╝', w), "", p);
  }

  /** The bbs menu at its default width around its exit line, which alone holds the key. */
  lemma {:induction false} BbsSplit(name: string, options: seq<string>) returns (pre: seq<string>, post: seq<string>)
    requires !Contains(name, BBS_EXIT_KEY) && forall k :: 0 <= k < |options| ==> !Contains(options[k], BBS_EXIT_KEY)
    ensures BbsLines(name, options, BBS_WIDTH) == pre + [Framed('║', BBS_EXIT, BBS_WIDTH)] + post
    ensures |pre| == |options| + 5
    ensures AllFree(pre, BBS_EXIT_KEY) && AllFree(post, BBS_EXIT_KEY)
  {
    var w := BBS_WIDTH;
    pre := [Rule('╔', '═', '╗', w), Centered('║', BbsTitle(name), w, '═'),
            Rule('╠', '═', '╣', w), Centered('║', "", w, ' ')]
           + OptionRows(Bbs, options, w) + [Centered('║', "", w, ' ')];
    post := [Centered('║', "", w, ' '), Rule('╟', '─', '╢', w), Framed('║', BBS_PROMPT, w), Rule('╚', '═', '╝', w), ""];
    AppendFive(pre + [Framed('║', BBS_EXIT, w)], Centered('║', "", w, ' '), Rule('╟', '─', '╢', w),
               Framed('║', BBS_PROMPT, w), Rule('╚', '═', '╝', w), "");
    BbsPartsFree(name, options, BBS_EXIT_KEY);
  }

  /** Above and below its exit line the modern menu holds neither key. */
  lemma {:induction false} ModernPartsFree(name: string, options: seq<string>, p: string)
    requires KeyOf(Modern, p) && !Contains(name, p)
    requires forall k :: 0 <= k < |options| ==> !Contains(options[k], p)
    ensures AllFree([Rule('┏', '━', '┓', MODERN_WIDTH), Centered('┃', name, MODERN_WIDTH, ' '),
                     Rule('┣', '━', '┫', MODERN_WIDTH), Centered('┃', "", MODERN_WIDTH, ' ')]
                    + OptionRows(Modern, options, MODERN_WIDTH) + [Centered('┃', "", MODERN_WIDTH, ' ')], p)
    ensures AllFree([Centered('┃', "", MODERN_WIDTH, ' '), Rule('┗', '━', '┛', MODERN_WIDTH), ""], p)
  {
    var w := MODERN_WIDTH;
    var head := [Rule('┏', '━', '┓', w), Centered('┃', name, w, ' '),
                 Rule('┣', '━', '┫', w), Centered('┃', "", w, ' ')];
    var rows := OptionRows(Modern, options, w);
    RuleFree('┏', '━', '┓', w, p);
    RuleFree('┣', '━', '┫', w, p);
    RuleFree('┗', '━', '┛', w, p);
    CenteredFree('┃', name, w, ' ', p);
    CenteredFree('┃', "", w, ' ', p);
    EmptyFree(p);
    AllFreeFour(Rule('┏', '━', '┓', w), Centered('┃', name, w, ' '),
                Rule('┣', '━', '┫', w), Centered('┃', "", w, ' '), p);
    OptionRowsFree(Modern, options, w, p);
    AllFreeJoin(head, rows, p);
    AllFreeOne(Centered('┃', "", w, ' '), p);
    AllFreeJoin(head + rows, [Centered('┃', "", w, ' ')], p);
    AllFreeThree(Centered('┃', "", w, ' '), Rule('┗', '━', '┛', w), "", p);
  }

  /** The modern menu at its default width around its exit line, which alone holds a key. */
  lemma {:induction false} ModernSplit(name: string, options: seq<string>) returns (pre: seq<string>, post: seq<string>)
    requires !Contains(name, QUIT_KEY) && forall k :: 0 <= k < |options| ==> !Contains(options[k], QUIT_KEY)
    requires !Contains(name, EXIT_KEY) && forall k :: 0 <= k < |options| ==> !Contains(options[k], EXIT_KEY)
    ensures ModernLines(name, options, MODERN_WIDTH) == pre + [Framed('┃', MODERN_EXIT, MODERN_WIDTH)] + post
    ensures |pre| == |options| + 5
    ensures AllFree(pre, QUIT_KEY) && AllFree(post, QUIT_KEY) && AllFree(pre, EXIT_KEY) && AllFree(post, EXIT_KEY)
    ensures !Contains(Framed('┃', MODERN_EXIT, MODERN_WIDTH), QUIT_KEY)
  {
    var w := MODERN_WIDTH;
    pre := [Rule('┏', '━', '┓', w), Centered('┃', name, w, ' '),
            Rule('┣', '━', '┫', w), Centered('┃', "", w, ' ')]
           + OptionRows(Modern, options, w) + [Centered('┃', "", w, ' ')];
    post := [Centered('┃', "", w, ' '), Rule('┗', '━', '┛', w), ""];
    AppendThree(pre + [Framed('┃', MODERN_EXIT, w)], Centered('┃', "", w, ' '), Rule('┗', '━', '┛', w), "");
    assert '.' !in MODERN_EXIT && QUIT_KEY[1] == '.';
    FramedLacks('┃', MODERN_EXIT, w, '.');
    MissingCharNotContained(Framed('┃', MODERN_EXIT, w), QUIT_KEY, '.');
    ModernPartsFree(name, options, QUIT_KEY);
    ModernPartsFree(name, options, EXIT_KEY);
  }

  /** A framed row whose text after `pad` has been replaced by `text`, keeping its old fill. */
  function Rewritten(side: char, pad: string, text: string, fill: int): string
  {
    ([side] + pad) + text + (Spaces(fill) + [side])
  }

  /** The characters of the quit and exit keys that their surroundings lack. */
  lemma {:induction false} KeyLiterals()
    ensures |QUIT_KEY| == 7 && QUIT_KEY[0] == 'q' && QUIT_KEY[1] == '.' && QUIT_KEY[6] == 't'
    ensures |EXIT_KEY| == 7 && EXIT_KEY[0] == 'q' && EXIT_KEY[6] == 't'
    ensures '\n' !in QUIT_KEY && '\n' !in EXIT_KEY && '\n' !in BBS_EXIT_KEY
    ensures MINIMAL_QUIT == "  " + QUIT_KEY && MODERN_EXIT == "  → " + EXIT_KEY && BBS_EXIT == "  " + BBS_EXIT_KEY
    ensures 'q' !in ['│'] + "  " && 'q' !in ['┃'] + "  → " && '<' !in ['║'] + "  "
    ensures 'q' !in ['│'] + "  " + "b. Back to "
  {
  }

  lemma {:induction false} FillLacks(n: int, side: char, c: char)
    requires c != ' ' && c != side
    ensures c !in Spaces(n) + [side]
  {
  }

  /**
   * Replacing the key on a framed row `pad + p` that alone holds it rewrites
   * that row and leaves the others.
   */
  lemma {:induction false} ReplaceKeyRow(pre: seq<string>, post: seq<string>, side: char, pad: string,
                                         p: string, r: string, width: int)
    requires |p| > 0 && '\n' !in p && p[0] !in [side] + pad && p[0] != ' ' && p[0] != side
    requires AllFree(pre, p) && AllFree(post, p)
    ensures ReplaceAll(JoinLines(pre + [Framed(side, pad + p, width)] + post), p, r)
         == JoinLines((pre + [Framed(side, pad + p, width)] + post)[|pre| := Rewritten(side, pad, r, width - 2 - |pad + p|)])
  {
    var fill := Spaces(width - 2 - |pad + p|) + [side];
    FramedAround(side, pad, p, width);
    FillLacks(width - 2 - |pad + p|, side, p[0]);
    MissingCharNotContained(fill, p, p[0]);
    ReplaceOneLine(pre, [side] + pad, fill, post, p, r);
    UpdateMiddle(pre, Framed(side, pad + p, width), post, Rewritten(side, pad, r, width - 2 - |pad + p|));
  }

  /**
   * A bbs submenu is the bbs menu with only its exit line changed, provided
   * neither the name nor an option holds the exit key (so nothing else matches).
   */
  lemma {:induction false} BbsSubmenu(name: string, options: seq<string>, parent: string)
    requires !Contains(name, BBS_EXIT_KEY) && forall k :: 0 <= k < |options| ==> !Contains(options[k], BBS_EXIT_KEY)
    ensures GenerateSubmenu(name, options, parent, "bbs")
         == Success(JoinLines(BbsLines(name, options, BBS_WIDTH)[|options| + 5 :=
              Rewritten('║', "  ", "<B> Back to " + parent, 40)]))
  {
    var pre, post := BbsSplit(name, options);
    KeyLiterals();
    BbsLiterals();
    ReplaceKeyRow(pre, post, '║', "  ", BBS_EXIT_KEY, "<B> Back to " + parent, BBS_WIDTH);
  }

  /** The minimal "Back to" row holds the exit key only if the parent's name does. */
  lemma {:induction false} BackRowFree(parent: string)
    requires !Contains(parent, EXIT_KEY)
    ensures !Contains(Rewritten('│', "  ", "b. Back to " + parent, 29), EXIT_KEY)
  {
    var lead := ['│'] + "  " + "b. Back to ";
    var fill := Spaces(29) + ['│'];
    KeyLiterals();
    assert ['│'] + "  " + ("b. Back to " + parent) == lead + parent;
    FillLacks(29, '│', EXIT_KEY[6]);
    NoStraddle(lead, parent, fill, EXIT_KEY);
  }

  /**
   * A minimal submenu is the minimal menu with only its quit line changed,
   * provided the name and options hold neither key and the parent not the
   * exit key (the second replacement then finds nothing).
   */
  lemma {:induction false} MinimalSubmenu(name: string, options: seq<string>, parent: string)
    requires !Contains(name, QUIT_KEY) && forall k :: 0 <= k < |options| ==> !Contains(options[k], QUIT_KEY)
    requires !Contains(name, EXIT_KEY) && forall k :: 0 <= k < |options| ==> !Contains(options[k], EXIT_KEY)
    requires !Contains(parent, EXIT_KEY)
    ensures GenerateSubmenu(name, options, parent, "minimal")
         == Success(JoinLines(MinimalLines(name, options, MINIMAL_WIDTH)[|options| + 4 :=
              Rewritten('│', "  ", "b. Back to " + parent, 29)]))
  {
    var pre, post := MinimalSplit(name, options);
    KeyLiterals();
    var r := "b. Back to " + parent;
    var row := Rewritten('│', "  ", r, 29);
    ReplaceKeyRow(pre, post, '│', "  ", QUIT_KEY, r, MINIMAL_WIDTH);
    UpdateMiddle(pre, Framed('│', MINIMAL_QUIT, MINIMAL_WIDTH), post, row);
    BackRowFree(parent);
    AllFreeOne(row, EXIT_KEY);
    AllFreeJoin(pre, [row], EXIT_KEY);
    AllFreeJoin(pre + [row], post, EXIT_KEY);
    ReplaceNoLine(pre + [row] + post, EXIT_KEY, "b  Back to " + parent);
  }

  /**
   * A modern submenu is the modern menu with only its exit line changed,
   * provided the name and options hold neither key (the first replacement
   * then finds nothing).
   */
  lemma {:induction false} ModernSubmenu(name: string, options: seq<string>, parent: string)
    requires !Contains(name, QUIT_KEY) && forall k :: 0 <= k < |options| ==> !Contains(options[k], QUIT_KEY)
    requires !Contains(name, EXIT_KEY) && forall k :: 0 <= k < |options| ==> !Contains(options[k], EXIT_KEY)
    ensures GenerateSubmenu(name, options, parent, "modern")
         == Success(JoinLines(ModernLines(name, options, MODERN_WIDTH)[|options| + 5 :=
              Rewritten('┃', "  → ", "b  Back to " + parent, 37)]))
  {
    var pre, post := ModernSplit(name, options);
    KeyLiterals();
    var exitRow := Framed('┃', MODERN_EXIT, MODERN_WIDTH);
    AllFreeOne(exitRow, QUIT_KEY);
    AllFreeJoin(pre, [exitRow], QUIT_KEY);
    AllFreeJoin(pre + [exitRow], post, QUIT_KEY);
    ReplaceNoLine(pre + [exitRow] + post, QUIT_KEY, "b. Back to " + parent);
    ReplaceKeyRow(pre, post, '┃', "  → ", EXIT_KEY, "b  Back to " + parent, MODERN_WIDTH);
  }
}
