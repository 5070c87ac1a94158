/**
 * The generators' shared library: block-letter rendering, box framing,
 * centring and the signature line.
 */
module GenLib {
  import opened Wrappers
  import opened PyStr
  import opened Glyphs

  // ---------------------------------------------------------------
  //  text_to_big
  // ---------------------------------------------------------------

  /** What one character adds to row `i`: its glyph's row, or a single space when the table has no glyph. */
  function Piece(c: char, i: nat, big: bool, digits: bool): string
  {
    var g := Glyph(c, big, digits);
    if g.Some? && i < |g.value| then g.value[i] else " "
  }

  /** Row `i` of the rendering of `text`, taken as it is (the callers upper-case it first). */
  function Row(text: string, i: nat, big: bool, digits: bool): string
  {
    if text == [] then "" else Row(text[..|text| - 1], i, big, digits) + Piece(text[|text| - 1], i, big, digits)
  }

  /** The width one character takes: its glyph's, or 1. */
  function PieceWidth(c: char, big: bool, digits: bool): nat
  {
    var g := Glyph(c, big, digits);
    if g.Some? && |g.value| > 0 then |g.value[0]| else 1
  }

  /** The sum of the widths of the characters of `text`. */
  function Width(text: string, big: bool, digits: bool): nat
  {
    if text == [] then 0 else Width(text[..|text| - 1], big, digits) + PieceWidth(text[|text| - 1], big, digits)
  }

  /** Every row of a rendering has the same length: the sum of the characters' widths. */
  lemma {:induction false} RowWidth(text: string, i: nat, big: bool, digits: bool)
    requires i < Height(big)
    ensures |Row(text, i, big, digits)| == Width(text, big, digits)
  {
    if text != [] {
      var c := text[|text| - 1];
      RowWidth(text[..|text| - 1], i, big, digits);
      GlyphShape(c, big, digits);
    }
  }

  /** A character without a glyph adds exactly one space to every row. */
  lemma {:induction false} UnknownCharIsSpace(text: string, c: char, i: nat, big: bool, digits: bool)
    requires Glyph(c, big, digits).None?
    ensures Row(text + [c], i, big, digits) == Row(text, i, big, digits) + " "
    ensures Width(text + [c], big, digits) == Width(text, big, digits) + 1
  {
    assert (text + [c])[..|text|] == text;
  }

  /**
   * The loop of `text_to_big`, over the table with or without its digits
   * and colon: the text is upper-cased and each character's glyph row is
   * appended to every row.
   */
  method TextToBigWith(text: string, style: string, digits: bool) returns (result: seq<string>)
    ensures |result| == Height(style == "big")
    ensures forall i :: 0 <= i < |result| ==> result[i] == Row(Upper(text), i, style == "big", digits)
  {
    var up := Upper(text);
    var big := style == "big";
    var height := Height(big);
    result := seq(height, _ => "");
    var k := 0;
    while k < |up|
      invariant 0 <= k <= |up|
      invariant |result| == height
      invariant forall i :: 0 <= i < height ==> result[i] == Row(up[..k], i, big, digits)
    {
      ghost var before := result;
      result := AddChar(result, up[k], big, digits);
      RowsStep(up, k, big, digits, before, result);
      k := k + 1;
    }
    assert up[..k] == up;
  }

  /** One character of `text_to_big`: its glyph's rows appended to the rows, else a space to each. */
  method AddChar(rows: seq<string>, c: char, big: bool, digits: bool) returns (next: seq<string>)
    requires |rows| == Height(big)
    ensures |next| == |rows|
    ensures forall i :: 0 <= i < |next| ==> next[i] == rows[i] + Piece(c, i, big, digits)
  {
    var g := Glyph(c, big, digits);
    if g.Some? {
      GlyphShape(c, big, digits);
      next := seq(|rows|, i requires 0 <= i < |rows| => rows[i] + g.value[i]);
    } else {
      next := seq(|rows|, i requires 0 <= i < |rows| => rows[i] + " ");
    }
  }

  /** Appending each character's piece to the rows of a prefix gives the rows of the prefix one longer. */
  lemma {:induction false} RowsStep(up: string, k: nat, big: bool, digits: bool, before: seq<string>, after: seq<string>)
    requires k < |up| && |before| == |after|
    requires forall i :: 0 <= i < |before| ==> before[i] == Row(up[..k], i, big, digits)
    requires forall i :: 0 <= i < |after| ==> after[i] == before[i] + Piece(up[k], i, big, digits)
    ensures forall i :: 0 <= i < |after| ==> after[i] == Row(up[..k + 1], i, big, digits)
  {
    assert up[..k + 1][..k] == up[..k];
  }

  /** `text_to_big`: 5 rows for the `big` style, 3 for any other, all of one length. */
  method TextToBig(text: string, style: string) returns (result: seq<string>)
    ensures |result| == Height(style == "big")
    ensures forall i :: 0 <= i < |result| ==> result[i] == Row(Upper(text), i, style == "big", true)
  {
    result := TextToBigWith(text, style, true);
  }

  /** So all rows have the length of the upper-cased text's glyphs laid side by side. */
  lemma {:induction false} TextToBigRows(text: string, big: bool, digits: bool)
    ensures forall i :: 0 <= i < Height(big) ==> |Row(Upper(text), i, big, digits)| == Width(Upper(text), big, digits)
  {
    forall i | 0 <= i < Height(big)
      ensures |Row(Upper(text), i, big, digits)| == Width(Upper(text), big, digits)
    {
      RowWidth(Upper(text), i, big, digits);
    }
  }

  // ---------------------------------------------------------------
  //  make_box
  // ---------------------------------------------------------------

  /** `max(len(line) for line in content)`, taken as 0 for no lines. */
  function MaxLen(content: seq<string>): (r: nat)
    ensures forall i :: 0 <= i < |content| ==> |content[i]| <= r
    ensures content != [] ==> exists i :: 0 <= i < |content| && |content[i]| == r
    ensures content == [] ==> r == 0
  {
    if content == [] then 0
    else
      var m := MaxLen(content[..|content| - 1]);
      var last := |content[|content| - 1]|;
      assert forall i :: 0 <= i < |content| - 1 ==> content[..|content| - 1][i] == content[i];
      if last >= m then last else m
  }

  /** A border row: a corner, `n` horizontal characters, a corner. */
  function Border(left: char, h: char, right: char, n: int): string
  {
    [left] + Rep(h, n) + [right]
  }

  /** A content row of `make_box`: the padding, the line and enough spaces to fill the width. */
  function BoxRow(b: BoxChars, line: string, padding: int, width: int): string
  {
    [b.v] + Spaces(padding) + line + Spaces(width - |line| - padding) + [b.v]
  }

  /** The content rows of a box whose inner width is `width`. */
  function BoxRows(content: seq<string>, b: BoxChars, padding: int, width: int): (rows: seq<string>)
    ensures |rows| == |content|
    ensures forall k :: 0 <= k < |content| ==> rows[k] == BoxRow(b, content[k], padding, width)
  {
    seq(|content|, i requires 0 <= i < |content| => BoxRow(b, content[i], padding, width))
  }

  /** The borders around the content rows, for an inner width of `width`. */
  function Framed(content: seq<string>, b: BoxChars, padding: int, width: int): seq<string>
  {
    [Border(b.tl, b.h, b.tr, width)] + BoxRows(content, b, padding, width) + [Border(b.bl, b.h, b.br, width)]
  }

  /** The rows of a box around non-empty `content`: as wide as its longest line and the padding on both sides. */
  function Boxed(content: seq<string>, b: BoxChars, padding: int): seq<string>
  {
    Framed(content, b, padding, MaxLen(content) + padding * 2)
  }

  /**
   * `make_box`: the box around the lines, in the style asked for, else the
   * double one. Without lines `max` has nothing to take and it fails.
   */
  method MakeBox(content: seq<string>, style: string, padding: int) returns (r: Result<seq<string>, string>)
    ensures r.Failure? <==> content == []
    ensures r.Success? ==> r.value == Boxed(content, LibBox(style), padding)
  {
    if content == [] {
      return Failure("max() arg is an empty sequence");
    }
    var b := LibBox(style);
    var width := MaxLen(content) + padding * 2;
    var rows := BoxLines(content, b, padding, width);
    var box := [Border(b.tl, b.h, b.tr, width)] + rows + [Border(b.bl, b.h, b.br, width)];
    assert box == Boxed(content, b, padding);
    return Success(box);
  }

  /** The loop of `make_box` over the lines: each padded, filled to the width and closed by the sides. */
  method BoxLines(content: seq<string>, b: BoxChars, padding: int, width: int) returns (rows: seq<string>)
    ensures rows == BoxRows(content, b, padding, width)
  {
    rows := [];
    var i := 0;
    while i < |content|
      invariant 0 <= i <= |content|
      invariant rows == BoxRows(content[..i], b, padding, width)
    {
      BoxRowsStep(content, b, padding, width, i);
      rows := rows + [BoxRow(b, content[i], padding, width)];
      i := i + 1;
    }
    assert content[..i] == content;
  }

  /** One more line adds its boxed row. */
  lemma {:induction false} BoxRowsStep(content: seq<string>, b: BoxChars, padding: int, width: int, i: nat)
    requires i < |content|
    ensures BoxRows(content[..i + 1], b, padding, width) == BoxRows(content[..i], b, padding, width) + [BoxRow(b, content[i], padding, width)]
  {
    var lhs := BoxRows(content[..i + 1], b, padding, width);
    var rhs := BoxRows(content[..i], b, padding, width) + [BoxRow(b, content[i], padding, width)];
    assert |lhs| == |rhs|;
    forall k | 0 <= k < |lhs|
      ensures lhs[k] == rhs[k]
    {
      assert content[..i + 1][k] == content[k];
      if k < i {
        assert content[..i][k] == content[k];
      }
    }
  }

  /** A content row is `width + 2` long when the line and its padding fit, and holds the line after the padding. */
  lemma {:induction false} BoxRowShape(b: BoxChars, line: string, padding: int, width: int)
    requires padding >= 0 && |line| + 2 * padding <= width
    ensures |BoxRow(b, line, padding, width)| == width + 2
    ensures BoxRow(b, line, padding, width)[1 + padding..1 + padding + |line|] == line
  {
    var left := [b.v] + Spaces(padding);
    var row := BoxRow(b, line, padding, width);
    assert row == left + line + (Spaces(width - |line| - padding) + [b.v]);
    assert |left| == 1 + padding;
  }

  /**
   * With a non-negative padding a box has two more rows than its content,
   * every row as long as the longest line plus twice the padding plus the
   * two sides, each content row holding its line after the padding.
   */
  lemma {:induction false} BoxShape(content: seq<string>, b: BoxChars, padding: int)
    requires content != [] && padding >= 0
    ensures |Boxed(content, b, padding)| == |content| + 2
    ensures forall k :: 0 <= k < |content| + 2 ==> |Boxed(content, b, padding)[k]| == MaxLen(content) + 2 * padding + 2
    ensures forall k :: 1 <= k <= |content| ==> Boxed(content, b, padding)[k][1 + padding..1 + padding + |content[k - 1]|] == content[k - 1]
  {
    var width := MaxLen(content) + padding * 2;
    assert forall i :: 0 <= i < |content| ==> |content[i]| + 2 * padding <= width;
    FramedShape(content, b, padding, width);
    assert Boxed(content, b, padding) == Framed(content, b, padding, width);
  }

  /** A frame whose width holds every line and its padding: every row `width + 2` long, each line after the padding. */
  lemma {:induction false} FramedShape(content: seq<string>, b: BoxChars, padding: int, width: int)
    requires padding >= 0 && width >= 0
    requires forall i :: 0 <= i < |content| ==> |content[i]| + 2 * padding <= width
    ensures |Framed(content, b, padding, width)| == |content| + 2
    ensures forall k :: 0 <= k < |content| + 2 ==> |Framed(content, b, padding, width)[k]| == width + 2
    ensures forall k :: 1 <= k <= |content| ==> Framed(content, b, padding, width)[k][1 + padding..1 + padding + |content[k - 1]|] == content[k - 1]
  {
    FramedRows(content, b, padding, width);
    forall k | 0 <= k < |content| + 2
      ensures |Framed(content, b, padding, width)[k]| == width + 2
      ensures 1 <= k <= |content| ==> Framed(content, b, padding, width)[k][1 + padding..1 + padding + |content[k - 1]|] == content[k - 1]
    {
      FramedRowAt(content, b, padding, width, k);
    }
  }

  /** Row `k` of a frame whose width holds every line and its padding. */
  lemma {:induction false} FramedRowAt(content: seq<string>, b: BoxChars, padding: int, width: int, k: int)
    requires padding >= 0 && width >= 0 && 0 <= k < |content| + 2
    requires forall i :: 0 <= i < |content| ==> |content[i]| + 2 * padding <= width
    ensures |Framed(content, b, padding, width)| == |content| + 2
    ensures |Framed(content, b, padding, width)[k]| == width + 2
    ensures 1 <= k <= |content| ==> Framed(content, b, padding, width)[k][1 + padding..1 + padding + |content[k - 1]|] == content[k - 1]
  {
    FramedRows(content, b, padding, width);
    if 1 <= k <= |content| {
      BoxRowShape(b, content[k - 1], padding, width);
    }
  }

  /** `Framed`, row by row. */
  lemma {:induction false} FramedRows(content: seq<string>, b: BoxChars, padding: int, width: int)
    ensures var r := Framed(content, b, padding, width);
      && |r| == |content| + 2
      && r[0] == Border(b.tl, b.h, b.tr, width)
      && r[|content| + 1] == Border(b.bl, b.h, b.br, width)
      && forall k :: 1 <= k <= |content| ==> r[k] == BoxRow(b, content[k - 1], padding, width)
  {
    var rows := BoxRows(content, b, padding, width);
    var r := Framed(content, b, padding, width);
    forall k | 1 <= k <= |content|
      ensures r[k] == BoxRow(b, content[k - 1], padding, width)
    {
      assert r[k] == rows[k - 1];
    }
  }

  /** An unknown style draws the double box. */
  lemma {:induction false} UnknownStyleIsDouble(style: string)
    requires style !in ["single", "double", "round", "heavy", "ascii"]
    ensures LibBox(style) == LibBox("double") == DOUBLE
  {
  }

  // ---------------------------------------------------------------
  //  center_lines
  // ---------------------------------------------------------------

  /** One line of `center_lines`: `(width - len) // 2` spaces in front, none when that is negative. */
  function CenterLine(line: string, width: int): string
  {
    Spaces((width - |line|) / 2) + line
  }

  /** `center_lines`. */
  method CenterLines(lines: seq<string>, width: int) returns (result: seq<string>)
    ensures |result| == |lines|
    ensures forall k :: 0 <= k < |lines| ==> result[k] == CenterLine(lines[k], width)
  {
    result := [];
    var i := 0;
    while i < |lines|
      invariant 0 <= i <= |lines|
      invariant |result| == i
      invariant forall k :: 0 <= k < i ==> result[k] == CenterLine(lines[k], width)
    {
      result := result + [CenterLine(lines[i], width)];
      i := i + 1;
    }
  }

  /**
   * A centred line is the line behind max(0, (width - len) // 2) spaces,
   * with floor division; a line at least as wide as `width` is unchanged.
   */
  lemma {:induction false} CenterLineShape(line: string, width: int)
    ensures var r := CenterLine(line, width);
      && |r| == |line| + Max(0, (width - |line|) / 2)
      && r[|r| - |line|..] == line
      && (forall j :: 0 <= j < |r| - |line| ==> r[j] == ' ')
      && (|line| >= width ==> r == line)
      && (|line| < width ==> 2 * (|r| - |line|) <= width - |line| < 2 * (|r| - |line|) + 2)
  {
    var r := CenterLine(line, width);
    assert r[|r| - |line|..] == line;
    if |line| >= width {
      assert (width - |line|) / 2 <= 0;
    }
  }

  // ---------------------------------------------------------------
  //  get_signature
  // ---------------------------------------------------------------

  const WAREZ_OPEN: string := "───── ▓ signed, "
  const WAREZ_CLOSE: string := ": ▓ ─────"

  /** `get_signature`: the framed `signed,` line for the `warez` style, else a dash and the author. */
  function GetSignature(author: string, style: string): string
  {
    if style == "warez" then WAREZ_OPEN + author + WAREZ_CLOSE else "─ " + author
  }

  /** The author can be read back from either form of the signature at a fixed offset. */
  lemma {:induction false} SignatureHoldsAuthor(author: string, style: string)
    ensures var s := GetSignature(author, style);
      var start := if style == "warez" then |WAREZ_OPEN| else 2;
      && |s| == |author| + (if style == "warez" then |WAREZ_OPEN| + |WAREZ_CLOSE| else 2)
      && s[start..start + |author|] == author
      && (style != "warez" ==> s[..2] == "─ ")
      && (style == "warez" ==> s[..start] == WAREZ_OPEN && s[start + |author|..] == WAREZ_CLOSE)
  {
  }
}
