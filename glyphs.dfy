/**
 * The glyph tables and box characters the text generators share. The
 * banner generator's tables are these restricted to letters, space, `-`,
 * `.` and `_`; the art generator's simple table is the 3-row one here.
 */
module Glyphs {
  import opened Wrappers

  /** `BIG_LETTERS`: the 5-row glyph of each character it has. */
  function BigLetter(c: char): Option<seq<string>>
  {
    match c
    case 'A' => Some(["  ▄▄  ", " █  █ ", " ████ ", " █  █ ", " █  █ "])
    case 'B' => Some([" ███▄ ", " █  █ ", " ███▄ ", " █  █ ", " ███▀ "])
    case 'C' => Some([" ▄███ ", " █    ", " █    ", " █    ", " ▀███ "])
    case 'D' => Some([" ███▄ ", " █  █ ", " █  █ ", " █  █ ", " ███▀ "])
    case 'E' => Some([" ████ ", " █    ", " ███  ", " █    ", " ████ "])
    case 'F' => Some([" ████ ", " █    ", " ███  ", " █    ", " █    "])
    case 'G' => Some([" ▄███ ", " █    ", " █ ██ ", " █  █ ", " ▀███ "])
    case 'H' => Some([" █  █ ", " █  █ ", " ████ ", " █  █ ", " █  █ "])
    case 'I' => Some([" ███ ", "  █  ", "  █  ", "  █  ", " ███ "])
    case 'J' => Some(["  ███ ", "   █  ", "   █  ", " █ █  ", " ▀█▀  "])
    case 'K' => Some([" █ ▄█ ", " █▀█  ", " ██   ", " █▀█  ", " █ ▀█ "])
    case 'L' => Some([" █    ", " █    ", " █    ", " █    ", " ████ "])
    case 'M' => Some([" █▄▄█ ", " █▀▀█ ", " █  █ ", " █  █ ", " █  █ "])
    case 'N' => Some([" █▄ █ ", " █▀██ ", " █ ▀█ ", " █  █ ", " █  █ "])
    case 'O' => Some([" ▄██▄ ", " █  █ ", " █  █ ", " █  █ ", " ▀██▀ "])
    case 'P' => Some([" ███▄ ", " █  █ ", " ███▀ ", " █    ", " █    "])
    case 'Q' => Some([" ▄██▄ ", " █  █ ", " █  █ ", " █ ▀█ ", " ▀██▄ "])
    case 'R' => Some([" ███▄ ", " █  █ ", " ███▀ ", " █▀█  ", " █ ▀█ "])
    case 'S' => Some([" ▄███ ", " █    ", " ▀██▄ ", "   █  ", " ███▀ "])
    case 'T' => Some([" ████ ", "  █   ", "  █   ", "  █   ", "  █   "])
    case 'U' => Some([" █  █ ", " █  █ ", " █  █ ", " █  █ ", " ▀██▀ "])
    case 'V' => Some([" █  █ ", " █  █ ", " █  █ ", " ▀▄▄▀ ", "  ▀▀  "])
    case 'W' => Some([" █  █ ", " █  █ ", " █  █ ", " █▄▄█ ", " █▀▀█ "])
    case 'X' => Some([" █  █ ", " ▀▄▄▀ ", "  ██  ", " ▄▀▀▄ ", " █  █ "])
    case 'Y' => Some([" █  █ ", " ▀▄▄▀ ", "  █   ", "  █   ", "  █   "])
    case 'Z' => Some([" ████ ", "   █▀ ", "  █▀  ", " █▀   ", " ████ "])
    case '0' => Some([" ▄██▄ ", " █  █ ", " █  █ ", " █  █ ", " ▀██▀ "])
    case '1' => Some(["  █  ", " ██  ", "  █  ", "  █  ", " ███ "])
    case '2' => Some([" ▄██▄ ", "    █ ", "  ██  ", " █    ", " ████ "])
    case '3' => Some([" ███▄ ", "    █ ", "  ██  ", "    █ ", " ███▀ "])
    case '4' => Some([" █  █ ", " █  █ ", " ████ ", "    █ ", "    █ "])
    case '5' => Some([" ████ ", " █    ", " ███▄ ", "    █ ", " ███▀ "])
    case '6' => Some([" ▄███ ", " █    ", " ███▄ ", " █  █ ", " ▀██▀ "])
    case '7' => Some([" ████ ", "    █ ", "   █  ", "  █   ", "  █   "])
    case '8' => Some([" ▄██▄ ", " █  █ ", " ▄██▄ ", " █  █ ", " ▀██▀ "])
    case '9' => Some([" ▄██▄ ", " █  █ ", " ▀███ ", "    █ ", " ███▀ "])
    case ' ' => Some(["      ", "      ", "      ", "      ", "      "])
    case '-' => Some(["      ", "      ", " ──── ", "      ", "      "])
    case '.' => Some(["    ", "    ", "    ", "    ", " ▄  "])
    case '_' => Some(["      ", "      ", "      ", "      ", " ──── "])
    case ':' => Some(["  ", " ▄", "  ", " ▄", "  "])
    case _ => None
  }

  /** `SIMPLE_LETTERS`: the 3-row glyph of each character it has. */
  function SimpleLetter(c: char): Option<seq<string>>
  {
    match c
    case 'A' => Some(["▄▀▄", "█▀█", "▀ ▀"])
    case 'B' => Some(["█▀▄", "█▀▄", "▀▀ "])
    case 'C' => Some(["▄▀▀", "█  ", "▀▀▀"])
    case 'D' => Some(["█▀▄", "█ █", "▀▀ "])
    case 'E' => Some(["█▀▀", "█▀▀", "▀▀▀"])
    case 'F' => Some(["█▀▀", "█▀ ", "▀  "])
    case 'G' => Some(["▄▀▀", "█ █", "▀▀▀"])
    case 'H' => Some(["█ █", "█▀█", "▀ ▀"])
    case 'I' => Some(["▀█▀", " █ ", "▀▀▀"])
    case 'J' => Some([" ▀█", "  █", "▀▀ "])
    case 'K' => Some(["█ █", "█▀▄", "▀ ▀"])
    case 'L' => Some(["█  ", "█  ", "▀▀▀"])
    case 'M' => Some(["█▄█", "█▀█", "▀ ▀"])
    case 'N' => Some(["█▀█", "█ █", "▀ ▀"])
    case 'O' => Some(["▄▀▄", "█ █", "▀▀▀"])
    case 'P' => Some(["█▀▄", "█▀ ", "▀  "])
    case 'Q' => Some(["▄▀▄", "█ █", "▀▀▄"])
    case 'R' => Some(["█▀▄", "█▀▄", "▀ ▀"])
    case 'S' => Some(["▄▀▀", "▀▀▄", "▀▀ "])
    case 'T' => Some(["▀█▀", " █ ", " ▀ "])
    case 'U' => Some(["█ █", "█ █", "▀▀▀"])
    case 'V' => Some(["█ █", "█ █", " ▀ "])
    case 'W' => Some(["█ █", "█▄█", "▀ ▀"])
    case 'X' => Some(["▀▄▀", " █ ", "▀ ▀"])
    case 'Y' => Some(["█ █", " █ ", " ▀ "])
    case 'Z' => Some(["▀▀█", " █ ", "▀▀▀"])
    case '0' => Some(["▄▀▄", "█ █", "▀▀▀"])
    case '1' => Some(["▄█ ", " █ ", "▀▀▀"])
    case '2' => Some(["▀▀▄", " █ ", "▀▀▀"])
    case '3' => Some(["▀▀▄", " ▀▄", "▀▀ "])
    case '4' => Some(["█ █", "▀▀█", "  ▀"])
    case '5' => Some(["█▀▀", "▀▀▄", "▀▀ "])
    case '6' => Some(["▄▀ ", "█▀▄", "▀▀ "])
    case '7' => Some(["▀▀█", "  █", "  ▀"])
    case '8' => Some(["▄▀▄", "▄▀▄", "▀▀▀"])
    case '9' => Some(["▄▀▄", "▀▀█", "▀▀ "])
    case ' ' => Some(["   ", "   ", "   "])
    case '-' => Some(["   ", "▀▀▀", "   "])
    case '.' => Some(["  ", "  ", "▄ "])
    case '_' => Some(["   ", "   ", "▀▀▀"])
    case ':' => Some([" ", "▄", "▄"])
    case _ => None
  }

  /** The rows of a glyph: 5 for the `big` style, 3 for any other. */
  function Height(big: bool): nat
  {
    if big then 5 else 3
  }

  /** The characters the banner generator's own tables hold: no digits and no colon. */
  predicate InBannerTables(c: char)
  {
    ('A' <= c <= 'Z') || c in " -._"
  }

  /** The glyph of `c` in the big or the simple table, with or without the digits and the colon. */
  function Glyph(c: char, big: bool, digits: bool): Option<seq<string>>
  {
    if !digits && !InBannerTables(c) then None
    else if big then BigLetter(c)
    else SimpleLetter(c)
  }

  /** A uniform block: `height` rows, all of one width. */
  predicate Block(rows: seq<string>, height: nat)
  {
    |rows| == height && forall i :: 0 <= i < |rows| ==> |rows[i]| == |rows[0]|
  }

  lemma BigLetterShape0(c: char)
    requires c in "ABCDEFG"
    ensures BigLetter(c).Some? && Block(BigLetter(c).value, 5) && |BigLetter(c).value[0]| >= 1
  {
  }

  lemma BigLetterShape1(c: char)
    requires c in "HIJKLMN"
    ensures BigLetter(c).Some? && Block(BigLetter(c).value, 5) && |BigLetter(c).value[0]| >= 1
  {
  }

  lemma BigLetterShape2(c: char)
    requires c in "OPQRSTU"
    ensures BigLetter(c).Some? && Block(BigLetter(c).value, 5) && |BigLetter(c).value[0]| >= 1
  {
  }

  lemma BigLetterShape3(c: char)
    requires c in "VWXYZ"
    ensures BigLetter(c).Some? && Block(BigLetter(c).value, 5) && |BigLetter(c).value[0]| >= 1
  {
  }

  lemma BigLetterShape4(c: char)
    requires c in "01234"
    ensures BigLetter(c).Some? && Block(BigLetter(c).value, 5) && |BigLetter(c).value[0]| >= 1
  {
  }

  lemma BigLetterShape5(c: char)
    requires c in " -._:"
    ensures BigLetter(c).Some? && Block(BigLetter(c).value, 5) && |BigLetter(c).value[0]| >= 1
  {
  }

  lemma SimpleLetterShape0(c: char)
    requires c in "ABCDEFGHIJKLMN"
    ensures SimpleLetter(c).Some? && Block(SimpleLetter(c).value, 3) && |SimpleLetter(c).value[0]| >= 1
  {
  }

  lemma SimpleLetterShape1(c: char)
    requires c in "OPQRSTUVWXYZ"
    ensures SimpleLetter(c).Some? && Block(SimpleLetter(c).value, 3) && |SimpleLetter(c).value[0]| >= 1
  {
  }

  lemma SimpleLetterShape2(c: char)
    requires c in "01234"
    ensures SimpleLetter(c).Some? && Block(SimpleLetter(c).value, 3) && |SimpleLetter(c).value[0]| >= 1
  {
  }

  lemma BigLetterShape6(c: char)
    requires c in "56789"
    ensures BigLetter(c).Some? && Block(BigLetter(c).value, 5) && |BigLetter(c).value[0]| >= 1
  {
  }

  lemma SimpleLetterShape3(c: char)
    requires c in "56789"
    ensures SimpleLetter(c).Some? && Block(SimpleLetter(c).value, 3) && |SimpleLetter(c).value[0]| >= 1
  {
  }

  lemma SimpleLetterShape4(c: char)
    requires c in " -._:"
    ensures SimpleLetter(c).Some? && Block(SimpleLetter(c).value, 3) && |SimpleLetter(c).value[0]| >= 1
  {
  }

  /** The characters both full tables have glyphs for. */
  predicate InTables(c: char)
  {
    ('A' <= c <= 'Z') || ('0' <= c <= '9') || c in " -._:"
  }

  lemma BigLetterShape(c: char)
    ensures BigLetter(c).Some? <==> InTables(c)
    ensures BigLetter(c).Some? ==> Block(BigLetter(c).value, 5) && |BigLetter(c).value[0]| >= 1
  {
    if c in "ABCDEFG" { BigLetterShape0(c); }
    else if c in "HIJKLMN" { BigLetterShape1(c); }
    else if c in "OPQRSTU" { BigLetterShape2(c); }
    else if c in "VWXYZ" { BigLetterShape3(c); }
    else if c in "01234" { BigLetterShape4(c); }
    else if c in "56789" { BigLetterShape6(c); }
    else if c in " -._:" { BigLetterShape5(c); }
  }

  lemma SimpleLetterShape(c: char)
    ensures SimpleLetter(c).Some? <==> InTables(c)
    ensures SimpleLetter(c).Some? ==> Block(SimpleLetter(c).value, 3) && |SimpleLetter(c).value[0]| >= 1
  {
    if c in "ABCDEFGHIJKLMN" { SimpleLetterShape0(c); }
    else if c in "OPQRSTUVWXYZ" { SimpleLetterShape1(c); }
    else if c in "01234" { SimpleLetterShape2(c); }
    else if c in "56789" { SimpleLetterShape3(c); }
    else if c in " -._:" { SimpleLetterShape4(c); }
  }

  /** Every glyph has as many rows as its table's height, all of the same width, at least one. */
  lemma GlyphShape(c: char, big: bool, digits: bool)
    ensures Glyph(c, big, digits).Some? ==> Block(Glyph(c, big, digits).value, Height(big)) && |Glyph(c, big, digits).value[0]| >= 1
  {
    BigLetterShape(c);
    SimpleLetterShape(c);
  }

  /** The banner generator's tables agree with the full ones wherever they have a glyph at all. */
  lemma BannerTablesAgree(c: char, big: bool)
    ensures Glyph(c, big, false).Some? ==> Glyph(c, big, false) == Glyph(c, big, true)
    ensures '0' <= c <= '9' || c == ':' ==> Glyph(c, big, false).None? && Glyph(c, big, true).Some?
  {
  }

  /** One `BOX` style: the corners, the horizontal and the vertical character. */
  datatype BoxChars = BoxChars(tl: char, tr: char, bl: char, br: char, h: char, v: char)

  const DOUBLE := BoxChars('╔', '╗', '╚', '╝', '═', '║')

  /** `BOX.get(style, BOX["double"])` of the shared library and the banner generator, which also have `ascii`. */
  function LibBox(style: string): BoxChars
  {
    if style == "single" then BoxChars('┌', '┐', '└', '┘', '─', '│')
    else if style == "round" then BoxChars('╭', '╮', '╰', '╯', '─', '│')
    else if style == "heavy" then BoxChars('┏', '┓', '┗', '┛', '━', '┃')
    else if style == "ascii" then BoxChars('+', '+', '+', '+', '-', '|')
    else DOUBLE
  }

  /** The art generator's `BOX`, which has no `ascii` style. */
  function ArtBox(style: string): BoxChars
  {
    if style == "ascii" then DOUBLE else LibBox(style)
  }
}
