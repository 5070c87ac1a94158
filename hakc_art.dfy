/**
 * The art generator: block-letter text, centring, its own box (whose
 * rows are not all of one length) and the classifier that sorts banner
 * lines into headers, dividers and footers.
 */
module HakcArt {
  import opened Wrappers
  import opened PyStr
  import opened Glyphs
  import GenLib

  // ---------------------------------------------------------------
  //  text_to_art
  // ---------------------------------------------------------------

  /**
   * `text_to_art`: the upper-cased text in the three-row letters, which are
   * the shared library's `simple` table with its digits and colon.
   */
  method TextToArt(text: string) returns (result: seq<string>)
    ensures |result| == 3
    ensures forall i :: 0 <= i < 3 ==> result[i] == GenLib.Row(Upper(text), i, false, true)
  {
    result := GenLib.TextToBigWith(text, "simple", true);
  }

  /** A character with no letter, once upper-cased, adds one space to each of the three rows. */
  lemma {:induction false} UnknownCharIsSpace(text: string, c: char, i: nat)
    requires Glyph(UpperChar(c), false, true).None?
    ensures GenLib.Row(Upper(text + [c]), i, false, true) == GenLib.Row(Upper(text), i, false, true) + " "
  {
    assert Upper(text + [c]) == Upper(text) + [UpperChar(c)];
    GenLib.UnknownCharIsSpace(Upper(text), UpperChar(c), i, false, true);
  }

  /** A lower-case letter is drawn as its capital. */
  lemma {:induction false} LowerCaseDrawnAsCapital(text: string, i: nat)
    ensures GenLib.Row(Upper(Lower(text)), i, false, true) == GenLib.Row(Upper(text), i, false, true)
  {
    assert Upper(Lower(text)) == Upper(text);
  }

  /** The three rows all have the width of the upper-cased text's letters side by side. */
  lemma {:induction false} ArtRowsAlign(text: string)
    ensures forall i :: 0 <= i < 3 ==>
      |GenLib.Row(Upper(text), i, false, true)| == GenLib.Width(Upper(text), false, true)
  {
    GenLib.TextToBigRows(text, false, true);
  }

  // ---------------------------------------------------------------
  //  center_text
  // ---------------------------------------------------------------

  /** `center_text`: each line behind max(0, (width - len) // 2) spaces. */
  method CenterText(lines: seq<string>, width: int) returns (result: seq<string>)
    ensures |result| == |lines|
    ensures forall k :: 0 <= k < |lines| ==> result[k] == Spaces(Max(0, (width - |lines[k]|) / 2)) + lines[k]
  {
    result := [];
    var i := 0;
    while i < |lines|
      invariant 0 <= i <= |lines|
      invariant |result| == i
      invariant forall k :: 0 <= k < i ==> result[k] == Spaces(Max(0, (width - |lines[k]|) / 2)) + lines[k]
    {
      var pad := Max(0, (width - |lines[i]|) / 2);
      result := result + [Spaces(pad) + lines[i]];
      i := i + 1;
    }
  }

  /** The art generator centres exactly as the shared library does, the `max` being implicit there. */
  lemma {:induction false} CenterTextIsLibCentering(line: string, width: int)
    ensures Spaces(Max(0, (width - |line|) / 2)) + line == GenLib.CenterLine(line, width)
  {
    assert Spaces(Max(0, (width - |line|) / 2)) == Spaces((width - |line|) / 2);
  }

  // ---------------------------------------------------------------
  //  make_box
  // ---------------------------------------------------------------

  /** The width `make_box` draws: the one asked for, else the longest line plus four. */
  function BoxWidth(content: seq<string>, width: int): int
  {
    if width == 0 then GenLib.MaxLen(content) + 4 else width
  }

  /** A content row: the side, two spaces, the line, the fill, two spaces, the side. */
  function ArtRow(b: BoxChars, line: string, width: int): string
  {
    [b.v] + "  " + line + Spaces(width - |line| - 4) + "  " + [b.v]
  }

  function ArtRows(content: seq<string>, b: BoxChars, width: int): (rows: seq<string>)
    ensures |rows| == |content|
    ensures forall k :: 0 <= k < |content| ==> rows[k] == ArtRow(b, content[k], width)
  {
    seq(|content|, k requires 0 <= k < |content| => ArtRow(b, content[k], width))
  }

  /** The rows of the art box: the borders span `width - 2` horizontals between the corners. */
  function ArtFramed(content: seq<string>, b: BoxChars, width: int): seq<string>
  {
    [GenLib.Border(b.tl, b.h, b.tr, width - 2)] + ArtRows(content, b, width) + [GenLib.Border(b.bl, b.h, b.br, width - 2)]
  }

  /**
   * `make_box` of the art generator, for the styles of its own table (an
   * unknown one draws the double box). With no width given and no lines,
   * `max` has nothing to take and it fails.
   */
  method MakeBox(content: seq<string>, style: string, width: int) returns (r: Result<seq<string>, string>)
    ensures r.Failure? <==> content == [] && width == 0
    ensures r.Success? ==> r.value == ArtFramed(content, ArtBox(style), BoxWidth(content, width))
  {
    if content == [] && width == 0 {
      return Failure("max() arg is an empty sequence");
    }
    var b := ArtBox(style);
    var w := BoxWidth(content, width);
    var rows := ContentRows(content, b, w);
    return Success([GenLib.Border(b.tl, b.h, b.tr, w - 2)] + rows + [GenLib.Border(b.bl, b.h, b.br, w - 2)]);
  }

  /** The loop of `make_box` over the lines. */
  method ContentRows(content: seq<string>, b: BoxChars, width: int) returns (rows: seq<string>)
    ensures rows == ArtRows(content, b, width)
  {
    rows := [];
    var i := 0;
    while i < |content|
      invariant 0 <= i <= |content|
      invariant rows == ArtRows(content[..i], b, width)
    {
      ArtRowsStep(content, b, width, i);
      rows := rows + [ArtRow(b, content[i], width)];
      i := i + 1;
    }
    assert content[..i] == content;
  }

  lemma {:induction false} ArtRowsStep(content: seq<string>, b: BoxChars, width: int, i: nat)
    requires i < |content|
    ensures ArtRows(content[..i + 1], b, width) == ArtRows(content[..i], b, width) + [ArtRow(b, content[i], width)]
  {
    var lhs := ArtRows(content[..i + 1], b, width);
    var rhs := ArtRows(content[..i], b, width) + [ArtRow(b, content[i], width)];
    assert |lhs| == |rhs|;
    forall k | 0 <= k < |lhs|
      ensures lhs[k] == rhs[k]
    {
      assert content[..i + 1][k] == content[k];
      if k < i {
        assert content[..i][k] == content[k];
      }
    }
  }

  /** A content row whose line fits is `width + 2` long and holds the line after the side and two spaces. */
  lemma {:induction false} ArtRowShape(b: BoxChars, line: string, width: int)
    requires |line| + 4 <= width
    ensures |ArtRow(b, line, width)| == width + 2
    ensures ArtRow(b, line, width)[3..3 + |line|] == line
  {
    var row := ArtRow(b, line, width);
    assert row == ([b.v] + "  ") + line + (Spaces(width - |line| - 4) + "  " + [b.v]);
  }

  /**
   * When every line fits, the box has two more rows than lines; its top
   * and bottom are `width` long but its content rows are `width + 2`, each
   * holding its line from column 3.
   */
  lemma {:induction false} ArtBoxShape(content: seq<string>, b: BoxChars, width: int)
    requires width >= 2
    requires forall k :: 0 <= k < |content| ==> |content[k]| + 4 <= width
    ensures var r := ArtFramed(content, b, width);
      && |r| == |content| + 2
      && |r[0]| == width && |r[|content| + 1]| == width
      && (forall k :: 1 <= k <= |content| ==> |r[k]| == width + 2)
      && (forall k :: 1 <= k <= |content| ==> r[k][3..3 + |content[k - 1]|] == content[k - 1])
  {
    var r := ArtFramed(content, b, width);
    var rows := ArtRows(content, b, width);
    forall k | 1 <= k <= |content|
      ensures |r[k]| == width + 2 && r[k][3..3 + |content[k - 1]|] == content[k - 1]
    {
      assert r[k] == rows[k - 1];
      ArtRowShape(b, content[k - 1], width);
    }
  }

  /** Without a width, the longest line plus four is wide enough for every line. */
  lemma {:induction false} DefaultWidthFits(content: seq<string>)
    requires content != []
    ensures BoxWidth(content, 0) >= 4
    ensures forall k :: 0 <= k < |content| ==> |content[k]| + 4 <= BoxWidth(content, 0)
  {
  }

  // ---------------------------------------------------------------
  //  load_banner_vibes
  // ---------------------------------------------------------------

  datatype Bucket = Headers | Dividers | Footers

  /** The harvest of `load_banner_vibes`; `patterns` is never filled. */
  datatype Vibes = Vibes(headers: seq<string>, footers: seq<string>, dividers: seq<string>, patterns: seq<string>)

  const NO_VIBES := Vibes([], [], [], [])

  function DistinctChars(s: string): set<char>
  {
    set c | c in s
  }

  /**
   * The bucket of one line, tried in order: more than five full blocks, a
   * long line of at most five distinct characters once stripped, a
   * signature.
   */
  function Classify(line: string): Option<Bucket>
  {
    if Count(line, '█') > 5 then Some(Headers)
    else if |line| > 30 && |DistinctChars(Strip(line))| <= 5 then Some(Dividers)
    else if Contains(Lower(line), "signed") || Contains(line, "/dev/") then Some(Footers)
    else None
  }

  /** One line's contribution: headers keep the line, dividers and footers its stripped text. */
  function AddLine(v: Vibes, line: string): Vibes
  {
    match Classify(line)
    case Some(Headers) => v.(headers := v.headers + [line])
    case Some(Dividers) => v.(dividers := v.dividers + [Strip(line)])
    case Some(Footers) => v.(footers := v.footers + [Strip(line)])
    case None => v
  }

  function AddLines(v: Vibes, lines: seq<string>): Vibes
  {
    if lines == [] then v else AddLine(AddLines(v, lines[..|lines| - 1]), lines[|lines| - 1])
  }

  /** The harvest over the banner files' contents, in the order they were found. */
  function AddFiles(v: Vibes, contents: seq<string>): Vibes
  {
    if contents == [] then v
    else AddLines(AddFiles(v, contents[..|contents| - 1]), Split(contents[|contents| - 1], '\n'))
  }

  /** The number of lines that land in some bucket. */
  function Classified(lines: seq<string>): nat
  {
    if lines == [] then 0
    else Classified(lines[..|lines| - 1]) + (if Classify(lines[|lines| - 1]).Some? then 1 else 0)
  }

  function Total(v: Vibes): nat
  {
    |v.headers| + |v.dividers| + |v.footers|
  }

  /** `w` is `v` with more entries at the end of some buckets. */
  predicate Grows(v: Vibes, w: Vibes)
  {
    v.headers <= w.headers && v.dividers <= w.dividers && v.footers <= w.footers && v.patterns == w.patterns
  }

  lemma {:induction false} GrowsTrans(u: Vibes, v: Vibes, w: Vibes)
    requires Grows(u, v) && Grows(v, w)
    ensures Grows(u, w)
  {
    assert w.headers[..|u.headers|] == v.headers[..|u.headers|];
    assert w.dividers[..|u.dividers|] == v.dividers[..|u.dividers|];
    assert w.footers[..|u.footers|] == v.footers[..|u.footers|];
  }

  /** One line adds one entry to one bucket when it is classified, and nothing otherwise. */
  lemma {:induction false} AddLineCounts(v: Vibes, line: string)
    ensures Grows(v, AddLine(v, line))
    ensures Total(AddLine(v, line)) == Total(v) + (if Classify(line).Some? then 1 else 0)
  {
    var w := AddLine(v, line);
    assert v.headers <= w.headers by { assert w.headers[..|v.headers|] == v.headers; }
    assert v.dividers <= w.dividers by { assert w.dividers[..|v.dividers|] == v.dividers; }
    assert v.footers <= w.footers by { assert w.footers[..|v.footers|] == v.footers; }
  }

  /**
   * Every line lands in at most one bucket: the harvest grows by exactly
   * the number of classified lines, keeps what it had in front, and never
   * touches `patterns`.
   */
  lemma {:induction false} AddLinesCounts(v: Vibes, lines: seq<string>)
    ensures Grows(v, AddLines(v, lines))
    ensures Total(AddLines(v, lines)) == Total(v) + Classified(lines)
  {
    if lines == [] {
      assert Grows(v, v) by {
        assert v.headers[..|v.headers|] == v.headers;
        assert v.dividers[..|v.dividers|] == v.dividers;
        assert v.footers[..|v.footers|] == v.footers;
      }
    } else {
      var init := lines[..|lines| - 1];
      AddLinesCounts(v, init);
      var u := AddLines(v, init);
      AddLineCounts(u, lines[|lines| - 1]);
      GrowsTrans(v, u, AddLines(v, lines));
    }
  }

  /** What each bucket may hold beyond what it had: lines of the input meeting that bucket's test. */
  predicate Sound(v: Vibes, w: Vibes, lines: seq<string>)
  {
    && (forall h :: h in w.headers ==> h in v.headers || exists l :: l in lines && h == l && Count(l, '█') > 5)
    && (forall d :: d in w.dividers ==> d in v.dividers || exists l :: l in lines && d == Strip(l) && Classify(l) == Some(Dividers))
    && (forall f :: f in w.footers ==> f in v.footers || exists l :: l in lines && f == Strip(l) && Classify(l) == Some(Footers))
  }

  /** A divider is the stripped text of a line longer than 30 with at most five distinct characters. */
  lemma {:induction false} DividerMeaning(l: string)
    requires Classify(l) == Some(Dividers)
    ensures |l| > 30 && |DistinctChars(Strip(l))| <= 5 && Count(l, '█') <= 5
  {
  }

  lemma {:induction false} AddLinesSound(v: Vibes, lines: seq<string>)
    ensures Sound(v, AddLines(v, lines), lines)
  {
    if lines != [] {
      var init := lines[..|lines| - 1];
      var last := lines[|lines| - 1];
      AddLinesSound(v, init);
      var u := AddLines(v, init);
      var w := AddLine(u, last);
      assert forall l :: l in init ==> l in lines;
      assert last in lines;
      forall h | h in w.headers ensures h in v.headers || exists l :: l in lines && h == l && Count(l, '█') > 5 {
        if h !in u.headers {
          assert h == last && Count(last, '█') > 5;
        }
      }
      forall d | d in w.dividers
        ensures d in v.dividers || exists l :: l in lines && d == Strip(l) && Classify(l) == Some(Dividers)
      {
        if d !in u.dividers {
          assert d == Strip(last) && Classify(last) == Some(Dividers);
        }
      }
      forall f | f in w.footers
        ensures f in v.footers || exists l :: l in lines && f == Strip(l) && Classify(l) == Some(Footers)
      {
        if f !in u.footers {
          assert f == Strip(last) && Classify(last) == Some(Footers);
        }
      }
    }
  }

  /** One more line of the file being read. */
  lemma {:induction false} AddLinesStep(v: Vibes, lines: seq<string>, j: nat)
    requires j < |lines|
    ensures AddLines(v, lines[..j + 1]) == AddLine(AddLines(v, lines[..j]), lines[j])
  {
    assert lines[..j + 1][..j] == lines[..j];
  }

  /** One more file. */
  lemma {:induction false} AddFilesStep(v: Vibes, contents: seq<string>, f: nat)
    requires f < |contents|
    ensures AddFiles(v, contents[..f + 1]) == AddLines(AddFiles(v, contents[..f]), Split(contents[f], '\n'))
  {
    assert contents[..f + 1][..f] == contents[..f];
  }

  /**
   * `load_banner_vibes`: nothing when the banners directory is missing,
   * else every line of every banner file, file by file, in order.
   */
  method LoadBannerVibes(dirExists: bool, contents: seq<string>) returns (vibes: Vibes)
    ensures !dirExists ==> vibes == NO_VIBES
    ensures dirExists ==> vibes == AddFiles(NO_VIBES, contents)
  {
    vibes := NO_VIBES;
    if !dirExists {
      return;
    }
    var f := 0;
    while f < |contents|
      invariant 0 <= f <= |contents|
      invariant vibes == AddFiles(NO_VIBES, contents[..f])
    {
      AddFilesStep(NO_VIBES, contents, f);
      vibes := AddFileLines(vibes, Split(contents[f], '\n'));
      f := f + 1;
    }
    assert contents[..f] == contents;
  }

  /** The inner loop of `load_banner_vibes` over one file's lines. */
  method AddFileLines(v: Vibes, lines: seq<string>) returns (w: Vibes)
    ensures w == AddLines(v, lines)
  {
    w := v;
    var j := 0;
    while j < |lines|
      invariant 0 <= j <= |lines|
      invariant w == AddLines(v, lines[..j])
    {
      AddLinesStep(v, lines, j);
      var line := lines[j];
      if Count(line, '█') > 5 {
        w := w.(headers := w.headers + [line]);
      } else if |line| > 30 && |DistinctChars(Strip(line))| <= 5 {
        w := w.(dividers := w.dividers + [Strip(line)]);
      } else if Contains(Lower(line), "signed") || Contains(line, "/dev/") {
        w := w.(footers := w.footers + [Strip(line)]);
      }
      j := j + 1;
    }
    assert lines[..j] == lines;
  }
}
