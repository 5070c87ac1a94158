/**
 * The banner effects tester behind the documentation menu: how it finds
 * banner files, splits a banner into row ranges ("components"), decides
 * which component owns a row, and moves the dropdown cursor.  The terminal
 * interface, the effects and the themes' colours are not part of this model;
 * a banner file is given by its name, whether it lies in the default
 * directory, and the text a read of it returns.
 */
module HakcerMenu {
  import opened Wrappers
  import opened PyStr
  import opened Arith
  import GenLib

  const FULL_BANNER: string := "banner_full.txt"
  const NO_BANNERS: string := "No banner files found!"
  const ZERO_DIVISION: string := "integer division or modulo by zero"

  const EFFECTS: seq<string> := ["none", "decrypt", "matrix", "synthgrid", "waves", "fireworks",
                                 "vhstape", "typewriter", "glitch", "rain", "scan"]
  const THEME_LIST: seq<string> := ["matrix", "synthwave", "cyberpunk", "neon", "tokyo_night",
                                    "dracula", "monokai", "gruvbox"]

  /** A `(name, start_row, end_row)` definition; rows are 0-based, the end excluded. */
  datatype Section = Section(name: string, start: int, end: int)

  /** The fixed component layout of the default `banner_full.txt`. */
  const DEFAULT_COMPONENT_DEFS: seq<Section> := [
    Section("Main Logo", 0, 19),
    Section("Title Text", 3, 4),
    Section("Divider Line", 16, 17),
    Section("Arrows", 17, 20),
    Section("Effects Banner", 20, 21),
    Section("TESTER ASCII", 22, 31),
    Section("Border Frame", 21, 32)
  ]

  // ---------------------------------------------------------------
  // find_banner_files
  // ---------------------------------------------------------------

  /** What the given path turned out to be on disk. */
  datatype PathKind = File | Directory | Absent

  /** Python's `<=` on strings: lexicographic on code points, a prefix first. */
  predicate StrLe(a: string, b: string)
    decreases |a|
  {
    if a == [] then true
    else if b == [] then false
    else if a[0] != b[0] then a[0] < b[0]
    else StrLe(a[1..], b[1..])
  }

  lemma {:induction false} StrLeTotal(a: string, b: string)
    ensures StrLe(a, b) || StrLe(b, a)
    decreases |a|
  {
    if a != [] && b != [] && a[0] == b[0] {
      StrLeTotal(a[1..], b[1..]);
    }
  }

  lemma {:induction false} StrLeTrans(a: string, b: string, c: string)
    requires StrLe(a, b) && StrLe(b, c)
    ensures StrLe(a, c)
    decreases |a|
  {
    if a != [] && b != [] && c != [] && a[0] == b[0] && b[0] == c[0] {
      StrLeTrans(a[1..], b[1..], c[1..]);
    }
  }

  /** The sort key `(name != "banner_full.txt", name)`, compared as a tuple. */
  predicate KeyLe(a: string, b: string)
  {
    if (a == FULL_BANNER) != (b == FULL_BANNER) then a == FULL_BANNER else StrLe(a, b)
  }

  lemma KeyLeTotal(a: string, b: string)
    ensures KeyLe(a, b) || KeyLe(b, a)
  {
    StrLeTotal(a, b);
  }

  lemma KeyLeTrans(a: string, b: string, c: string)
    requires KeyLe(a, b) && KeyLe(b, c)
    ensures KeyLe(a, c)
  {
    if (a == FULL_BANNER) == (b == FULL_BANNER) && (b == FULL_BANNER) == (c == FULL_BANNER) {
      StrLeTrans(a, b, c);
    }
  }

  predicate KeySorted(s: seq<string>)
  {
    forall i, j :: 0 <= i < j < |s| ==> KeyLe(s[i], s[j])
  }

  /** Puts `x` before the first name it does not come after. */
  function Insert(x: string, s: seq<string>): (r: seq<string>)
    requires KeySorted(s)
    ensures multiset(r) == multiset(s) + multiset{x}
    ensures KeySorted(r)
  {
    if s == [] then [x]
    else if KeyLe(x, s[0]) then
      assert forall k :: 0 <= k < |s| ==> KeyLe(x, s[k]) by {
        forall k | 0 <= k < |s| ensures KeyLe(x, s[k]) {
          if k > 0 { KeyLeTrans(x, s[0], s[k]); }
        }
      }
      [x] + s
    else
      KeyLeTotal(x, s[0]);
      var rest := Insert(x, s[1..]);
      assert s == [s[0]] + s[1..];
      InsertedAfterHead(x, s, rest);
      [s[0]] + rest
  }

  /** What inserting a name that comes after the head into the tail gives still comes after the head. */
  lemma InsertedAfterHead(x: string, s: seq<string>, rest: seq<string>)
    requires KeySorted(s) && s != [] && KeyLe(s[0], x)
    requires multiset(rest) == multiset(s[1..]) + multiset{x}
    ensures forall k :: 0 <= k < |rest| ==> KeyLe(s[0], rest[k])
  {
    forall k | 0 <= k < |rest| ensures KeyLe(s[0], rest[k]) {
      assert rest[k] in multiset(rest);
      assert rest[k] == x || rest[k] in multiset(s[1..]);
    }
  }

  /** `sorted(names, key=lambda n: (n != "banner_full.txt", n))`. */
  function SortBanners(s: seq<string>): (r: seq<string>)
    ensures multiset(r) == multiset(s)
    ensures KeySorted(r)
  {
    if s == [] then []
    else
      assert s == [s[0]] + s[1..];
      Insert(s[0], SortBanners(s[1..]))
  }

  /** The names among `entries` that `glob("*.txt")` matches. */
  function TxtNames(entries: seq<string>): (r: seq<string>)
    ensures forall x :: x in r <==> x in entries && EndsWith(x, ".txt")
  {
    if entries == [] then []
    else (if EndsWith(entries[0], ".txt") then [entries[0]] else []) + TxtNames(entries[1..])
  }

  /**
   * `find_banner_files`: the path itself when it is a file, the sorted `.txt`
   * names of its `entries` when it is a directory, and nothing otherwise.
   */
  function FindBannerFiles(path: string, kind: PathKind, entries: seq<string>): seq<string>
  {
    match kind
    case File => [path]
    case Directory => SortBanners(TxtNames(entries))
    case Absent => []
  }

  /**
   * A directory's banner list holds exactly its `.txt` entries, with
   * `banner_full.txt` first when present and the rest in name order.
   */
  lemma BannerOrder(path: string, entries: seq<string>)
    ensures var r := FindBannerFiles(path, Directory, entries);
      (forall x :: x in r <==> x in entries && EndsWith(x, ".txt"))
      && (FULL_BANNER in entries ==> r[0] == FULL_BANNER)
      && (forall i, j :: 0 <= i < j < |r| && r[i] != FULL_BANNER ==> r[j] != FULL_BANNER && StrLe(r[i], r[j]))
  {
    var r := FindBannerFiles(path, Directory, entries);
    assert forall x :: x in r <==> x in multiset(r);
    if FULL_BANNER in entries {
      assert FULL_BANNER in r;
      var k :| 0 <= k < |r| && r[k] == FULL_BANNER;
      if k > 0 { assert KeyLe(r[0], r[k]); }
    }
  }

  /** A file or a missing path gives the path alone or no banner at all. */
  lemma NonDirectoryBanners(path: string, entries: seq<string>)
    ensures FindBannerFiles(path, File, entries) == [path]
    ensures FindBannerFiles(path, Absent, entries) == []
  {
  }

  // ---------------------------------------------------------------
  // auto_split_components
  // ---------------------------------------------------------------

  /** `max(1, total // n)` for a positive `n`. */
  function Chunk(total: nat, n: nat): nat
    requires n > 0
  {
    Max(1, total / n)
  }

  function SectionName(i: nat): string
  {
    "Section " + NatToString(i + 1)
  }

  /** The `n` sections `auto_split_components` builds for `total` lines. */
  function SplitSpec(total: nat, n: nat): (r: seq<Section>)
    requires n > 0
    ensures |r| == n
  {
    var chunk := Chunk(total, n);
    seq(n, i requires 0 <= i < n =>
      Section(SectionName(i), i * chunk, if i < n - 1 then Min((i + 1) * chunk, total) else total))
  }

  /**
   * `auto_split_components(lines, n)`: a zero count divides by zero, a
   * negative one splits into nothing.
   */
  method AutoSplit(lines: seq<string>, n: int) returns (r: Result<seq<Section>, string>)
    ensures n == 0 ==> r == Failure(ZERO_DIVISION)
    ensures n < 0 ==> r == Success([])
    ensures n > 0 ==> r == Success(SplitSpec(|lines|, n))
  {
    var total := |lines|;
    if n == 0 {
      return Failure(ZERO_DIVISION);
    }
    if n < 0 {
      return Success([]);
    }
    var chunk := Max(1, total / n);
    var sections: seq<Section> := [];
    var i := 0;
    while i < n
      invariant 0 <= i <= n
      invariant sections == SplitSpec(total, n)[..i]
    {
      var start := i * chunk;
      var end := if i < n - 1 then Min((i + 1) * chunk, total) else total;
      sections := sections + [Section(SectionName(i), start, end)];
      i := i + 1;
    }
    assert SplitSpec(total, n)[..n] == SplitSpec(total, n);
    return Success(sections);
  }

  /** The sections are named "Section 1" to "Section n", all different. */
  lemma {:induction false} SplitNames(total: nat, n: nat)
    requires n > 0
    ensures var s := SplitSpec(total, n);
      (forall i :: 0 <= i < n ==> s[i].name == "Section " + NatToString(i + 1))
      && (forall i, j :: 0 <= i < j < n ==> s[i].name != s[j].name)
  {
    var s := SplitSpec(total, n);
    forall i, j | 0 <= i < j < n ensures s[i].name != s[j].name {
      if s[i].name == s[j].name {
        assert ("Section " + NatToString(i + 1))[8..] == NatToString(i + 1);
        assert ("Section " + NatToString(j + 1))[8..] == NatToString(j + 1);
        NatToStringInjective(i + 1, j + 1);
      }
    }
  }

  /**
   * With at least as many lines as sections, the sections are nonempty,
   * start at row 0, end at the last line, and each ends where the next begins.
   */
  lemma {:induction false} SplitContiguous(total: nat, n: nat)
    requires 0 < n <= total
    ensures var s := SplitSpec(total, n);
      s[0].start == 0 && s[n - 1].end == total
      && (forall i :: 0 <= i < n - 1 ==> s[i].end == s[i + 1].start)
      && (forall i :: 0 <= i < n ==> s[i].start < s[i].end)
  {
    var s := SplitSpec(total, n);
    var chunk := Chunk(total, n);
    assert chunk == total / n >= 1;
    assert n * chunk <= total;
    forall i | 0 <= i < n - 1 ensures s[i].end == s[i + 1].start && s[i].start < s[i].end {
      MulLe(i + 1, n, chunk);
      assert (i + 1) * chunk == i * chunk + chunk;
    }
    MulLe(n - 1, n, chunk);
    assert n * chunk == (n - 1) * chunk + chunk;
  }

  /** With at least as many lines as sections, every line lies in section min(row // chunk, n - 1). */
  lemma {:induction false} SplitCovers(total: nat, n: nat, row: int)
    requires 0 < n <= total && 0 <= row < total
    ensures var s := SplitSpec(total, n); var i := Min(row / Chunk(total, n), n - 1);
      s[i].start <= row < s[i].end
  {
    var s := SplitSpec(total, n);
    var chunk := Chunk(total, n);
    var q := row / chunk;
    var lo := q * chunk;
    assert lo <= row < lo + chunk by { DivBounds(row, chunk); }
    if q < n - 1 {
      var hi := (q + 1) * chunk;
      assert hi == lo + chunk by { MulSucc(q, chunk); }
      assert s[q].start == lo && s[q].end == Min(hi, total);
    } else {
      var top := (n - 1) * chunk;
      assert top <= lo by { MulLe(n - 1, q, chunk); }
      assert s[n - 1].start == top && s[n - 1].end == total;
    }
  }

  // ---------------------------------------------------------------
  // Components
  // ---------------------------------------------------------------

  /** A `BannerComponent`: its row range and the effect and theme chosen for it. */
  datatype Component = Component(index: nat, name: string, startRow: int, endRow: int,
                                 effectIdx: nat, themeIdx: nat, animating: bool, frame: nat)

  /** A banner file: its name, whether its parent is the default directory, and its text. */
  datatype BannerFile = BannerFile(name: string, inDefaultDir: bool, content: string)

  /** `comp.start_row <= row < comp.end_row`. */
  predicate Owns(c: Component, row: int)
  {
    c.startRow <= row < c.endRow
  }

  /** The components built from `defs`, the i-th with theme `i % len(THEME_LIST)`. */
  function Themed(defs: seq<Section>): (r: seq<Component>)
    ensures |r| == |defs|
  {
    seq(|defs|, i requires 0 <= i < |defs| =>
      Component(i, defs[i].name, defs[i].start, defs[i].end, 0, i % |THEME_LIST|, true, 0))
  }

  /** The `enumerate(defs)` loop of `load_banner`. */
  method BuildComponents(defs: seq<Section>) returns (comps: seq<Component>)
    ensures comps == Themed(defs)
  {
    comps := [];
    var i := 0;
    while i < |defs|
      invariant 0 <= i <= |defs|
      invariant comps == Themed(defs)[..i]
    {
      var comp := Component(i, defs[i].name, defs[i].start, defs[i].end, 0, 0, true, 0);
      comp := comp.(themeIdx := i % |THEME_LIST|);
      comps := comps + [comp];
      i := i + 1;
    }
  }

  /** Every built component starts with no effect, animating, at frame 0, and cycles through the themes. */
  lemma ThemedFresh(defs: seq<Section>)
    ensures var r := Themed(defs);
      forall i :: 0 <= i < |r| ==>
        r[i].index == i && r[i].effectIdx == 0 && r[i].themeIdx < |THEME_LIST|
        && r[i].animating && r[i].frame == 0
        && r[i].startRow == defs[i].start && r[i].endRow == defs[i].end
        && (i + |THEME_LIST| < |r| ==> r[i + |THEME_LIST|].themeIdx == r[i].themeIdx)
  {
  }

  lemma ThemedSettled(defs: seq<Section>)
    ensures Settled(Themed(defs))
  {
    var r := Themed(defs);
    forall c | c in r ensures c.effectIdx < |EFFECTS| && c.themeIdx < |THEME_LIST| {
      var i :| 0 <= i < |r| && r[i] == c;
    }
  }

  /** `min(6, max(2, len(canvas_lines) // 5))`. */
  function NumSections(count: nat): (n: nat)
    ensures 2 <= n <= 6
  {
    Min(6, Max(2, count / 5))
  }

  /** The component definitions `load_banner` picks for a file and its trimmed lines. */
  function DefsFor(file: BannerFile, lines: seq<string>): seq<Section>
  {
    if file.name == FULL_BANNER && file.inDefaultDir then DEFAULT_COMPONENT_DEFS
    else SplitSpec(|lines|, NumSections(|lines|))
  }

  /**
   * A banner other than the default one is cut into 2 to 6 sections; with at
   * least two lines they tile its rows, each section nonempty.
   */
  lemma {:induction false} AutoDefs(file: BannerFile, lines: seq<string>)
    requires !(file.name == FULL_BANNER && file.inDefaultDir)
    ensures var d := DefsFor(file, lines);
      |d| == NumSections(|lines|) && 2 <= |d| <= 6
      && (|lines| >= 2 ==>
            d[0].start == 0 && d[|d| - 1].end == |lines|
            && (forall i :: 0 <= i < |d| - 1 ==> d[i].end == d[i + 1].start)
            && (forall i :: 0 <= i < |d| ==> d[i].start < d[i].end))
  {
    var n := NumSections(|lines|);
    if |lines| >= 2 {
      assert n <= |lines|;
      SplitContiguous(|lines|, n);
    }
  }

  /** Whether a line is all whitespace, which `BlankIsStripEmpty` shows is `not line.strip()`. */
  predicate Blank(line: string)
  {
    forall i :: 0 <= i < |line| ==> IsSpace(line[i])
  }

  lemma BlankIsStripEmpty(line: string)
    ensures Blank(line) <==> Strip(line) == ""
  {
  }

  /** The lines with their trailing blank lines removed. */
  function TrimBlank(lines: seq<string>): seq<string>
  {
    if lines != [] && Blank(lines[|lines| - 1]) then TrimBlank(lines[..|lines| - 1]) else lines
  }

  /** Trimming keeps a prefix that is empty or ends in a non-blank line, and drops only blank lines. */
  lemma {:induction false} TrimBlankShape(lines: seq<string>)
    ensures var r := TrimBlank(lines);
      |r| <= |lines| && r == lines[..|r|]
      && (r == [] || !Blank(r[|r| - 1]))
      && (forall i :: |r| <= i < |lines| ==> Blank(lines[i]))
  {
    if lines != [] && Blank(lines[|lines| - 1]) {
      var front := lines[..|lines| - 1];
      TrimBlankShape(front);
      var r := TrimBlank(front);
      assert lines[..|r|] == front[..|r|];
    }
  }

  /** The `while canvas_lines and not canvas_lines[-1].strip(): pop()` loop. */
  method DropTrailingBlank(lines: seq<string>) returns (kept: seq<string>)
    ensures kept == TrimBlank(lines)
  {
    kept := lines;
    while kept != [] && Blank(kept[|kept| - 1])
      invariant TrimBlank(kept) == TrimBlank(lines)
      decreases |kept|
    {
      kept := kept[..|kept| - 1];
    }
  }

  /**
   * Owner of a row: the last component whose range holds it, or
   * the first component when none does.
   */
  function LastOwner(comps: seq<Component>, row: int): (k: nat)
    requires |comps| > 0
    ensures k < |comps|
    ensures (exists j :: 0 <= j < |comps| && Owns(comps[j], row)) ==>
      Owns(comps[k], row) && forall j :: k < j < |comps| ==> !Owns(comps[j], row)
    ensures (forall j :: 0 <= j < |comps| ==> !Owns(comps[j], row)) ==> k == 0
  {
    if |comps| == 1 then 0
    else if Owns(comps[|comps| - 1], row) then |comps| - 1
    else
      var front := comps[..|comps| - 1];
      assert forall j :: 0 <= j < |front| ==> front[j] == comps[j];
      LastOwner(front, row)
  }

  /** A component whose rows all lie inside a later component's never owns a row. */
  lemma Shadowed(comps: seq<Component>, i: nat, j: nat, row: int)
    requires i < j < |comps|
    requires comps[j].startRow <= comps[i].startRow && comps[i].endRow <= comps[j].endRow
    ensures LastOwner(comps, row) != i || (i == 0 && !Owns(comps[0], row))
  {
    var k := LastOwner(comps, row);
    if Owns(comps[i], row) {
      assert Owns(comps[j], row);
    }
  }

  /**
   * In the default banner's layout the "Border Frame" (rows 21-31) covers
   * "TESTER ASCII" (rows 22-30), so no row is ever attributed to the latter.
   */
  lemma DefaultTesterAsciiHidden(row: int)
    ensures var comps := Themed(DEFAULT_COMPONENT_DEFS);
      comps[5].name == "TESTER ASCII" && LastOwner(comps, row) != 5
  {
    Shadowed(Themed(DEFAULT_COMPONENT_DEFS), 5, 6, row);
  }

  /** `(i + delta) % n`, Python's modulo, which is never negative for positive `n`. */
  function Step(i: int, delta: int, n: int): (r: int)
    requires n > 0
    ensures 0 <= r < n
  {
    (i + delta) % n
  }

  /** Down undoes up and up undoes down on an in-range index, and `n` steps come back. */
  lemma {:induction false} StepInverse(i: int, n: int)
    requires 0 <= i < n
    ensures Step(Step(i, -1, n), 1, n) == i
    ensures Step(Step(i, 1, n), -1, n) == i
    ensures i == 0 ==> Step(i, -1, n) == n - 1
    ensures i == n - 1 ==> Step(i, 1, n) == 0
  {
    if i == 0 {
      ModMinusOne(n);
      ModSmall(n - 1, n);
      ModN(n);
    } else {
      ModSmall(i - 1, n);
      ModSmall(i, n);
    }
    if i == n - 1 {
      ModN(n);
      ModMinusOne(n);
    } else {
      ModSmall(i + 1, n);
      ModSmall(i, n);
    }
  }

  const EMPTY_COMPONENT: Component := Component(0, "Empty", 0, 1, 0, 0, true, 0)

  lemma EmptySettled()
    ensures Settled([EMPTY_COMPONENT])
  {
    assert |EFFECTS| == 11 && |THEME_LIST| == 8;
    forall c | c in [EMPTY_COMPONENT] ensures c.effectIdx < |EFFECTS| && c.themeIdx < |THEME_LIST| {
      assert c == EMPTY_COMPONENT;
    }
  }

  /** Replacing one component by a settled one keeps the list settled. */
  lemma SettledUpdate(comps: seq<Component>, k: nat, c: Component)
    requires Settled(comps) && k < |comps|
    requires c.effectIdx < |EFFECTS| && c.themeIdx < |THEME_LIST|
    ensures Settled(comps[k := c])
  {
    var r := comps[k := c];
    forall d | d in r ensures d.effectIdx < |EFFECTS| && d.themeIdx < |THEME_LIST| {
      var i :| 0 <= i < |r| && r[i] == d;
      if i != k { assert d == comps[i] && comps[i] in comps; }
    }
  }

  /** A list whose components keep their effects and themes one for one stays settled. */
  lemma SettledPointwise(before: seq<Component>, after: seq<Component>)
    requires Settled(before) && |after| == |before|
    requires forall i :: 0 <= i < |after| ==>
      after[i].effectIdx == before[i].effectIdx && after[i].themeIdx == before[i].themeIdx
    ensures Settled(after)
  {
    forall d | d in after ensures d.effectIdx < |EFFECTS| && d.themeIdx < |THEME_LIST| {
      var i :| 0 <= i < |after| && after[i] == d;
      assert before[i] in before;
    }
  }

  /** Every component's effect and theme index names an existing effect and theme. */
  predicate Settled(comps: seq<Component>)
  {
    forall c :: c in comps ==> c.effectIdx < |EFFECTS| && c.themeIdx < |THEME_LIST|
  }

  /**
   * What `load_banner` leaves for a file: its text split on newlines with the
   * trailing blank lines dropped, the widest line's length (100 for no
   * lines), and the components from `DefsFor`.
   */
  predicate Loaded(file: BannerFile, lines: seq<string>, width: Option<nat>, comps: seq<Component>)
  {
    lines == TrimBlank(Split(file.content, '\n'))
    && width == Some(if lines == [] then 100 else GenLib.MaxLen(lines))
    && comps == Themed(DefsFor(file, lines))
  }

  /** The part of `load_banner` that reads one file and builds its components. */
  method ReadBanner(file: BannerFile) returns (lines: seq<string>, width: nat, comps: seq<Component>)
    ensures Loaded(file, lines, Some(width), comps)
    ensures |comps| > 0 && Settled(comps)
  {
    lines := DropTrailingBlank(Split(file.content, '\n'));
    width := if lines == [] then 100 else GenLib.MaxLen(lines);
    var defs;
    if file.name == FULL_BANNER && file.inDefaultDir {
      defs := DEFAULT_COMPONENT_DEFS;
    } else {
      var split := AutoSplit(lines, NumSections(|lines|));
      defs := split.value;
    }
    assert defs == DefsFor(file, lines);
    assert |defs| > 0;
    comps := BuildComponents(defs);
    ThemedSettled(defs);
  }

  /** Which dropdown is open (`dropdown_open`). */
  datatype Dropdown = Closed | BannerList | ComponentList | EffectList | ThemeList

  // ---------------------------------------------------------------
  // HakcerTester
  // ---------------------------------------------------------------

  class Tester {
    var bannerFiles: seq<BannerFile>
    var currentBannerIdx: nat
    var canvasLines: seq<string>
    /** `banner_width`, which stays unset when there are no banner files. */
    var bannerWidth: Option<nat>
    var components: seq<Component>
    var selectedComponent: nat
    var dropdownOpen: Dropdown
    var dropdownIdx: int
    /** `global_animating`: whether any component animates at all. */
    var globalAnimating: bool

    /** The length of the list a dropdown shows. */
    function ListLength(d: Dropdown): nat
      reads this
    {
      match d
      case Closed => 0
      case BannerList => |bannerFiles|
      case ComponentList => |components|
      case EffectList => |EFFECTS|
      case ThemeList => |THEME_LIST|
    }

    /**
     * What the key handlers rely on: there is a component and a selected one,
     * the chosen effects and themes exist, and an open dropdown's cursor is
     * on one of its entries.
     */
    predicate Valid()
      reads this
    {
      |components| > 0 && selectedComponent < |components|
      && (|bannerFiles| > 0 ==> currentBannerIdx < |bannerFiles|)
      && Settled(components)
      && (dropdownOpen != Closed ==> 0 <= dropdownIdx < ListLength(dropdownOpen))
    }

    /** `HakcerTester(banner_path)`: the files found at the path, else those of the default directory. */
    constructor (found: seq<BannerFile>, fallback: seq<BannerFile>)
      ensures bannerFiles == (if |found| > 0 then found else fallback)
      ensures currentBannerIdx == 0 && selectedComponent == 0
      ensures dropdownOpen == Closed && dropdownIdx == 0 && globalAnimating
      ensures |bannerFiles| > 0 ==> Loaded(bannerFiles[0], canvasLines, bannerWidth, components)
      ensures |bannerFiles| == 0 ==>
        canvasLines == [NO_BANNERS] && components == [EMPTY_COMPONENT] && bannerWidth == None
      ensures Valid()
    {
      bannerFiles := if |found| > 0 then found else fallback;
      currentBannerIdx := 0;
      canvasLines := [];
      bannerWidth := None;
      components := [];
      selectedComponent := 0;
      dropdownOpen := Closed;
      dropdownIdx := 0;
      globalAnimating := true;
      new;
      LoadBanner(0);
      selectedComponent := 0;
    }

    /**
     * `load_banner(idx)`.  With no files the canvas holds a notice and one
     * "Empty" component, and nothing else changes.  Otherwise file
     * `idx % len(files)` is shown as `Loaded` describes it.
     */
    method LoadBanner(idx: int)
      modifies this
      ensures bannerFiles == old(bannerFiles)
      ensures dropdownOpen == old(dropdownOpen) && dropdownIdx == old(dropdownIdx)
      ensures globalAnimating == old(globalAnimating)
      ensures |bannerFiles| == 0 ==>
        canvasLines == [NO_BANNERS] && components == [EMPTY_COMPONENT]
        && currentBannerIdx == old(currentBannerIdx) && bannerWidth == old(bannerWidth)
        && selectedComponent == old(selectedComponent)
      ensures |bannerFiles| > 0 ==>
        currentBannerIdx == idx % |bannerFiles| && selectedComponent == 0
        && Loaded(bannerFiles[currentBannerIdx], canvasLines, bannerWidth, components)
      ensures |components| > 0 && Settled(components)
    {
      if |bannerFiles| == 0 {
        canvasLines := [NO_BANNERS];
        components := [EMPTY_COMPONENT];
        EmptySettled();
        return;
      }
      var k := idx % |bannerFiles|;
      var file := bannerFiles[k];
      var lines, width, comps := ReadBanner(file);
      currentBannerIdx, canvasLines, bannerWidth, components := k, lines, Some(width), comps;
      selectedComponent := 0;
    }

    /** `get_component_for_position(row)`. */
    method GetComponentForPosition(row: int) returns (owner: Component)
      requires |components| > 0
      ensures owner == components[LastOwner(components, row)]
    {
      owner := components[0];
      var i := 0;
      while i < |components|
        invariant 0 <= i <= |components|
        invariant owner == components[if i == 0 then 0 else LastOwner(components[..i], row)]
      {
        if components[i].startRow <= row < components[i].endRow {
          owner := components[i];
        }
        assert components[..i + 1][..i] == components[..i];
        i := i + 1;
      }
      assert components[..|components|] == components;
    }

    /** The `tab` key: banner list (when there is a choice), components, effects, themes, closed. */
    method Tab()
      requires Valid()
      modifies this
      ensures Valid()
      ensures bannerFiles == old(bannerFiles) && components == old(components)
      ensures currentBannerIdx == old(currentBannerIdx) && selectedComponent == old(selectedComponent)
      ensures canvasLines == old(canvasLines) && bannerWidth == old(bannerWidth)
      ensures globalAnimating == old(globalAnimating)
      ensures old(dropdownOpen) == Closed && |bannerFiles| > 1 ==>
        dropdownOpen == BannerList && dropdownIdx == currentBannerIdx
      ensures (old(dropdownOpen) == Closed && |bannerFiles| <= 1) || old(dropdownOpen) == BannerList ==>
        dropdownOpen == ComponentList && dropdownIdx == selectedComponent
      ensures old(dropdownOpen) == ComponentList ==>
        dropdownOpen == EffectList && dropdownIdx == components[selectedComponent].effectIdx
      ensures old(dropdownOpen) == EffectList ==>
        dropdownOpen == ThemeList && dropdownIdx == components[selectedComponent].themeIdx
      ensures old(dropdownOpen) == ThemeList ==> dropdownOpen == Closed && dropdownIdx == old(dropdownIdx)
    {
      assert components[selectedComponent] in components;
      match dropdownOpen {
        case Closed =>
          if |bannerFiles| > 1 {
            dropdownOpen := BannerList;
            dropdownIdx := currentBannerIdx;
          } else {
            dropdownOpen := ComponentList;
            dropdownIdx := selectedComponent;
          }
        case BannerList =>
          dropdownOpen := ComponentList;
          dropdownIdx := selectedComponent;
        case ComponentList =>
          dropdownOpen := EffectList;
          dropdownIdx := components[selectedComponent].effectIdx;
        case EffectList =>
          dropdownOpen := ThemeList;
          dropdownIdx := components[selectedComponent].themeIdx;
        case ThemeList =>
          dropdownOpen := Closed;
      }
    }

    /** The `up` key: the cursor moves back one entry, wrapping to the last. */
    method Up()
      requires Valid()
      modifies this
      ensures Valid()
      ensures dropdownOpen == old(dropdownOpen) && bannerFiles == old(bannerFiles)
      ensures components == old(components) && selectedComponent == old(selectedComponent)
      ensures currentBannerIdx == old(currentBannerIdx) && canvasLines == old(canvasLines)
      ensures bannerWidth == old(bannerWidth) && globalAnimating == old(globalAnimating)
      ensures dropdownIdx == if dropdownOpen == Closed then old(dropdownIdx)
                             else Step(old(dropdownIdx), -1, ListLength(dropdownOpen))
    {
      if dropdownOpen != Closed {
        dropdownIdx := (dropdownIdx - 1) % ListLength(dropdownOpen);
      }
    }

    /** The `down` key: the cursor moves on one entry, wrapping to the first. */
    method Down()
      requires Valid()
      modifies this
      ensures Valid()
      ensures dropdownOpen == old(dropdownOpen) && bannerFiles == old(bannerFiles)
      ensures components == old(components) && selectedComponent == old(selectedComponent)
      ensures currentBannerIdx == old(currentBannerIdx) && canvasLines == old(canvasLines)
      ensures bannerWidth == old(bannerWidth) && globalAnimating == old(globalAnimating)
      ensures dropdownIdx == if dropdownOpen == Closed then old(dropdownIdx)
                             else Step(old(dropdownIdx), 1, ListLength(dropdownOpen))
    {
      if dropdownOpen != Closed {
        dropdownIdx := (dropdownIdx + 1) % ListLength(dropdownOpen);
      }
    }

    /**
     * The `enter` key: applies the entry under the cursor and closes the
     * dropdown; with no dropdown open it reports that the tester is done.
     */
    method Select() returns (go: bool)
      requires Valid()
      modifies this
      ensures Valid()
      ensures go == (old(dropdownOpen) == Closed)
      ensures dropdownOpen == Closed && bannerFiles == old(bannerFiles)
      ensures dropdownIdx == old(dropdownIdx) && globalAnimating == old(globalAnimating)
      ensures old(dropdownOpen) != BannerList ==>
        canvasLines == old(canvasLines) && bannerWidth == old(bannerWidth)
        && currentBannerIdx == old(currentBannerIdx)
      ensures old(dropdownOpen) == BannerList ==>
        currentBannerIdx == old(dropdownIdx) && selectedComponent == 0
        && Loaded(bannerFiles[currentBannerIdx], canvasLines, bannerWidth, components)
      ensures old(dropdownOpen) == ComponentList ==>
        selectedComponent == old(dropdownIdx) && components == old(components)
      ensures old(dropdownOpen) == EffectList ==>
        selectedComponent == old(selectedComponent)
        && components == old(components)[selectedComponent :=
             old(components)[selectedComponent].(effectIdx := old(dropdownIdx), frame := 0)]
      ensures old(dropdownOpen) == ThemeList ==>
        selectedComponent == old(selectedComponent)
        && components == old(components)[selectedComponent :=
             old(components)[selectedComponent].(themeIdx := old(dropdownIdx))]
      ensures old(dropdownOpen) == Closed ==>
        components == old(components) && selectedComponent == old(selectedComponent)
    {
      go := false;
      match dropdownOpen {
        case Closed =>
          go := true;
        case BannerList =>
          ModSmall(dropdownIdx, |bannerFiles|);
          LoadBanner(dropdownIdx);
        case ComponentList =>
          selectedComponent := dropdownIdx;
        case EffectList =>
          var c := components[selectedComponent];
          var c' := c.(effectIdx := dropdownIdx, frame := 0);
          SettledUpdate(components, selectedComponent, c');
          components := components[selectedComponent := c'];
        case ThemeList =>
          var c := components[selectedComponent];
          var c' := c.(themeIdx := dropdownIdx);
          SettledUpdate(components, selectedComponent, c');
          components := components[selectedComponent := c'];
      }
      dropdownOpen := Closed;
    }

    /** The `escape` key: whatever dropdown is open closes; nothing else changes. */
    method Escape()
      requires Valid()
      modifies this
      ensures Valid()
      ensures dropdownOpen == Closed && dropdownIdx == old(dropdownIdx)
      ensures bannerFiles == old(bannerFiles) && components == old(components)
      ensures currentBannerIdx == old(currentBannerIdx) && selectedComponent == old(selectedComponent)
      ensures canvasLines == old(canvasLines) && bannerWidth == old(bannerWidth)
      ensures globalAnimating == old(globalAnimating)
    {
      dropdownOpen := Closed;
    }

    /** The `space` key: all animation stops, or starts again. */
    method ToggleAll()
      requires Valid()
      modifies this
      ensures Valid()
      ensures globalAnimating == !old(globalAnimating)
      ensures dropdownOpen == old(dropdownOpen) && dropdownIdx == old(dropdownIdx)
      ensures bannerFiles == old(bannerFiles) && components == old(components)
      ensures currentBannerIdx == old(currentBannerIdx) && selectedComponent == old(selectedComponent)
      ensures canvasLines == old(canvasLines) && bannerWidth == old(bannerWidth)
    {
      globalAnimating := !globalAnimating;
    }

    /** The `s` key: the selected component's animation flag flips; every other component stays. */
    method StopCurrent()
      requires Valid()
      modifies this
      ensures Valid()
      ensures bannerFiles == old(bannerFiles) && selectedComponent == old(selectedComponent)
      ensures components == old(components)[selectedComponent :=
                old(components)[selectedComponent].(animating := !old(components)[selectedComponent].animating)]
      ensures dropdownOpen == old(dropdownOpen) && dropdownIdx == old(dropdownIdx)
      ensures currentBannerIdx == old(currentBannerIdx) && globalAnimating == old(globalAnimating)
      ensures canvasLines == old(canvasLines) && bannerWidth == old(bannerWidth)
    {
      var c := components[selectedComponent];
      assert c in components;
      var c' := c.(animating := !c.animating);
      SettledUpdate(components, selectedComponent, c');
      components := components[selectedComponent := c'];
    }

    /** The `a` key: every component animates again, and so does the whole banner. */
    method StartAll()
      requires Valid()
      modifies this
      ensures Valid()
      ensures |components| == |old(components)|
      ensures forall i :: 0 <= i < |components| ==> components[i] == old(components)[i].(animating := true)
      ensures globalAnimating
      ensures dropdownOpen == old(dropdownOpen) && dropdownIdx == old(dropdownIdx)
      ensures bannerFiles == old(bannerFiles) && selectedComponent == old(selectedComponent)
      ensures currentBannerIdx == old(currentBannerIdx)
      ensures canvasLines == old(canvasLines) && bannerWidth == old(bannerWidth)
    {
      var i := 0;
      while i < |components|
        invariant 0 <= i <= |components| == |old(components)|
        invariant forall j :: 0 <= j < i ==> components[j] == old(components)[j].(animating := true)
        invariant forall j :: i <= j < |components| ==> components[j] == old(components)[j]
        invariant dropdownOpen == old(dropdownOpen) && dropdownIdx == old(dropdownIdx)
        invariant bannerFiles == old(bannerFiles) && selectedComponent == old(selectedComponent)
        invariant currentBannerIdx == old(currentBannerIdx)
        invariant canvasLines == old(canvasLines) && bannerWidth == old(bannerWidth)
      {
        components := components[i := components[i].(animating := true)];
        i := i + 1;
      }
      globalAnimating := true;
      SettledPointwise(old(components), components);
    }

    /** The `b` key: with more than one banner, the banner list opens at the current banner. */
    method BannerSelect()
      requires Valid()
      modifies this
      ensures Valid()
      ensures |bannerFiles| > 1 ==> dropdownOpen == BannerList && dropdownIdx == currentBannerIdx
      ensures |bannerFiles| <= 1 ==> dropdownOpen == old(dropdownOpen) && dropdownIdx == old(dropdownIdx)
      ensures bannerFiles == old(bannerFiles) && components == old(components)
      ensures currentBannerIdx == old(currentBannerIdx) && selectedComponent == old(selectedComponent)
      ensures canvasLines == old(canvasLines) && bannerWidth == old(bannerWidth)
      ensures globalAnimating == old(globalAnimating)
    {
      if |bannerFiles| > 1 {
        dropdownOpen := BannerList;
        dropdownIdx := currentBannerIdx;
      }
    }
  }
}
