/**
 * The frame parser of the GIF renderer.  A frame of a text effect is text
 * in which each coloured character is written as the truecolour foreground
 * control sequence `ESC [38;2;R;G;B m` (ECMA-48, section 8.3.117), the
 * character itself and the reset `ESC [0m`.  Parsing turns a frame into a
 * grid of cells; a long animation is first thinned to at most forty evenly
 * spaced frames.
 *
 * The scanner works at positions in a row, as the regular expression's
 * `match(row, i)` and the string's `find('m', i)` do.
 */
module RenderGifs {
  import opened Wrappers
  import opened PyStr
  import opened Arith

  const ESC: char := '\U{1B}'
  /** The opening of a truecolour foreground sequence, `ESC [38;2;`. */
  const RGB_OPEN: string := "\U{1B}[38;2;"
  /** The reset written after each coloured character, `ESC [0m`. */
  const RESET: string := "\U{1B}[0m"
  const MAX_FRAMES := 40

  /** A grid cell: the character, if any, and its colour. */
  datatype Cell = Cell(ch: Option<char>, r: nat, g: nat, b: nat)

  const BLANK := Cell(None, 0, 0, 0)

  /** `s` holds `w` from index `i` on. */
  predicate Holds(s: string, i: nat, w: string)
  {
    i + |w| <= |s| && forall k :: 0 <= k < |w| ==> s[i + k] == w[k]
  }

  // ---------------------------------------------------------------------
  // Numbers
  // ---------------------------------------------------------------------

  /** The value of a decimal digit (the scanner applies it to digits only). */
  function DigitValue(c: char): nat
  {
    if IsDigit(c) then c as int - '0' as int else 0
  }

  /** The value of the decimal digits `s[i..j]`. */
  function DecimalAt(s: string, i: nat, j: nat): nat
    requires i <= j <= |s|
    decreases j - i
  {
    if j == i then 0 else DecimalAt(s, i, j - 1) * 10 + DigitValue(s[j - 1])
  }

  /** `int(ds)` for a run of decimal digits. */
  function Decimal(ds: string): nat
  {
    DecimalAt(ds, 0, |ds|)
  }

  /** A nonempty run of decimal digits. */
  predicate Digits(ds: string)
  {
    |ds| > 0 && forall k :: 0 <= k < |ds| ==> IsDigit(ds[k])
  }

  lemma {:induction false} DecimalPrefix(a: string, b: string, j: nat)
    requires j <= |a|
    ensures DecimalAt(a + b, 0, j) == DecimalAt(a, 0, j)
    decreases j
  {
    if j > 0 {
      DecimalPrefix(a, b, j - 1);
      assert (a + b)[j - 1] == a[j - 1];
    }
  }

  /** Reading back the decimal digits of a number gives the number. */
  lemma {:induction false} DecimalOfNat(n: nat)
    ensures Decimal(NatToString(n)) == n
    decreases n
  {
    var s := NatToString(n);
    if n < 10 {
      assert DecimalAt(s, 0, 0) == 0;
    } else {
      var a := NatToString(n / 10);
      assert s == a + [DigitChar(n % 10)];
      DecimalPrefix(a, [DigitChar(n % 10)], |a|);
      DecimalOfNat(n / 10);
    }
  }

  /** The length of the run of digits that `\d+` takes greedily from index `i`. */
  function DigitRun(s: string, i: nat): (n: nat)
    requires i <= |s|
    ensures i + n <= |s|
    ensures i + n < |s| ==> !IsDigit(s[i + n])
    decreases |s| - i
  {
    if i < |s| && IsDigit(s[i]) then 1 + DigitRun(s, i + 1) else 0
  }

  /**
   * `\d+` followed by the character `t`, from index `i`: the number read and
   * the index just past `t`.  A non-digit `t` leaves the greedy run as the
   * only way to match.
   */
  function NumberAt(s: string, i: nat, t: char): (m: Option<(nat, nat)>)
    requires i <= |s|
    ensures m.Some? ==> i + 1 < m.value.1 <= |s| && s[m.value.1 - 1] == t
  {
    var n := DigitRun(s, i);
    if 0 < n && i + n < |s| && s[i + n] == t then Some((DecimalAt(s, i, i + n), i + n + 1)) else None
  }

  // ---------------------------------------------------------------------
  // The truecolour pattern
  // ---------------------------------------------------------------------

  /** A match of the truecolour pattern: the cell it yields and the index just past it. */
  datatype Match = Match(cell: Cell, end: nat)

  /** The coloured character at `j`, which may not be a line break, followed by the reset. */
  predicate ClosesAt(s: string, j: nat)
  {
    j < |s| && s[j] != '\n' && Holds(s, j + 1, RESET)
  }

  /**
   * The truecolour pattern `ESC [38;2; (\d+) ; (\d+) ; (\d+) m (.) ESC [0m`
   * matched at index `i` of `s`.
   */
  function MatchAt(s: string, i: nat): (m: Option<Match>)
    requires i <= |s|
    ensures m.Some? ==> Holds(s, i, RGB_OPEN) && i + |RGB_OPEN| < m.value.end <= |s|
  {
    if !Holds(s, i, RGB_OPEN) then None else RedAt(s, i + |RGB_OPEN|)
  }

  /** The pattern from the red field on. */
  function RedAt(s: string, j: nat): (m: Option<Match>)
    requires j <= |s|
    ensures m.Some? ==> j < m.value.end <= |s|
  {
    match NumberAt(s, j, ';')
    case None => None
    case Some((r, j1)) => GreenAt(s, j1, r)
  }

  /** The pattern from the green field on, red being `r`. */
  function GreenAt(s: string, j: nat, r: nat): (m: Option<Match>)
    requires j <= |s|
    ensures m.Some? ==> j < m.value.end <= |s|
  {
    match NumberAt(s, j, ';')
    case None => None
    case Some((g, j2)) => BlueAt(s, j2, r, g)
  }

  /** The pattern from the blue field on, red and green being `r` and `g`. */
  function BlueAt(s: string, j: nat, r: nat, g: nat): (m: Option<Match>)
    requires j <= |s|
    ensures m.Some? ==> j < m.value.end <= |s|
  {
    match NumberAt(s, j, 'm')
    case None => None
    case Some((b, j3)) =>
      if ClosesAt(s, j3) then Some(Match(Cell(Some(s[j3]), r, g, b), j3 + 1 + |RESET|)) else None
  }

  // ---------------------------------------------------------------------
  // Scanning a row
  // ---------------------------------------------------------------------

  /** `s.find(c, i)`: the first index from `i` on holding `c`, or -1. */
  function FindFrom(s: string, c: char, i: nat): (k: int)
    requires i <= |s|
    ensures k == -1 || (i <= k < |s| && s[k] == c)
    ensures forall j :: i <= j < (if k == -1 then |s| else k) ==> s[j] != c
    decreases |s| - i
  {
    if i == |s| then -1 else if s[i] == c then i else FindFrom(s, c, i + 1)
  }

  /** One turn of the scanning loop: the cell it places in the next column, if any, and where it moves. */
  datatype Step = Step(cell: Option<Cell>, next: nat)

  function StepAt(s: string, i: nat): (st: Step)
    requires i < |s|
    ensures i < st.next <= |s|
  {
    match MatchAt(s, i)
    case Some(m) => Step(Some(m.cell), m.end)
    case None =>
      if s[i] == ESC then
        var e := FindFrom(s, 'm', i);
        Step(None, if e != -1 then e + 1 else i + 1)
      else
        Step(Some(Cell(Some(s[i]), 0, 0, 0)), i + 1)
  }

  /** The cells a step places. */
  function Placed(st: Step): seq<Cell>
  {
    if st.cell.Some? then [st.cell.value] else []
  }

  /** The cells of `s` from index `i` on, in column order. */
  function ScanFrom(s: string, i: nat): seq<Cell>
    requires i <= |s|
    decreases |s| - i
  {
    if i == |s| then [] else Placed(StepAt(s, i)) + ScanFrom(s, StepAt(s, i).next)
  }

  /** The cells of a row, in column order. */
  function Scan(s: string): seq<Cell>
  {
    ScanFrom(s, 0)
  }

  /** A column map holding `cells` at columns 0, 1, ... */
  function IndexMap(cells: seq<Cell>): map<nat, Cell>
  {
    map k: nat | k < |cells| :: cells[k]
  }

  lemma {:induction false} IndexMapSnoc(cells: seq<Cell>, c: Cell)
    ensures IndexMap(cells + [c]) == IndexMap(cells)[|cells| := c]
  {
    var a := IndexMap(cells + [c]);
    var b := IndexMap(cells)[|cells| := c];
    assert a.Keys == b.Keys;
    forall k | k in a ensures a[k] == b[k] {
      if k < |cells| {
        assert (cells + [c])[k] == cells[k];
      }
    }
  }

  /** One turn of the scan moves the step's cells from the rest of the row to the done part. */
  lemma {:induction false} ScanAdvance(row: string, i: nat, done: seq<Cell>)
    requires i < |row| && done + ScanFrom(row, i) == Scan(row)
    ensures (done + Placed(StepAt(row, i))) + ScanFrom(row, StepAt(row, i).next) == Scan(row)
  {
    var st := StepAt(row, i);
    var later := ScanFrom(row, st.next);
    assert ScanFrom(row, i) == Placed(st) + later by { ScanUnfold(row, i); }
    assert (done + Placed(st)) + later == done + (Placed(st) + later) by { Regroup(done, Placed(st), later); }
  }

  lemma {:induction false} Regroup(a: seq<Cell>, b: seq<Cell>, c: seq<Cell>)
    ensures (a + b) + c == a + (b + c)
  {
  }

  /** The row loop's scan: the column map holds the scanned cells of the row. */
  method ParseRow(row: string) returns (colMap: map<nat, Cell>)
    ensures colMap == IndexMap(Scan(row))
  {
    colMap := map[];
    var plainCol: nat := 0;
    var i := 0;
    ghost var done: seq<Cell> := [];
    while i < |row|
      invariant 0 <= i <= |row|
      invariant done + ScanFrom(row, i) == Scan(row)
      invariant plainCol == |done| && colMap == IndexMap(done)
      decreases |row| - i
    {
      ghost var st := StepAt(row, i);
      assert (done + Placed(st)) + ScanFrom(row, st.next) == Scan(row) by { ScanAdvance(row, i, done); }
      var m := MatchAt(row, i);
      if m.Some? {
        var c := m.value.cell;
        assert st == Step(Some(c), m.value.end);
        assert IndexMap(done + [c]) == colMap[plainCol := c] by { IndexMapSnoc(done, c); }
        colMap := colMap[plainCol := c];
        done := done + [c];
        plainCol := plainCol + 1;
        i := m.value.end;
      } else if row[i] == ESC {
        var end := FindFrom(row, 'm', i);
        i := if end != -1 then end + 1 else i + 1;
        assert i == st.next && done + Placed(st) == done;
      } else {
        var c := Cell(Some(row[i]), 0, 0, 0);
        assert st == Step(Some(c), i + 1);
        assert IndexMap(done + [c]) == colMap[plainCol := c] by { IndexMapSnoc(done, c); }
        colMap := colMap[plainCol := c];
        done := done + [c];
        plainCol := plainCol + 1;
        i := i + 1;
      }
    }
  }

  // ---------------------------------------------------------------------
  // Parsing a frame
  // ---------------------------------------------------------------------

  /** `[col_map.get(col, blank) for col in range(numCols)]`. */
  function MapRow(colMap: map<nat, Cell>, numCols: int): (cells: seq<Cell>)
    ensures |cells| == Max(0, numCols)
  {
    seq(Max(0, numCols), c requires 0 <= c < Max(0, numCols) => if c in colMap then colMap[c] else BLANK)
  }

  /** The cells of one row. */
  function RowCells(row: string, numCols: int): (cells: seq<Cell>)
    ensures |cells| == Max(0, numCols)
  {
    MapRow(IndexMap(Scan(row)), numCols)
  }

  /** Row `k` of the frame's lines, or empty past the last line. */
  function RowOf(rows: seq<string>, k: nat): string
  {
    if k < |rows| then rows[k] else ""
  }

  /** The grid `parse_frame` returns. */
  function Frame(ansi: string, numCols: int, numRows: int): (grid: seq<seq<Cell>>)
    ensures |grid| == Max(0, numRows)
    ensures forall k :: 0 <= k < |grid| ==> |grid[k]| == Max(0, numCols)
  {
    var rows := Split(ansi, '\n');
    seq(Max(0, numRows), k requires 0 <= k < Max(0, numRows) => RowCells(RowOf(rows, k), numCols))
  }

  /** The column loop: each column's cell from the map, blank where it has none. */
  method FillRow(colMap: map<nat, Cell>, numCols: int) returns (cells: seq<Cell>)
    ensures cells == MapRow(colMap, numCols)
  {
    cells := [];
    var col := 0;
    while col < numCols
      invariant 0 <= col <= Max(0, numCols)
      invariant cells == MapRow(colMap, numCols)[..col]
    {
      cells := cells + [if col in colMap then colMap[col] else BLANK];
      col := col + 1;
    }
  }

  method ParseFrame(ansi: string, numCols: int, numRows: int) returns (result: seq<seq<Cell>>)
    ensures result == Frame(ansi, numCols, numRows)
    ensures |result| == Max(0, numRows)
    ensures forall k :: 0 <= k < |result| ==> |result[k]| == Max(0, numCols)
  {
    var rows := Split(ansi, '\n');
    result := [];
    var rowIdx := 0;
    while rowIdx < numRows
      invariant 0 <= rowIdx <= Max(0, numRows)
      invariant result == Frame(ansi, numCols, numRows)[..rowIdx]
    {
      var rowStr := if rowIdx < |rows| then rows[rowIdx] else "";
      var colMap := ParseRow(rowStr);
      var cells := FillRow(colMap, numCols);
      assert cells == Frame(ansi, numCols, numRows)[rowIdx];
      result := result + [cells];
      rowIdx := rowIdx + 1;
    }
  }

  // ---------------------------------------------------------------------
  // Scanning depends only on what lies ahead
  // ---------------------------------------------------------------------

  lemma {:induction false} HoldsShift(p: string, q: string, i: nat, w: string)
    ensures Holds(p + q, |p| + i, w) == Holds(q, i, w)
  {
    forall j | 0 <= j < |q| ensures (p + q)[|p| + j] == q[j] { }
  }

  lemma {:induction false} DigitRunShift(p: string, q: string, i: nat)
    requires i <= |q|
    ensures DigitRun(p + q, |p| + i) == DigitRun(q, i)
    decreases |q| - i
  {
    if i < |q| {
      assert (p + q)[|p| + i] == q[i];
      DigitRunShift(p, q, i + 1);
    }
  }

  lemma {:induction false} DecimalShift(p: string, q: string, i: nat, j: nat)
    requires i <= j <= |q|
    ensures DecimalAt(p + q, |p| + i, |p| + j) == DecimalAt(q, i, j)
    decreases j - i
  {
    if i < j {
      DecimalShift(p, q, i, j - 1);
      assert (p + q)[|p| + j - 1] == q[j - 1];
    }
  }

  /** A number read `k` characters further on. */
  function ShiftNumber(m: Option<(nat, nat)>, k: nat): Option<(nat, nat)>
  {
    if m.Some? then Some((m.value.0, k + m.value.1)) else None
  }

  /** A match found `k` characters further on. */
  function ShiftMatch(m: Option<Match>, k: nat): Option<Match>
  {
    if m.Some? then Some(Match(m.value.cell, k + m.value.end)) else None
  }

  lemma {:induction false} NumberShift(p: string, q: string, i: nat, t: char)
    requires i <= |q|
    ensures NumberAt(p + q, |p| + i, t) == ShiftNumber(NumberAt(q, i, t), |p|)
  {
    var n := DigitRun(q, i);
    assert DigitRun(p + q, |p| + i) == n by {
      DigitRunShift(p, q, i);
    }
    if i + n < |q| {
      assert (p + q)[|p| + i + n] == q[i + n];
    }
    assert DecimalAt(p + q, |p| + i, |p| + (i + n)) == DecimalAt(q, i, i + n) by {
      DecimalShift(p, q, i, i + n);
    }
  }

  lemma {:induction false} BlueShift(p: string, q: string, j: nat, r: nat, g: nat)
    requires j <= |q|
    ensures BlueAt(p + q, |p| + j, r, g) == ShiftMatch(BlueAt(q, j, r, g), |p|)
  {
    var n := NumberAt(q, j, 'm');
    assert NumberAt(p + q, |p| + j, 'm') == ShiftNumber(n, |p|) by {
      NumberShift(p, q, j, 'm');
    }
    if n.Some? {
      var j3 := n.value.1;
      assert Holds(p + q, |p| + j3 + 1, RESET) == Holds(q, j3 + 1, RESET) by {
        HoldsShift(p, q, j3 + 1, RESET);
      }
      if j3 < |q| {
        assert (p + q)[|p| + j3] == q[j3];
      }
    }
  }

  lemma {:induction false} GreenShift(p: string, q: string, j: nat, r: nat)
    requires j <= |q|
    ensures GreenAt(p + q, |p| + j, r) == ShiftMatch(GreenAt(q, j, r), |p|)
  {
    var n := NumberAt(q, j, ';');
    assert NumberAt(p + q, |p| + j, ';') == ShiftNumber(n, |p|) by {
      NumberShift(p, q, j, ';');
    }
    if n.Some? {
      assert BlueAt(p + q, |p| + n.value.1, r, n.value.0) == ShiftMatch(BlueAt(q, n.value.1, r, n.value.0), |p|) by {
        BlueShift(p, q, n.value.1, r, n.value.0);
      }
    }
  }

  lemma {:induction false} RedShift(p: string, q: string, j: nat)
    requires j <= |q|
    ensures RedAt(p + q, |p| + j) == ShiftMatch(RedAt(q, j), |p|)
  {
    var n := NumberAt(q, j, ';');
    assert NumberAt(p + q, |p| + j, ';') == ShiftNumber(n, |p|) by {
      NumberShift(p, q, j, ';');
    }
    if n.Some? {
      assert GreenAt(p + q, |p| + n.value.1, n.value.0) == ShiftMatch(GreenAt(q, n.value.1, n.value.0), |p|) by {
        GreenShift(p, q, n.value.1, n.value.0);
      }
    }
  }

  lemma {:induction false} MatchShift(p: string, q: string, i: nat)
    requires i <= |q|
    ensures MatchAt(p + q, |p| + i) == ShiftMatch(MatchAt(q, i), |p|)
  {
    assert Holds(p + q, |p| + i, RGB_OPEN) == Holds(q, i, RGB_OPEN) by {
      HoldsShift(p, q, i, RGB_OPEN);
    }
    if Holds(q, i, RGB_OPEN) {
      assert RedAt(p + q, |p| + i + |RGB_OPEN|) == ShiftMatch(RedAt(q, i + |RGB_OPEN|), |p|) by {
        RedShift(p, q, i + |RGB_OPEN|);
      }
    }
  }

  lemma {:induction false} FindShift(p: string, q: string, c: char, i: nat)
    requires i <= |q|
    ensures FindFrom(p + q, c, |p| + i) == if FindFrom(q, c, i) == -1 then -1 else |p| + FindFrom(q, c, i)
    decreases |q| - i
  {
    if i < |q| {
      assert (p + q)[|p| + i] == q[i];
      FindShift(p, q, c, i + 1);
    }
  }

  lemma {:induction false} StepShift(p: string, q: string, i: nat)
    requires i < |q|
    ensures StepAt(p + q, |p| + i) == Step(StepAt(q, i).cell, |p| + StepAt(q, i).next)
  {
    assert MatchAt(p + q, |p| + i) == ShiftMatch(MatchAt(q, i), |p|) by {
      MatchShift(p, q, i);
    }
    assert FindFrom(p + q, 'm', |p| + i) == if FindFrom(q, 'm', i) == -1 then -1 else |p| + FindFrom(q, 'm', i) by {
      FindShift(p, q, 'm', i);
    }
    assert (p + q)[|p| + i] == q[i];
  }

  lemma {:induction false} ScanUnfold(s: string, i: nat)
    requires i < |s|
    ensures ScanFrom(s, i) == Placed(StepAt(s, i)) + ScanFrom(s, StepAt(s, i).next)
  {
  }

  /** What is scanned after a prefix is what the rest scans to on its own. */
  lemma {:induction false} ScanShift(p: string, q: string, i: nat)
    requires i <= |q|
    ensures ScanFrom(p + q, |p| + i) == ScanFrom(q, i)
    decreases |q| - i
  {
    if i < |q| {
      var st := StepAt(q, i);
      var st2 := StepAt(p + q, |p| + i);
      assert st2 == Step(st.cell, |p| + st.next) by {
        StepShift(p, q, i);
      }
      ScanShift(p, q, st.next);
      assert ScanFrom(p + q, |p| + i) == Placed(st2) + ScanFrom(p + q, st2.next) by {
        ScanUnfold(p + q, |p| + i);
      }
      assert ScanFrom(q, i) == Placed(st) + ScanFrom(q, st.next) by {
        ScanUnfold(q, i);
      }
    }
  }

  // ---------------------------------------------------------------------
  // What the scanner does with each kind of input
  // ---------------------------------------------------------------------

  /** The digits `ds` at `i`, then `t`, are read as their decimal value. */
  lemma {:induction false} NumberHolds(s: string, i: nat, ds: string, t: char)
    requires Digits(ds) && !IsDigit(t) && Holds(s, i, ds) && i + |ds| < |s| && s[i + |ds|] == t
    ensures NumberAt(s, i, t) == Some((Decimal(ds), i + |ds| + 1))
  {
    RunHolds(s, i, ds, 0);
    DecimalHolds(s, i, ds, |ds|);
  }

  lemma {:induction false} RunHolds(s: string, i: nat, ds: string, n: nat)
    requires Digits(ds) && Holds(s, i, ds) && i + |ds| < |s| && !IsDigit(s[i + |ds|]) && n <= |ds|
    ensures DigitRun(s, i + n) == |ds| - n
    decreases |ds| - n
  {
    if n < |ds| {
      assert s[i + n] == ds[n];
      RunHolds(s, i, ds, n + 1);
    }
  }

  lemma {:induction false} DecimalHolds(s: string, i: nat, ds: string, n: nat)
    requires Holds(s, i, ds) && n <= |ds|
    ensures DecimalAt(s, i, i + n) == DecimalAt(ds, 0, n)
    decreases n
  {
    if n > 0 {
      DecimalHolds(s, i, ds, n - 1);
      assert s[i + n - 1] == ds[n - 1];
    }
  }

  /** A coloured character as a frame writes it: the colour fields as digits. */
  function ColouredText(ch: char, dr: string, dg: string, db: string): string
  {
    RGB_OPEN + dr + ";" + dg + ";" + db + "m" + [ch] + RESET
  }

  /** Where each part of a coloured character lies in `s`, which starts with it. */
  predicate Laid(s: string, ch: char, dr: string, dg: string, db: string)
  {
    var o2 := |RGB_OPEN| + |dr| + 1;
    var o3 := o2 + |dg| + 1;
    var o4 := o3 + |db| + 1;
    o4 + 1 + |RESET| <= |s|
    && Holds(s, 0, RGB_OPEN) && Holds(s, |RGB_OPEN|, dr) && s[|RGB_OPEN| + |dr|] == ';'
    && Holds(s, o2, dg) && s[o2 + |dg|] == ';' && Holds(s, o3, db) && s[o3 + |db|] == 'm'
    && s[o4] == ch && Holds(s, o4 + 1, RESET)
  }

  lemma {:induction false} ColouredLayout(ch: char, dr: string, dg: string, db: string, rest: string)
    ensures Laid(ColouredText(ch, dr, dg, db) + rest, ch, dr, dg, db)
    ensures |ColouredText(ch, dr, dg, db)| == |RGB_OPEN| + |dr| + |dg| + |db| + 4 + |RESET|
  {
    var h := ColouredText(ch, dr, dg, db);
    var s := h + rest;
    var o2 := |RGB_OPEN| + |dr| + 1;
    var o3 := o2 + |dg| + 1;
    var o4 := o3 + |db| + 1;
    forall k | 0 <= k < |RGB_OPEN| ensures s[k] == RGB_OPEN[k] { }
    forall k | 0 <= k < |dr| ensures s[|RGB_OPEN| + k] == dr[k] { }
    forall k | 0 <= k < |dg| ensures s[o2 + k] == dg[k] { }
    forall k | 0 <= k < |db| ensures s[o3 + k] == db[k] { }
    forall k | 0 <= k < |RESET| ensures s[o4 + 1 + k] == RESET[k] { }
  }

  /** The blue field, the `m`, the character and the reset. */
  lemma {:induction false} BlueHolds(s: string, j: nat, db: string, r: nat, g: nat, ch: char)
    requires Digits(db) && Holds(s, j, db) && j + |db| + 1 < |s|
    requires s[j + |db|] == 'm' && s[j + |db| + 1] == ch && ch != '\n' && Holds(s, j + |db| + 2, RESET)
    ensures BlueAt(s, j, r, g) == Some(Match(Cell(Some(ch), r, g, Decimal(db)), j + |db| + 2 + |RESET|))
  {
    assert NumberAt(s, j, 'm') == Some((Decimal(db), j + |db| + 1)) by { NumberHolds(s, j, db, 'm'); }
    assert ClosesAt(s, j + |db| + 1);
  }

  /** The pattern matches at the start of a laid-out coloured character. */
  lemma {:induction false} MatchLaid(s: string, ch: char, dr: string, dg: string, db: string)
    requires ch != '\n' && Digits(dr) && Digits(dg) && Digits(db) && Laid(s, ch, dr, dg, db)
    ensures MatchAt(s, 0) == Some(Match(Cell(Some(ch), Decimal(dr), Decimal(dg), Decimal(db)),
                                        |RGB_OPEN| + |dr| + |dg| + |db| + 4 + |RESET|))
  {
    var o2 := |RGB_OPEN| + |dr| + 1;
    var o3 := o2 + |dg| + 1;
    var e := o3 + |db| + 2 + |RESET|;
    var cell := Cell(Some(ch), Decimal(dr), Decimal(dg), Decimal(db));
    assert BlueAt(s, o3, Decimal(dr), Decimal(dg)) == Some(Match(cell, e)) by {
      BlueHolds(s, o3, db, Decimal(dr), Decimal(dg), ch);
    }
    assert GreenAt(s, o2, Decimal(dr)) == Some(Match(cell, e)) by {
      NumberHolds(s, o2, dg, ';');
    }
    assert RedAt(s, |RGB_OPEN|) == Some(Match(cell, e)) by {
      NumberHolds(s, |RGB_OPEN|, dr, ';');
    }
  }

  /**
   * A coloured character yields that character in the colour its fields
   * spell (leading zeros allowed) and takes one column.
   */
  lemma {:induction false} ScanColoured(ch: char, dr: string, dg: string, db: string, rest: string)
    requires ch != '\n' && Digits(dr) && Digits(dg) && Digits(db)
    ensures Scan(ColouredText(ch, dr, dg, db) + rest)
         == [Cell(Some(ch), Decimal(dr), Decimal(dg), Decimal(db))] + Scan(rest)
  {
    var h := ColouredText(ch, dr, dg, db);
    var c := Cell(Some(ch), Decimal(dr), Decimal(dg), Decimal(db));
    StepColoured(ch, dr, dg, db, rest);
    ScanAfterStep(h, rest, c);
  }

  /** When the first step takes the whole of `p`, the scan goes on with what follows `p`. */
  lemma {:induction false} ScanAfterStep(p: string, rest: string, c: Cell)
    requires 0 < |p| && StepAt(p + rest, 0) == Step(Some(c), |p|)
    ensures Scan(p + rest) == [c] + Scan(rest)
  {
    ScanShift(p, rest, 0);
    ScanUnfold(p + rest, 0);
  }

  /** At a coloured character the scan takes the whole of it as one match. */
  lemma {:induction false} StepColoured(ch: char, dr: string, dg: string, db: string, rest: string)
    requires ch != '\n' && Digits(dr) && Digits(dg) && Digits(db)
    ensures StepAt(ColouredText(ch, dr, dg, db) + rest, 0)
         == Step(Some(Cell(Some(ch), Decimal(dr), Decimal(dg), Decimal(db))), |ColouredText(ch, dr, dg, db)|)
  {
    var s := ColouredText(ch, dr, dg, db) + rest;
    var e := |RGB_OPEN| + |dr| + |dg| + |db| + 4 + |RESET|;
    assert Laid(s, ch, dr, dg, db) && |ColouredText(ch, dr, dg, db)| == e by {
      ColouredLayout(ch, dr, dg, db, rest);
    }
    MatchLaid(s, ch, dr, dg, db);
    StepOfMatch(s, 0, Match(Cell(Some(ch), Decimal(dr), Decimal(dg), Decimal(db)), e));
  }

  /** Where the pattern matches, the scan takes the match. */
  lemma {:induction false} StepOfMatch(s: string, i: nat, m: Match)
    requires i < |s| && MatchAt(s, i) == Some(m)
    ensures StepAt(s, i) == Step(Some(m.cell), m.end)
  {
  }

  /** Any other escape sequence is skipped through its `m` and takes no column. */
  lemma {:induction false} ScanOtherEscape(body: string, rest: string)
    requires 'm' !in body
    requires MatchAt([ESC] + body + "m" + rest, 0) == None
    ensures Scan([ESC] + body + "m" + rest) == Scan(rest)
  {
    var p := [ESC] + body + "m";
    var s := p + rest;
    forall j | 0 <= j < |p| - 1 ensures s[j] != 'm' {
      if j > 0 {
        assert s[j] == body[j - 1];
      }
    }
    assert s[|p| - 1] == 'm';
    assert FindFrom(s, 'm', 0) == |p| - 1;
    ScanShift(p, rest, 0);
  }

  /** A sequence that does not open with `[38;2;` never matches the truecolour pattern. */
  lemma {:induction false} OtherSequenceNoMatch(t: string)
    requires !StartsWith(t, "[38;2;")
    ensures MatchAt([ESC] + t, 0) == None
  {
    var s := [ESC] + t;
    if |s| >= |RGB_OPEN| {
      assert t[..6] != "[38;2;";
      var k :| 0 <= k < 6 && t[..6][k] != "[38;2;"[k];
      assert s[k + 1] != RGB_OPEN[k + 1];
    }
  }

  /** Every match of the pattern holds an `m` at or after where it starts. */
  lemma {:induction false} MatchHoldsM(s: string, i: nat)
    requires i <= |s| && MatchAt(s, i).Some?
    ensures exists j :: i <= j < |s| && s[j] == 'm'
  {
    var n1 := NumberAt(s, i + |RGB_OPEN|, ';').value;
    assert RedAt(s, i + |RGB_OPEN|) == GreenAt(s, n1.1, n1.0);
    var n2 := NumberAt(s, n1.1, ';').value;
    assert GreenAt(s, n1.1, n1.0) == BlueAt(s, n2.1, n1.0, n2.0);
    var n3 := NumberAt(s, n2.1, 'm').value;
    assert s[n3.1 - 1] == 'm';
  }

  /** An escape with no `m` after it skips that one character. */
  lemma {:induction false} ScanLoneEscape(rest: string)
    requires 'm' !in rest
    ensures Scan([ESC] + rest) == Scan(rest)
  {
    var s := [ESC] + rest;
    forall j | 0 <= j < |s| ensures s[j] != 'm' {
      if j > 0 {
        assert s[j] == rest[j - 1];
      }
    }
    if MatchAt(s, 0).Some? {
      MatchHoldsM(s, 0);
      assert false;
    }
    ScanShift([ESC], rest, 0);
  }

  /** A plain character yields itself, uncoloured, and takes one column. */
  lemma {:induction false} ScanPlain(c: char, rest: string)
    requires c != ESC
    ensures Scan([c] + rest) == [Cell(Some(c), 0, 0, 0)] + Scan(rest)
  {
    var s := [c] + rest;
    assert !Holds(s, 0, RGB_OPEN) by {
      assert RGB_OPEN[0] == ESC;
    }
    ScanShift([c], rest, 0);
  }

  /** A run of `k` blank cells. */
  function Blanks(k: nat): (cells: seq<Cell>)
    ensures |cells| == k && forall j :: 0 <= j < k ==> cells[j] == BLANK
  {
    seq(k, _ => BLANK)
  }

  /** A row keeps its first `numCols` scanned cells, padded with blanks; later columns are dropped. */
  lemma {:induction false} ColumnsCut(row: string, numCols: nat)
    ensures RowCells(row, numCols) == (Scan(row) + Blanks(numCols))[..numCols]
  {
    var sc := Scan(row);
    var a := RowCells(row, numCols);
    var b := (sc + Blanks(numCols))[..numCols];
    assert |a| == |b|;
    forall c | 0 <= c < numCols ensures a[c] == b[c] {
      if c >= |sc| {
        assert (sc + Blanks(numCols))[c] == Blanks(numCols)[c - |sc|];
      }
    }
  }

  /** Rows past the last line of the frame are blank. */
  lemma {:induction false} RowsPastEnd(ansi: string, numCols: nat, numRows: nat, k: nat)
    requires |Split(ansi, '\n')| <= k < numRows
    ensures Frame(ansi, numCols, numRows)[k] == Blanks(numCols)
  {
    assert Scan("") == [];
  }

  // ---------------------------------------------------------------------
  // Encoding a grid and reading it back
  // ---------------------------------------------------------------------

  /** Every cell has a character, and none is a line break. */
  predicate Coloured(cells: seq<Cell>)
  {
    forall j :: 0 <= j < |cells| ==> cells[j].ch.Some? && cells[j].ch.value != '\n'
  }

  /** A row of coloured cells as a frame writes it. */
  function EncodeRow(cells: seq<Cell>): string
    requires Coloured(cells)
    decreases |cells|
  {
    if cells == [] then ""
    else
      assert Coloured(cells[1..]) by {
        forall j | 0 <= j < |cells[1..]| ensures cells[1..][j] == cells[j + 1] { }
      }
      var c := cells[0];
      ColouredText(c.ch.value, NatToString(c.r), NatToString(c.g), NatToString(c.b)) + EncodeRow(cells[1..])
  }

  /** Scanning an encoded row gives back its cells. */
  lemma {:induction false} ScanEncodeRow(cells: seq<Cell>)
    requires Coloured(cells)
    ensures Scan(EncodeRow(cells)) == cells
    decreases |cells|
  {
    if cells != [] {
      var c := cells[0];
      assert Coloured(cells[1..]) by {
        forall j | 0 <= j < |cells[1..]| ensures cells[1..][j] == cells[j + 1] { }
      }
      ScanColoured(c.ch.value, NatToString(c.r), NatToString(c.g), NatToString(c.b), EncodeRow(cells[1..]));
      DecimalOfNat(c.r);
      DecimalOfNat(c.g);
      DecimalOfNat(c.b);
      ScanEncodeRow(cells[1..]);
      assert cells == [Cell(Some(c.ch.value), c.r, c.g, c.b)] + cells[1..];
    }
  }

  // ---------------------------------------------------------------------
  // Thinning an animation
  // ---------------------------------------------------------------------

  /** The frame indices kept: all of them, or forty spread from the first to the last. */
  function SampleIndices(n: nat): (idx: seq<nat>)
    ensures |idx| == Min(n, MAX_FRAMES)
  {
    if n <= MAX_FRAMES then seq(n, i => i)
    else seq(MAX_FRAMES, i requires 0 <= i < MAX_FRAMES => i * (n - 1) / (MAX_FRAMES - 1))
  }

  lemma {:induction false} SampleBelow(n: nat, i: nat)
    requires n > MAX_FRAMES && i < MAX_FRAMES
    ensures i * (n - 1) / (MAX_FRAMES - 1) < n
  {
    MulLe(i, MAX_FRAMES - 1, n - 1);
    DivLe(i * (n - 1), (MAX_FRAMES - 1) * (n - 1), MAX_FRAMES - 1);
    MulDivCancel(n - 1, MAX_FRAMES - 1);
    assert (MAX_FRAMES - 1) * (n - 1) == (n - 1) * (MAX_FRAMES - 1);
  }

  /** `[frames[i] for i in indices]`, or every frame when there are at most forty. */
  function Subsample<T>(frames: seq<T>): (sampled: seq<T>)
    ensures |frames| <= MAX_FRAMES ==> sampled == frames
    ensures |sampled| == Min(|frames|, MAX_FRAMES)
  {
    if |frames| <= MAX_FRAMES then frames
    else
      var idx := SampleIndices(|frames|);
      seq(MAX_FRAMES, k requires 0 <= k < MAX_FRAMES =>
        SampleBelow(|frames|, k); frames[idx[k]])
  }

  /**
   * Past forty frames exactly forty indices are kept; they run from the first
   * frame to the last and strictly increase, so no frame is taken twice.
   */
  lemma {:induction false} SampleSpread(n: nat)
    requires n > MAX_FRAMES
    ensures |SampleIndices(n)| == MAX_FRAMES
    ensures SampleIndices(n)[0] == 0 && SampleIndices(n)[MAX_FRAMES - 1] == n - 1
    ensures forall i, j :: 0 <= i < j < MAX_FRAMES ==> SampleIndices(n)[i] < SampleIndices(n)[j]
    ensures forall i :: 0 <= i < MAX_FRAMES ==> SampleIndices(n)[i] < n
  {
    var idx := SampleIndices(n);
    assert idx[MAX_FRAMES - 1] == (MAX_FRAMES - 1) * (n - 1) / (MAX_FRAMES - 1);
    MulDivCancel(n - 1, MAX_FRAMES - 1);
    assert (MAX_FRAMES - 1) * (n - 1) == (n - 1) * (MAX_FRAMES - 1);
    forall i | 0 <= i < MAX_FRAMES - 1 ensures idx[i] < idx[i + 1] {
      assert (i + 1) * (n - 1) == i * (n - 1) + (n - 1);
      DivStep(i * (n - 1), n - 1, MAX_FRAMES - 1);
    }
    forall i, j | 0 <= i < j < MAX_FRAMES ensures idx[i] < idx[j] {
      Increasing(idx, i, j);
    }
    forall i | 0 <= i < MAX_FRAMES ensures idx[i] < n {
      SampleBelow(n, i);
    }
  }

  lemma {:induction false} Increasing(idx: seq<nat>, i: nat, j: nat)
    requires i < j < |idx|
    requires forall k :: 0 <= k < |idx| - 1 ==> idx[k] < idx[k + 1]
    ensures idx[i] < idx[j]
    decreases j - i
  {
    if i + 1 < j {
      Increasing(idx, i + 1, j);
    }
  }

  /** At most forty frames are all kept, in order. */
  lemma {:induction false} SampleAll(n: nat)
    requires n <= MAX_FRAMES
    ensures forall i :: 0 <= i < n ==> SampleIndices(n)[i] == i
  {
  }
}
