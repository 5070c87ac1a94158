/**
 * The organizer: it places files of the repository root into category
 * directories by the rules of `asset_rules.json`, and reports files in the
 * category directories that the rules would put elsewhere.
 */
module Organize {
  import opened Wrappers
  import opened PyStr
  import opened Dicts
  import opened RuleEngine
  import HakcAssets

  /** `asset_rules.json` as the organizer reads it; a missing key reads as the empty list or dict. */
  datatype Rules = Rules(ignore: seq<string>, rules: seq<Rule>, directories: Dict<string, seq<string>>)

  /** A directory listing entry: what the rules learn about it, and whether it is a regular file. */
  datatype Entry = Entry(facts: FileFacts, isFile: bool)

  /** One report of `check_misplaced`: the file, the directory it is in, the directory suggested. */
  datatype Misplaced = Misplaced(path: string, dir: string, suggested: string)

  /** One planned move, from a path to a path, both relative to the repository root. */
  datatype Move = Move(src: string, dst: string)

  /** `_load_rules`: the organizer cannot start without a rules file. */
  function LoadRules(file: Option<Rules>): (r: Result<Rules, string>)
    ensures r.Failure? <==> file.None?
    ensures r.Success? ==> r.value == file.value
  {
    match file
    case None => Failure("asset_rules.json not found")
    case Some(rules) => Success(rules)
  }

  /**
   * One ignore pattern: `*.ext` matches by name suffix only; any other
   * pattern matches the whole name or any prefix of the relative path.
   */
  predicate PatternIgnores(pattern: string, f: FileFacts)
  {
    if StartsWith(pattern, "*.") then EndsWith(f.name, pattern[1..])
    else f.name == pattern || StartsWith(f.relPath, pattern)
  }

  /** `_should_ignore`. */
  function ShouldIgnore(patterns: seq<string>, f: FileFacts): (r: bool)
    ensures r <==> exists i :: 0 <= i < |patterns| && PatternIgnores(patterns[i], f)
  {
    if patterns == [] then false
    else if PatternIgnores(patterns[0], f) then true
    else
      var r := ShouldIgnore(patterns[1..], f);
      assert forall i :: 1 <= i < |patterns| ==> patterns[i] == patterns[1..][i - 1];
      r
  }

  /** Whatever the sync engine's name-only check ignores, the organizer ignores too. */
  lemma IgnoresAtLeastSync(patterns: seq<string>, f: FileFacts)
    ensures HakcAssets.ShouldIgnore(patterns, f.name) ==> ShouldIgnore(patterns, f)
  {
    if HakcAssets.ShouldIgnore(patterns, f.name) {
      var i :| 0 <= i < |patterns| && HakcAssets.PatternIgnores(patterns[i], f.name);
      assert PatternIgnores(patterns[i], f);
    }
  }

  /**
   * And strictly more: a pattern naming a directory ignores every file under
   * it, so the empty pattern ignores every file, while the sync engine
   * ignores only files named exactly like a pattern.
   */
  lemma PrefixPatternIgnores(pattern: string, f: FileFacts)
    requires !StartsWith(pattern, "*.") && StartsWith(f.relPath, pattern)
    ensures ShouldIgnore([pattern], f)
    ensures f.name != "" ==> ShouldIgnore([""], f) && !HakcAssets.ShouldIgnore([""], f.name)
  {
    assert PatternIgnores(pattern, f);
    assert PatternIgnores("", f);
    if HakcAssets.ShouldIgnore([""], f.name) {
      assert HakcAssets.PatternIgnores([""][0], f.name);
    }
  }

  /** `get_destination`: nothing for an ignored file, else the destination of the first matching rule in priority order. */
  function GetDestination(rules: Rules, f: FileFacts): Option<string>
  {
    if ShouldIgnore(rules.ignore, f) then None else Destination(rules.rules, f)
  }

  /**
   * An ignored file has no destination whatever the rules say; otherwise the
   * destination is that of the first matching rule in priority order, and
   * there is none when no rule matches.
   */
  lemma GetDestinationMeaning(rules: Rules, f: FileFacts)
    ensures ShouldIgnore(rules.ignore, f) ==> GetDestination(rules, f) == None
    ensures !ShouldIgnore(rules.ignore, f) && (forall j :: 0 <= j < |rules.rules| ==> !MatchRule(f, rules.rules[j].cond))
      ==> GetDestination(rules, f) == None
    ensures !ShouldIgnore(rules.ignore, f) && (exists j :: 0 <= j < |rules.rules| && MatchRule(f, rules.rules[j].cond))
      ==> exists m: nat :: IsFirstMatch(rules.rules, f, m) && GetDestination(rules, f) == rules.rules[m].destination
  {
    DestinationIsFirstMatch(rules.rules, f);
  }

  /** Python truthiness of a destination: present and not the empty string. */
  predicate Truthy(d: Option<string>)
  {
    d.Some? && d.value != ""
  }

  // ---------------------------------------------------------------
  //  check_misplaced
  // ---------------------------------------------------------------

  /**
   * What `check_misplaced` says about one entry of directory `dir` whose
   * allowed extensions are `exts`: strict mode reports a suggestion that
   * differs from `dir`; normal mode reports a file whose extension the
   * directory does not allow, when there is a suggestion.
   */
  function Report(rules: Rules, dir: string, exts: seq<string>, e: Entry, strict: bool): Option<Misplaced>
  {
    if !e.isFile || ShouldIgnore(rules.ignore, e.facts) then None
    else
      var suggested := GetDestination(rules, e.facts);
      if strict then
        if Truthy(suggested) && suggested.value != dir then Some(Misplaced(e.facts.relPath, dir, suggested.value))
        else None
      else if exts != [] && Extension(e.facts.name) !in exts && Truthy(suggested) then
        Some(Misplaced(e.facts.relPath, dir, suggested.value))
      else None
  }

  /** The condition under which an entry is reported, in terms of the rule the priority scan stops at. */
  predicate Reportable(rules: Rules, dir: string, exts: seq<string>, e: Entry, strict: bool, m: nat, d: string)
  {
    && e.isFile && !ShouldIgnore(rules.ignore, e.facts)
    && IsFirstMatch(rules.rules, e.facts, m) && rules.rules[m].destination == Some(d) && d != ""
    && (strict ==> d != dir)
    && (!strict ==> exts != [] && Extension(e.facts.name) !in exts)
  }

  /**
   * An entry is reported exactly when it is a file that is not ignored and
   * whose first matching rule names a non-empty destination, other than its
   * directory in strict mode, and outside the directory's extensions in
   * normal mode; the report names that destination.
   */
  lemma ReportMeaning(rules: Rules, dir: string, exts: seq<string>, e: Entry, strict: bool)
    ensures forall p :: Report(rules, dir, exts, e, strict) == Some(p) ==>
      p.path == e.facts.relPath && p.dir == dir && exists m: nat :: Reportable(rules, dir, exts, e, strict, m, p.suggested)
    ensures forall m: nat, d :: Reportable(rules, dir, exts, e, strict, m, d) ==>
      Report(rules, dir, exts, e, strict) == Some(Misplaced(e.facts.relPath, dir, d))
  {
    GetDestinationMeaning(rules, e.facts);
    var r := GetDestination(rules, e.facts);
    forall m: nat, d | Reportable(rules, dir, exts, e, strict, m, d)
      ensures Report(rules, dir, exts, e, strict) == Some(Misplaced(e.facts.relPath, dir, d))
    {
      var m': nat :| IsFirstMatch(rules.rules, e.facts, m') && r == rules.rules[m'].destination;
      FirstMatchUnique(rules.rules, e.facts, m, m');
    }
    forall p | Report(rules, dir, exts, e, strict) == Some(p)
      ensures exists m: nat :: Reportable(rules, dir, exts, e, strict, m, p.suggested)
    {
      assert r == Some(p.suggested);
      var m': nat :| IsFirstMatch(rules.rules, e.facts, m') && r == rules.rules[m'].destination;
      assert Reportable(rules, dir, exts, e, strict, m', p.suggested);
    }
  }

  /** The reports for one directory's entries, in listing order. */
  function DirReports(rules: Rules, dir: string, exts: seq<string>, entries: seq<Entry>, strict: bool): seq<Misplaced>
  {
    if entries == [] then []
    else
      var init := DirReports(rules, dir, exts, entries[..|entries| - 1], strict);
      match Report(rules, dir, exts, entries[|entries| - 1], strict)
      case None => init
      case Some(p) => init + [p]
  }

  /** The present values of `f` over `xs`, in order. */
  function FilterMap<T, U>(f: T -> Option<U>, xs: seq<T>): seq<U>
  {
    if xs == [] then []
    else
      var init := FilterMap(f, xs[..|xs| - 1]);
      match f(xs[|xs| - 1])
      case None => init
      case Some(y) => init + [y]
  }

  /** The values kept are exactly the present values of `f` at the elements. */
  lemma {:induction false} FilterMapMembers<T, U>(f: T -> Option<U>, xs: seq<T>)
    ensures forall y :: y in FilterMap(f, xs) <==> exists i :: 0 <= i < |xs| && f(xs[i]) == Some(y)
  {
    if xs != [] {
      var n := |xs| - 1;
      var front := xs[..n];
      FilterMapMembers(f, front);
      forall y
        ensures y in FilterMap(f, xs) ==> exists i :: 0 <= i < |xs| && f(xs[i]) == Some(y)
      {
        if y in FilterMap(f, front) {
          var i :| 0 <= i < |front| && f(front[i]) == Some(y);
          assert front[i] == xs[i];
        } else if y in FilterMap(f, xs) {
          assert f(xs[n]) == Some(y);
        }
      }
      forall y, i | 0 <= i < |xs| && f(xs[i]) == Some(y)
        ensures y in FilterMap(f, xs)
      {
        if i < n {
          assert front[i] == xs[i];
        }
      }
    }
  }

  /** `DirReports` filters the listing through `Report`. */
  lemma {:induction false} DirReportsFilter(rules: Rules, dir: string, exts: seq<string>, entries: seq<Entry>, strict: bool)
    ensures DirReports(rules, dir, exts, entries, strict) == FilterMap(e => Report(rules, dir, exts, e, strict), entries)
  {
    if entries != [] {
      DirReportsFilter(rules, dir, exts, entries[..|entries| - 1], strict);
    }
  }

  /** A directory's reports are the reports of its entries, and nothing else. */
  lemma {:induction false} DirReportsMembers(rules: Rules, dir: string, exts: seq<string>, entries: seq<Entry>, strict: bool)
    ensures forall p :: p in DirReports(rules, dir, exts, entries, strict) <==>
      exists i :: 0 <= i < |entries| && Report(rules, dir, exts, entries[i], strict) == Some(p)
  {
    var f := e => Report(rules, dir, exts, e, strict);
    DirReportsFilter(rules, dir, exts, entries, strict);
    FilterMapMembers(f, entries);
  }

  /** The reports of every configured directory that exists, in the order of the `directories` dict. */
  function AllReports(rules: Rules, dirs: Dict<string, seq<string>>, listings: map<string, seq<Entry>>, strict: bool): seq<Misplaced>
  {
    if dirs == [] then []
    else
      var init := AllReports(rules, dirs[..|dirs| - 1], listings, strict);
      var (dir, exts) := dirs[|dirs| - 1];
      if dir in listings then init + DirReports(rules, dir, exts, listings[dir], strict) else init
  }

  /** Every report names a configured directory that exists. */
  lemma {:induction false} AllReportsDirs(rules: Rules, dirs: Dict<string, seq<string>>, listings: map<string, seq<Entry>>, strict: bool)
    ensures forall p :: p in AllReports(rules, dirs, listings, strict) ==> HasKey(dirs, p.dir) && p.dir in listings
  {
    if dirs != [] {
      var n := |dirs| - 1;
      AllReportsDirs(rules, dirs[..n], listings, strict);
      var (dir, exts) := dirs[n];
      if dir in listings {
        DirReportsMembers(rules, dir, exts, listings[dir], strict);
        forall p | p in DirReports(rules, dir, exts, listings[dir], strict)
          ensures p.dir == dir
        {
          var i :| 0 <= i < |listings[dir]| && Report(rules, dir, exts, listings[dir][i], strict) == Some(p);
        }
      }
      forall p | p in AllReports(rules, dirs[..n], listings, strict)
        ensures HasKey(dirs, p.dir)
      {
        var k :| 0 <= k < n && dirs[..n][k].0 == p.dir;
        assert dirs[k].0 == p.dir;
      }
    }
  }

  /** `check_misplaced`: the directories in order; `listings` holds the entries of each directory that exists. */
  method CheckMisplaced(rules: Rules, listings: map<string, seq<Entry>>, strict: bool) returns (misplaced: seq<Misplaced>)
    ensures misplaced == AllReports(rules, rules.directories, listings, strict)
  {
    var dirs := rules.directories;
    misplaced := [];
    var k := 0;
    while k < |dirs|
      invariant 0 <= k <= |dirs|
      invariant misplaced == AllReports(rules, dirs[..k], listings, strict)
    {
      assert dirs[..k + 1][..k] == dirs[..k];
      var (dir, exts) := dirs[k];
      if dir in listings {
        var found := CheckDir(rules, dir, exts, listings[dir], strict);
        misplaced := misplaced + found;
      }
      k := k + 1;
    }
    assert dirs[..k] == dirs;
  }

  /** The inner loop of `check_misplaced`, over one directory's entries. */
  method CheckDir(rules: Rules, dir: string, exts: seq<string>, entries: seq<Entry>, strict: bool) returns (found: seq<Misplaced>)
    ensures found == DirReports(rules, dir, exts, entries, strict)
  {
    found := [];
    var i := 0;
    while i < |entries|
      invariant 0 <= i <= |entries|
      invariant found == DirReports(rules, dir, exts, entries[..i], strict)
    {
      assert entries[..i + 1][..i] == entries[..i];
      var e := entries[i];
      if e.isFile && !ShouldIgnore(rules.ignore, e.facts) {
        var suggested := GetDestination(rules, e.facts);
        if strict {
          if Truthy(suggested) && suggested.value != dir {
            found := found + [Misplaced(e.facts.relPath, dir, suggested.value)];
          }
        } else if exts != [] && Extension(e.facts.name) !in exts {
          if Truthy(suggested) {
            found := found + [Misplaced(e.facts.relPath, dir, suggested.value)];
          }
        }
      }
      i := i + 1;
    }
    assert entries[..i] == entries;
  }

  // ---------------------------------------------------------------
  //  organize
  // ---------------------------------------------------------------

  /** `get_root_files`: the regular files of the root that are not ignored, in listing order. */
  function RootFiles(rules: Rules, root: seq<Entry>): (r: seq<FileFacts>)
    ensures |r| <= |root|
  {
    if root == [] then []
    else
      var init := RootFiles(rules, root[..|root| - 1]);
      var e := root[|root| - 1];
      if e.isFile && !ShouldIgnore(rules.ignore, e.facts) then init + [e.facts] else init
  }

  lemma {:induction false} RootFilesMembers(rules: Rules, root: seq<Entry>)
    ensures forall f :: f in RootFiles(rules, root) <==> Entry(f, true) in root && !ShouldIgnore(rules.ignore, f)
  {
    if root != [] {
      var n := |root| - 1;
      RootFilesMembers(rules, root[..n]);
      assert forall x :: x in root <==> x in root[..n] || x == root[n];
    }
  }

  /** The move planned for a file: into its destination directory, under its own name. */
  function MoveOf(f: FileFacts, dest: string): Move
  {
    Move(f.relPath, dest + "/" + f.name)
  }

  /** A file is moved when it has a destination and, when asking, the answer was yes. */
  predicate Moves(rules: Rules, f: FileFacts, interactive: bool, accepted: set<string>)
  {
    Truthy(GetDestination(rules, f)) && (!interactive || f.name in accepted)
  }

  /**
   * The pairs `organize` returns, in order. `accepted` holds the names whose
   * prompt was answered `y` (after stripping and lower-casing).
   */
  function Planned(rules: Rules, files: seq<FileFacts>, interactive: bool, accepted: set<string>): (r: seq<Move>)
    ensures |r| <= |files|
  {
    if files == [] then []
    else
      var init := Planned(rules, files[..|files| - 1], interactive, accepted);
      var f := files[|files| - 1];
      if Moves(rules, f, interactive, accepted) then init + [MoveOf(f, GetDestination(rules, f).value)] else init
  }

  /** The move planned for one root file, if any. */
  function PlanOf(rules: Rules, interactive: bool, accepted: set<string>, f: FileFacts): Option<Move>
  {
    if Moves(rules, f, interactive, accepted) then Some(MoveOf(f, GetDestination(rules, f).value)) else None
  }

  /** `Planned` filters the root files through `PlanOf`. */
  lemma {:induction false} PlannedFilter(rules: Rules, files: seq<FileFacts>, interactive: bool, accepted: set<string>)
    ensures Planned(rules, files, interactive, accepted) == FilterMap(f => PlanOf(rules, interactive, accepted, f), files)
  {
    if files != [] {
      PlannedFilter(rules, files[..|files| - 1], interactive, accepted);
    }
  }

  /** One more root file adds its move, if it has one. */
  lemma {:induction false} PlannedStep(rules: Rules, files: seq<FileFacts>, interactive: bool, accepted: set<string>, i: nat)
    requires i < |files|
    ensures Planned(rules, files[..i + 1], interactive, accepted)
      == Planned(rules, files[..i], interactive, accepted)
         + (if Moves(rules, files[i], interactive, accepted) then [MoveOf(files[i], GetDestination(rules, files[i]).value)] else [])
  {
    assert files[..i + 1][..i] == files[..i];
  }

  /** Each planned move takes a file that has a destination (and was accepted when asking) into that destination. */
  lemma {:induction false} PlannedSound(rules: Rules, files: seq<FileFacts>, interactive: bool, accepted: set<string>)
    ensures forall mv :: mv in Planned(rules, files, interactive, accepted) ==>
      exists i :: 0 <= i < |files| && Moves(rules, files[i], interactive, accepted)
                  && mv == MoveOf(files[i], GetDestination(rules, files[i]).value)
  {
    var g := f => PlanOf(rules, interactive, accepted, f);
    PlannedFilter(rules, files, interactive, accepted);
    FilterMapMembers(g, files);
    forall mv | mv in Planned(rules, files, interactive, accepted)
      ensures exists i :: 0 <= i < |files| && Moves(rules, files[i], interactive, accepted)
                          && mv == MoveOf(files[i], GetDestination(rules, files[i]).value)
    {
      var i :| 0 <= i < |files| && g(files[i]) == Some(mv);
      assert PlanOf(rules, interactive, accepted, files[i]) == Some(mv);
    }
  }

  /** Each root file that has a destination (and was accepted when asking) has its move planned. */
  lemma {:induction false} PlannedComplete(rules: Rules, files: seq<FileFacts>, interactive: bool, accepted: set<string>)
    ensures forall i :: 0 <= i < |files| && Moves(rules, files[i], interactive, accepted) ==>
      MoveOf(files[i], GetDestination(rules, files[i]).value) in Planned(rules, files, interactive, accepted)
  {
    var g := f => PlanOf(rules, interactive, accepted, f);
    PlannedFilter(rules, files, interactive, accepted);
    FilterMapMembers(g, files);
    forall i | 0 <= i < |files| && Moves(rules, files[i], interactive, accepted)
      ensures MoveOf(files[i], GetDestination(rules, files[i]).value) in Planned(rules, files, interactive, accepted)
    {
      assert g(files[i]) == Some(MoveOf(files[i], GetDestination(rules, files[i]).value));
    }
  }

  /** The files that exist after the moves are done in order: each source goes, its target appears. */
  function Moved(files: set<string>, moves: seq<Move>): set<string>
  {
    if moves == [] then files
    else
      var mv := moves[|moves| - 1];
      Moved(files, moves[..|moves| - 1]) - {mv.src} + {mv.dst}
  }

  lemma {:induction false} MovedSnoc(files: set<string>, moves: seq<Move>, mv: Move)
    ensures Moved(files, moves + [mv]) == Moved(files, moves) - {mv.src} + {mv.dst}
  {
    assert (moves + [mv])[..|moves|] == moves;
  }

  /** One pass of the loop of `organize` keeps the files as the moves so far leave them. */
  lemma {:induction false} OrganizeStep(files: set<string>, moves: seq<Move>, moved: seq<Move>,
                                        before: set<string>, after: set<string>, dryRun: bool)
    requires |moved| <= 1
    requires dryRun ==> before == files
    requires !dryRun ==> before == Moved(files, moves)
    requires after == if dryRun || moved == [] then before else before - {moved[0].src} + {moved[0].dst}
    ensures dryRun ==> after == files
    ensures !dryRun ==> after == Moved(files, moves + moved)
  {
    if moved == [] {
      assert moves + moved == moves;
    } else {
      assert moved == [moved[0]];
      MovedSnoc(files, moves, moved[0]);
    }
  }

  /** Each target of a move exists afterwards unless a later move takes it away again. */
  lemma {:induction false} MovedTargets(files: set<string>, moves: seq<Move>)
    ensures forall k :: 0 <= k < |moves| && (forall l :: k < l < |moves| ==> moves[l].src != moves[k].dst) ==>
      moves[k].dst in Moved(files, moves)
  {
    if moves != [] {
      var n := |moves| - 1;
      var init := moves[..n];
      MovedTargets(files, init);
      forall k | 0 <= k < n && (forall l :: k < l < |moves| ==> moves[l].src != moves[k].dst)
        ensures moves[k].dst in Moved(files, moves)
      {
        assert init[k] == moves[k];
        forall l | k < l < n
          ensures init[l].src != init[k].dst
        {
          assert init[l] == moves[l];
        }
        assert moves[k].dst in Moved(files, init);
        assert moves[n].src != moves[k].dst;
      }
    }
  }

  /** The paths of the repository, which `organize` changes when it is not a dry run. */
  class Tree {
    var files: set<string>

    constructor(files: set<string>)
      ensures this.files == files
    {
      this.files := files;
    }
  }

  /** `get_root_files`, as the loop the organizer runs. */
  method GetRootFiles(rules: Rules, root: seq<Entry>) returns (files: seq<FileFacts>)
    ensures files == RootFiles(rules, root)
  {
    files := [];
    var i := 0;
    while i < |root|
      invariant 0 <= i <= |root|
      invariant files == RootFiles(rules, root[..i])
    {
      assert root[..i + 1][..i] == root[..i];
      if root[i].isFile && !ShouldIgnore(rules.ignore, root[i].facts) {
        files := files + [root[i].facts];
      }
      i := i + 1;
    }
    assert root[..i] == root;
  }

  /** One pass of the loop of `organize`: the move for one file, if any, done unless this is a dry run. */
  method OrganizeFile(rules: Rules, f: FileFacts, dryRun: bool, interactive: bool, accepted: set<string>, tree: Tree)
    returns (moved: seq<Move>)
    modifies tree
    ensures moved == if Moves(rules, f, interactive, accepted) then [MoveOf(f, GetDestination(rules, f).value)] else []
    ensures tree.files == if dryRun || moved == [] then old(tree.files) else old(tree.files) - {moved[0].src} + {moved[0].dst}
  {
    moved := [];
    var dest := GetDestination(rules, f);
    if Truthy(dest) {
      if interactive && f.name !in accepted {
        return;
      }
      var mv := MoveOf(f, dest.value);
      if !dryRun {
        tree.files := tree.files - {mv.src} + {mv.dst};
      }
      moved := [mv];
    }
  }

  /**
   * `organize`: the root files with a destination (and, when asking, a yes)
   * are moved into it, in order; a dry run plans the same moves and moves
   * nothing.
   */
  method Organize(rules: Rules, root: seq<Entry>, dryRun: bool, interactive: bool, accepted: set<string>, tree: Tree)
    returns (moves: seq<Move>)
    modifies tree
    ensures moves == Planned(rules, RootFiles(rules, root), interactive, accepted)
    ensures dryRun ==> tree.files == old(tree.files)
    ensures !dryRun ==> tree.files == Moved(old(tree.files), moves)
  {
    var files := GetRootFiles(rules, root);
    moves := [];
    var i := 0;
    while i < |files|
      invariant 0 <= i <= |files|
      invariant moves == Planned(rules, files[..i], interactive, accepted)
      invariant dryRun ==> tree.files == old(tree.files)
      invariant !dryRun ==> tree.files == Moved(old(tree.files), moves)
    {
      ghost var before := tree.files;
      var moved := OrganizeFile(rules, files[i], dryRun, interactive, accepted, tree);
      assert moves + moved == Planned(rules, files[..i + 1], interactive, accepted) by {
        PlannedStep(rules, files, interactive, accepted, i);
      }
      OrganizeStep(old(tree.files), moves, moved, before, tree.files, dryRun);
      moves := moves + moved;
      i := i + 1;
    }
    assert files[..i] == files;
  }
}
