/**
 * The placement rules of `asset_rules.json`, shared by the sync engine and
 * the organizer: the per-rule match predicate, and the choice of the first
 * matching rule after a stable sort by priority (missing priority = 99).
 */
module RuleEngine {
  import opened Wrappers
  import opened PyStr
  import opened PyPath

  /** The box-drawing and block characters that mark a text as ASCII art. */
  const ART_CHARS: string := "█▓▒░╔╗╚╝║═│─┌┐└┘├┤┬┴┼╭╮╯╰▀▄▌▐■□▪▫●○◆◇★☆"
  /** The start of an ANSI escape sequence. */
  const ANSI_ESCAPE: string := "\U{1B}["

  /**
   * What the rules can learn about a file: its name, its path relative to the
   * repository root, the pixel size the image tool reports ((0, 0) when the tool
   * fails) and its text when it can be read.
   */
  datatype FileFacts = FileFacts(name: string, relPath: string, width: nat, height: nat, text: Option<string>)

  /** A rule's `match` object; each field is absent when its key is. `contentContains` is the presence of that key. */
  datatype MatchSpec = MatchSpec(
    extensions: Option<seq<string>>,
    aspectRatio: Option<string>,
    maxDimension: Option<int>,
    nameContains: Option<seq<string>>,
    contentContains: bool)

  datatype Rule = Rule(priority: Option<int>, cond: MatchSpec, destination: Option<string>)

  /** Text that holds an ANSI escape or one of the art characters. */
  predicate HasArt(text: string)
  {
    Contains(text, ANSI_ESCAPE) || exists i :: 0 <= i < |text| && text[i] in ART_CHARS
  }

  /** `suffix.lower()`. */
  function Extension(name: string): string
  {
    Lower(Suffix(name))
  }

  /** `_is_square`: both sides known and the ratio width/height within [0.9, 1.1], in integers. */
  predicate IsSquare(f: FileFacts)
  {
    f.width != 0 && f.height != 0 && 9 * f.height <= 10 * f.width <= 11 * f.height
  }

  /** `_get_max_dimension`. */
  function MaxDimension(f: FileFacts): nat
  {
    if f.width >= f.height then f.width else f.height
  }

  /** `_contains_ascii_art`: false when the file cannot be read. */
  predicate ContainsAsciiArt(f: FileFacts)
  {
    f.text.Some? && HasArt(f.text.value)
  }

  /** `_name_contains`: some pattern, lower-cased, occurs in the lower-cased stem. */
  predicate NameContains(f: FileFacts, patterns: seq<string>)
  {
    exists i :: 0 <= i < |patterns| && Contains(Lower(Stem(f.name)), Lower(patterns[i]))
  }

  /** `_match_rule`: every condition the rule states holds of the file. */
  predicate MatchRule(f: FileFacts, m: MatchSpec)
  {
    (m.extensions.None? || Extension(f.name) in m.extensions.value)
    && (m.aspectRatio != Some("square") || IsSquare(f))
    && (m.maxDimension.None? || MaxDimension(f) <= m.maxDimension.value)
    && (m.nameContains.None? || NameContains(f, m.nameContains.value))
    && (!m.contentContains || ContainsAsciiArt(f))
  }

  /** A rule with an empty `match` object accepts every file. */
  lemma EmptyMatchAcceptsAll(f: FileFacts)
    ensures MatchRule(f, MatchSpec(None, None, None, None, false))
  {
  }

  /** A square rule never accepts a file whose size the image tool could not report. */
  lemma SquareNeedsSize(f: FileFacts, m: MatchSpec)
    requires m.aspectRatio == Some("square") && (f.width == 0 || f.height == 0)
    ensures !MatchRule(f, m)
  {
  }

  function Key(r: Rule): int
  {
    r.priority.GetOr(99)
  }

  /** The order of a stable sort by priority: lower key first, file order among equal keys. */
  predicate Before(rules: seq<Rule>, i: nat, j: nat)
    requires i < |rules| && j < |rules|
  {
    Key(rules[i]) < Key(rules[j]) || (Key(rules[i]) == Key(rules[j]) && i < j)
  }

  predicate SortedBy(rules: seq<Rule>, o: seq<nat>)
  {
    (forall p :: 0 <= p < |o| ==> o[p] < |rules|)
    && forall p, q :: 0 <= p < q < |o| ==> Before(rules, o[p], o[q])
  }

  /** Inserts rule `i` before the first rule of `l` whose key is not smaller. */
  function InsertByKey(rules: seq<Rule>, i: nat, l: seq<nat>): (r: seq<nat>)
    requires i < |rules|
    requires forall p :: 0 <= p < |l| ==> l[p] < |rules|
    ensures |r| == |l| + 1
    ensures forall x :: x in r <==> x == i || x in l
  {
    if l == [] then [i]
    else if Key(rules[i]) <= Key(rules[l[0]]) then [i] + l
    else
      var rest := InsertByKey(rules, i, l[1..]);
      assert forall x :: x in l <==> x == l[0] || x in l[1..];
      [l[0]] + rest
  }

  lemma {:induction false} InsertSorted(rules: seq<Rule>, i: nat, l: seq<nat>)
    requires i < |rules| && SortedBy(rules, l)
    requires forall p :: 0 <= p < |l| ==> i < l[p]
    ensures SortedBy(rules, InsertByKey(rules, i, l))
  {
    if l == [] {
    } else if Key(rules[i]) <= Key(rules[l[0]]) {
      forall q | 0 <= q < |l| ensures Before(rules, i, l[q]) {
        if q > 0 {
          assert Before(rules, l[0], l[q]);
        }
      }
      ConsSorted(rules, i, l);
    } else {
      var rest := InsertByKey(rules, i, l[1..]);
      assert SortedBy(rules, l[1..]) by {
        forall p, q | 0 <= p < q < |l[1..]| ensures Before(rules, l[1..][p], l[1..][q]) {
          assert l[1..][p] == l[p + 1] && l[1..][q] == l[q + 1];
        }
      }
      InsertSorted(rules, i, l[1..]);
      forall q | 0 <= q < |rest| ensures Before(rules, l[0], rest[q]) {
        assert rest[q] in rest;
        if rest[q] != i {
          assert rest[q] in l[1..];
          var p :| 0 <= p < |l[1..]| && l[1..][p] == rest[q];
          assert l[p + 1] == rest[q];
        }
      }
      ConsSorted(rules, l[0], rest);
    }
  }

  /** A rule placed before a sorted order whose every rule it precedes keeps it sorted. */
  lemma {:induction false} ConsSorted(rules: seq<Rule>, x: nat, l: seq<nat>)
    requires x < |rules| && SortedBy(rules, l)
    requires forall q :: 0 <= q < |l| ==> Before(rules, x, l[q])
    ensures SortedBy(rules, [x] + l)
  {
    var r := [x] + l;
    forall p, q | 0 <= p < q < |r| ensures Before(rules, r[p], r[q]) {
      assert r[q] == l[q - 1];
      if p > 0 {
        assert r[p] == l[p - 1];
      }
    }
  }

  /** The rules from index `start` on, in the order `sorted(..., key=priority)` visits them. */
  function PriorityOrder(rules: seq<Rule>, start: nat): (o: seq<nat>)
    requires start <= |rules|
    ensures |o| == |rules| - start
    ensures forall x :: x in o <==> start <= x < |rules|
    ensures SortedBy(rules, o)
    decreases |rules| - start
  {
    if start == |rules| then []
    else
      var rest := PriorityOrder(rules, start + 1);
      forall p | 0 <= p < |rest| ensures start < rest[p] < |rules| {
        assert rest[p] in rest;
      }
      InsertSorted(rules, start, rest);
      InsertByKey(rules, start, rest)
  }

  /** The first index in `o` whose rule matches. */
  function FirstIn(o: seq<nat>, ms: seq<bool>): (r: Option<nat>)
    ensures r.Some? ==> r.value in o && r.value < |ms| && ms[r.value]
    ensures r.Some? ==> exists p :: 0 <= p < |o| && o[p] == r.value && forall q :: 0 <= q < p ==> !(o[q] < |ms| && ms[o[q]])
    ensures r.None? ==> forall q :: 0 <= q < |o| ==> !(o[q] < |ms| && ms[o[q]])
  {
    if o == [] then None
    else if o[0] < |ms| && ms[o[0]] then Some(o[0])
    else
      var r := FirstIn(o[1..], ms);
      if r.Some? then
        var p :| 0 <= p < |o[1..]| && o[1..][p] == r.value && forall q :: 0 <= q < p ==> !(o[1..][q] < |ms| && ms[o[1..][q]]);
        assert o[p + 1] == r.value;
        assert forall q :: 1 <= q < p + 1 ==> o[q] == o[1..][q - 1];
        r
      else
        assert forall q :: 1 <= q < |o| ==> o[q] == o[1..][q - 1];
        r
  }

  /**
   * The rule the sorted scan stops at: it matches, and every other matching
   * rule has a larger priority key, or the same key and a later position.
   * Without a matching rule there is none.
   */
  function FirstMatch(rules: seq<Rule>, ms: seq<bool>): (r: Option<nat>)
    requires |ms| == |rules|
    ensures r.Some? ==> r.value < |rules| && ms[r.value]
    ensures r.Some? ==> forall j :: 0 <= j < |rules| && ms[j] && j != r.value ==> Before(rules, r.value, j)
    ensures r.None? <==> forall j :: 0 <= j < |rules| ==> !ms[j]
  {
    var o := PriorityOrder(rules, 0);
    FirstInSorted(rules, ms, o);
    FirstIn(o, ms)
  }

  /** Over an order holding every rule once, sorted by priority, the first match beats every other match. */
  lemma {:induction false} FirstInSorted(rules: seq<Rule>, ms: seq<bool>, o: seq<nat>)
    requires |ms| == |rules| && SortedBy(rules, o)
    requires forall x :: x in o <==> 0 <= x < |rules|
    ensures var r := FirstIn(o, ms);
      && (r.Some? ==> r.value < |rules| && ms[r.value])
      && (r.Some? ==> forall j :: 0 <= j < |rules| && ms[j] && j != r.value ==> Before(rules, r.value, j))
      && (r.None? <==> forall j :: 0 <= j < |rules| ==> !ms[j])
  {
    var r := FirstIn(o, ms);
    if r.Some? {
      var p :| 0 <= p < |o| && o[p] == r.value && forall q :: 0 <= q < p ==> !(o[q] < |ms| && ms[o[q]]);
      forall j | 0 <= j < |rules| && ms[j] && j != r.value ensures Before(rules, r.value, j) {
        assert j in o;
        var q :| 0 <= q < |o| && o[q] == j;
        assert q != p;
        assert !(q < p);
      }
    } else {
      forall j | 0 <= j < |rules| ensures !ms[j] {
        assert j in o;
        var q :| 0 <= q < |o| && o[q] == j;
      }
    }
  }

  /** Whether each rule matches the file. */
  function Matches(rules: seq<Rule>, f: FileFacts): (ms: seq<bool>)
    ensures |ms| == |rules|
    ensures forall i :: 0 <= i < |rules| ==> ms[i] == MatchRule(f, rules[i].cond)
  {
    seq(|rules|, i requires 0 <= i < |rules| => MatchRule(f, rules[i].cond))
  }

  /** The `destination` of the first matching rule in priority order (which may itself be missing). */
  function Destination(rules: seq<Rule>, f: FileFacts): Option<string>
  {
    match FirstMatch(rules, Matches(rules, f))
    case None => None
    case Some(m) => rules[m].destination
  }

  /** `FirstMatch` picks the matching rule that is least in priority order. */
  predicate IsFirstMatch(rules: seq<Rule>, f: FileFacts, m: nat)
  {
    m < |rules| && MatchRule(f, rules[m].cond)
    && forall j :: 0 <= j < |rules| && j != m && MatchRule(f, rules[j].cond) ==> Before(rules, m, j)
  }

  lemma DestinationIsFirstMatch(rules: seq<Rule>, f: FileFacts)
    ensures (forall j :: 0 <= j < |rules| ==> !MatchRule(f, rules[j].cond)) ==> Destination(rules, f) == None
    ensures (exists j :: 0 <= j < |rules| && MatchRule(f, rules[j].cond)) ==>
      exists m: nat :: IsFirstMatch(rules, f, m) && Destination(rules, f) == rules[m].destination
  {
    var ms := Matches(rules, f);
    var r := FirstMatch(rules, ms);
    if r.Some? {
      assert IsFirstMatch(rules, f, r.value);
    }
  }

  /** At most one rule is first: the choice does not depend on how ties could be broken. */
  lemma FirstMatchUnique(rules: seq<Rule>, f: FileFacts, m: nat, m': nat)
    requires IsFirstMatch(rules, f, m) && IsFirstMatch(rules, f, m')
    ensures m == m'
  {
  }
}
