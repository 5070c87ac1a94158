/**
 * The handful of Python `str` operations the scripts rely on, with the
 * semantics of CPython written out: repetition by a possibly negative count,
 * `strip`, `center`, `ljust`, `in`, `count`, `split`, `join`, `replace`
 * and `str(n)` for natural numbers.
 */
module PyStr {

  /** `c * n`: empty when `n <= 0`. */
  function Rep(c: char, n: int): (r: string)
    ensures |r| == if n <= 0 then 0 else n
    ensures forall i :: 0 <= i < |r| ==> r[i] == c
  {
    if n <= 0 then "" else seq(n, _ => c)
  }

  function Spaces(n: int): (r: string)
    ensures |r| == if n <= 0 then 0 else n
    ensures forall i :: 0 <= i < |r| ==> r[i] == ' '
  {
    Rep(' ', n)
  }

  function Max(a: int, b: int): int { if a >= b then a else b }
  function Min(a: int, b: int): int { if a <= b then a else b }

  /** `str.isspace` for one character: the Unicode whitespace characters. */
  predicate IsSpace(c: char)
  {
    var k := c as int;
    (0x09 <= k <= 0x0D) || (0x1C <= k <= 0x20) || k == 0x85 || k == 0xA0 || k == 0x1680
    || (0x2000 <= k <= 0x200A) || k == 0x2028 || k == 0x2029 || k == 0x202F || k == 0x205F || k == 0x3000
  }

  /** `str.lstrip()`: drops the leading whitespace and nothing else. */
  function LStrip(s: string): (r: string)
    ensures |r| <= |s| && r == s[|s| - |r|..]
    ensures r == "" || !IsSpace(r[0])
    ensures forall i :: 0 <= i < |s| - |r| ==> IsSpace(s[i])
  {
    if |s| > 0 && IsSpace(s[0]) then LStrip(s[1..]) else s
  }

  /** `str.rstrip()`: drops the trailing whitespace and nothing else. */
  function RStrip(s: string): (r: string)
    ensures |r| <= |s| && r == s[..|r|]
    ensures r == "" || !IsSpace(r[|r| - 1])
    ensures forall i :: |r| <= i < |s| ==> IsSpace(s[i])
  {
    if |s| > 0 && IsSpace(s[|s| - 1]) then RStrip(s[..|s| - 1]) else s
  }

  /** `str.strip()`. */
  function Strip(s: string): string
  {
    RStrip(LStrip(s))
  }

  function LowerChar(c: char): char
  {
    if 'A' <= c <= 'Z' then (c as int + 32) as char else c
  }

  function UpperChar(c: char): char
  {
    if 'a' <= c <= 'z' then (c as int - 32) as char else c
  }

  /** `str.lower()` restricted to the ASCII letters. */
  function Lower(s: string): (r: string)
    ensures |r| == |s|
    ensures forall i :: 0 <= i < |s| ==> r[i] == LowerChar(s[i])
  {
    seq(|s|, i requires 0 <= i < |s| => LowerChar(s[i]))
  }

  /** `str.upper()` restricted to the ASCII letters. */
  function Upper(s: string): (r: string)
    ensures |r| == |s|
    ensures forall i :: 0 <= i < |s| ==> r[i] == UpperChar(s[i])
  {
    seq(|s|, i requires 0 <= i < |s| => UpperChar(s[i]))
  }

  predicate StartsWith(s: string, p: string)
  {
    |p| <= |s| && s[..|p|] == p
  }

  /** A text starts with whatever it was extended from. */
  lemma {:induction false} StartsWithJoin(a: string, x: string)
    ensures StartsWith(a + x, a)
  {
    assert (a + x)[..|a|] == a;
  }

  /** Starting with a text that starts with `u` is starting with `u`. */
  lemma {:induction false} StartsWithTrans(s: string, t: string, u: string)
    requires StartsWith(s, t) && StartsWith(t, u)
    ensures StartsWith(s, u)
  {
    assert s[..|u|] == s[..|t|][..|u|];
  }

  predicate EndsWith(s: string, p: string)
  {
    |p| <= |s| && s[|s| - |p|..] == p
  }

  /** `sub in s`. */
  predicate Contains(s: string, sub: string)
    decreases |s|
  {
    StartsWith(s, sub) || (|s| > 0 && Contains(s[1..], sub))
  }

  /** `s.count(c)` for a single character. */
  function Count(s: string, c: char): nat
  {
    multiset(s)[c]
  }

  /** `str.center(width, fill)`: CPython puts the odd extra fill character on the left exactly when both the margin and the width are odd. */
  function Center(s: string, width: int, fill: char): (r: string)
    ensures |r| == Max(|s|, width)
    ensures width <= |s| ==> r == s
    ensures width > |s| ==> exists left: nat ::
      left <= width - |s| && r == Rep(fill, left) + s + Rep(fill, width - |s| - left)
      && -1 <= 2 * left - (width - |s|) <= 1
      && (2 * left > width - |s| <==> (width - |s|) % 2 == 1 && width % 2 == 1)
  {
    if width <= |s| then s
    else
      var marg := width - |s|;
      var left := marg / 2 + (if marg % 2 == 1 && width % 2 == 1 then 1 else 0);
      Rep(fill, left) + s + Rep(fill, marg - left)
  }

  /** `str.ljust(width)`. */
  function LJust(s: string, width: int): (r: string)
    ensures |r| == Max(|s|, width)
    ensures r[..|s|] == s
    ensures forall i :: |s| <= i < |r| ==> r[i] == ' '
  {
    s + Spaces(width - |s|)
  }

  /** `sep.join(parts)`. */
  function Join(parts: seq<string>, sep: string): string
  {
    if |parts| == 0 then ""
    else if |parts| == 1 then parts[0]
    else parts[0] + sep + Join(parts[1..], sep)
  }

  /** `"\n".join(lines)`. */
  function JoinLines(lines: seq<string>): string
  {
    Join(lines, "\n")
  }

  /** `s.split(d)` for a one-character separator. */
  function Split(s: string, d: char): (r: seq<string>)
    ensures |r| >= 1
    ensures forall k :: 0 <= k < |r| ==> d !in r[k]
  {
    if s == "" then [""]
    else if s[0] == d then [""] + Split(s[1..], d)
    else
      var rest := Split(s[1..], d);
      [[s[0]] + rest[0]] + rest[1..]
  }

  lemma {:induction false} JoinSplit(s: string, d: char)
    ensures Join(Split(s, d), [d]) == s
  {
    if s == "" {
    } else if s[0] == d {
      JoinSplit(s[1..], d);
    } else {
      JoinSplit(s[1..], d);
      var rest := Split(s[1..], d);
      if |rest| > 1 {
        assert Join(Split(s, d), [d]) == [s[0]] + rest[0] + [d] + Join(rest[1..], [d]);
      }
    }
  }

  lemma {:induction false} SplitJoin(parts: seq<string>, d: char)
    requires |parts| >= 1
    requires forall k :: 0 <= k < |parts| ==> d !in parts[k]
    ensures Split(Join(parts, [d]), d) == parts
  {
    if |parts| == 1 {
      SplitNoSeparator(parts[0], d);
    } else {
      SplitJoin(parts[1..], d);
      SplitPrefix(parts[0], Join(parts[1..], [d]), d);
    }
  }

  lemma {:induction false} SplitNoSeparator(s: string, d: char)
    requires d !in s
    ensures Split(s, d) == [s]
  {
    if s != "" {
      SplitNoSeparator(s[1..], d);
      assert [s[0]] + s[1..] == s;
    }
  }

  lemma {:induction false} SplitPrefix(a: string, b: string, d: char)
    requires d !in a
    ensures Split(a + [d] + b, d) == [a] + Split(b, d)
  {
    if a == "" {
      assert a + [d] + b == [d] + b;
      assert ([d] + b)[1..] == b;
    } else {
      var s := a + [d] + b;
      assert s[0] == a[0] && s[1..] == a[1..] + [d] + b;
      SplitPrefix(a[1..], b, d);
      assert [a[0]] + a[1..] == a;
    }
  }

  function DigitChar(d: nat): char
    requires d < 10
  {
    ('0' as int + d) as char
  }

  predicate IsDigit(c: char) { '0' <= c <= '9' }

  /** `str(n)` for a natural number: decimal digits without leading zeros. */
  function NatToString(n: nat): (r: string)
    ensures |r| >= 1
    ensures forall i :: 0 <= i < |r| ==> IsDigit(r[i])
    ensures (n < 10) == (|r| == 1)
    decreases n
  {
    if n < 10 then [DigitChar(n)] else NatToString(n / 10) + [DigitChar(n % 10)]
  }

  lemma {:induction false} NatToStringInjective(m: nat, n: nat)
    requires NatToString(m) == NatToString(n)
    ensures m == n
    decreases m
  {
    if m >= 10 && n >= 10 {
      var a, b := NatToString(m), NatToString(n);
      assert a[|a| - 1] == b[|b| - 1];
      assert a[..|a| - 1] == NatToString(m / 10);
      assert b[..|b| - 1] == NatToString(n / 10);
      NatToStringInjective(m / 10, n / 10);
    }
  }

  /** `s.replace(p, r)`: every non-overlapping occurrence of `p`, leftmost first. */
  function ReplaceAll(s: string, p: string, r: string): string
    requires |p| > 0
    decreases |s|
  {
    if |s| < |p| then s
    else if s[..|p|] == p then r + ReplaceAll(s[|p|..], p, r)
    else [s[0]] + ReplaceAll(s[1..], p, r)
  }

  /** Replacing on `a + "\n" + b` is replacing on each side, when the pattern has no line break. */
  lemma {:induction false} ReplaceAcrossNewline(a: string, b: string, p: string, r: string)
    requires |p| > 0 && '\n' !in p
    ensures ReplaceAll(a + "\n" + b, p, r) == ReplaceAll(a, p, r) + "\n" + ReplaceAll(b, p, r)
    decreases |a|
  {
    var s := a + "\n" + b;
    if |a| < |p| {
      ReplaceShort(a, p, r);
      ReplaceShortPrefix(a, b, p, r);
    } else {
      assert s[..|p|] == a[..|p|];
      var rb := ReplaceAll(b, p, r);
      if a[..|p|] == p {
        var rest := a[|p|..];
        assert s[|p|..] == rest + "\n" + b;
        assert ReplaceAll(s, p, r) == r + ReplaceAll(rest + "\n" + b, p, r);
        ReplaceAcrossNewline(rest, b, p, r);
        Join3(r, ReplaceAll(rest, p, r), "\n", rb);
      } else {
        var rest := a[1..];
        assert s[1..] == rest + "\n" + b;
        assert ReplaceAll(s, p, r) == [a[0]] + ReplaceAll(rest + "\n" + b, p, r);
        ReplaceAcrossNewline(rest, b, p, r);
        Join3([a[0]], ReplaceAll(rest, p, r), "\n", rb);
      }
    }
  }

  /** A text shorter than the pattern before a line break is kept as it is. */
  lemma {:induction false} ReplaceShortPrefix(a: string, b: string, p: string, r: string)
    requires |p| > 0 && '\n' !in p && |a| < |p|
    ensures ReplaceAll(a + "\n" + b, p, r) == a + "\n" + ReplaceAll(b, p, r)
    decreases |a|
  {
    var s := a + "\n" + b;
    if |s| < |p| {
      ReplaceShort(b, p, r);
    } else {
      assert s[..|p|][|a|] == '\n';
      assert s[..|p|] != p;
      assert ReplaceAll(s, p, r) == [s[0]] + ReplaceAll(s[1..], p, r);
      if a == "" {
        assert s[1..] == b;
      } else {
        var rest := a[1..];
        assert s[1..] == rest + "\n" + b;
        ReplaceShortPrefix(rest, b, p, r);
        Join3([a[0]], rest, "\n", ReplaceAll(b, p, r));
        assert [a[0]] + rest == a;
      }
    }
  }

  lemma {:induction false} ReplaceShort(s: string, p: string, r: string)
    requires 0 < |p| && |s| < |p|
    ensures ReplaceAll(s, p, r) == s
  {
  }

  /** `ReplaceAll` applied to every line. */
  function ReplaceEach(lines: seq<string>, p: string, r: string): (out: seq<string>)
    requires |p| > 0
    ensures |out| == |lines|
    ensures forall k :: 0 <= k < |lines| ==> out[k] == ReplaceAll(lines[k], p, r)
  {
    seq(|lines|, k requires 0 <= k < |lines| => ReplaceAll(lines[k], p, r))
  }

  /** `"\n".join(lines).replace(p, r)` is the join of the lines replaced one by one. */
  lemma {:induction false} ReplaceJoinedLines(lines: seq<string>, p: string, r: string)
    requires |p| > 0 && '\n' !in p
    ensures ReplaceAll(JoinLines(lines), p, r) == JoinLines(ReplaceEach(lines, p, r))
  {
    if |lines| == 0 {
    } else if |lines| == 1 {
    } else {
      ReplaceAcrossNewline(lines[0], JoinLines(lines[1..]), p, r);
      ReplaceJoinedLines(lines[1..], p, r);
      assert ReplaceEach(lines, p, r)[1..] == ReplaceEach(lines[1..], p, r);
    }
  }

  /** A string without the pattern is left alone. */
  lemma {:induction false} ReplaceAbsent(s: string, p: string, r: string)
    requires |p| > 0 && !Contains(s, p)
    ensures ReplaceAll(s, p, r) == s
    decreases |s|
  {
    if |s| >= |p| {
      ReplaceAbsent(s[1..], p, r);
      assert [s[0]] + s[1..] == s;
    }
  }

  /** A string lacking some character of the pattern does not contain it. */
  lemma {:induction false} MissingCharNotContained(s: string, p: string, c: char)
    requires c in p && c !in s
    ensures !Contains(s, p)
    decreases |s|
  {
    if |s| > 0 {
      MissingCharNotContained(s[1..], p, c);
    }
  }

  /** The first occurrence is replaced when the text before it cannot start one. */
  lemma {:induction false} ReplaceFirst(a: string, b: string, p: string, r: string)
    requires |p| > 0 && p[0] !in a
    ensures ReplaceAll(a + p + b, p, r) == a + r + ReplaceAll(b, p, r)
    decreases |a|
  {
    var s := a + p + b;
    if a == "" {
      assert s == p + b;
      assert s[..|p|] == p && s[|p|..] == b;
    } else {
      var rest := a[1..];
      var rb := ReplaceAll(b, p, r);
      assert s[..|p|] != p by { assert s[..|p|][0] == a[0]; }
      assert s[1..] == rest + p + b;
      assert ReplaceAll(s, p, r) == [a[0]] + ReplaceAll(rest + p + b, p, r);
      ReplaceFirst(rest, b, p, r);
      Join3([a[0]], rest, r, rb);
      assert [a[0]] + rest == a;
    }
  }

  /** An occurrence at a known position is an occurrence. */
  lemma {:induction false} ContainsAt(s: string, sub: string, j: nat)
    requires j + |sub| <= |s| && s[j..j + |sub|] == sub
    ensures Contains(s, sub)
    decreases j
  {
    if j > 0 {
      assert s[1..][j - 1..j - 1 + |sub|] == s[j..j + |sub|];
      ContainsAt(s[1..], sub, j - 1);
    }
  }

  /** `sub` occurs in `s` starting at position `j`. */
  predicate OccursAt(s: string, sub: string, j: nat)
  {
    j + |sub| <= |s| && s[j..j + |sub|] == sub
  }

  /** No position holds an occurrence, so there is none. */
  lemma {:induction false} NoOccurrence(s: string, sub: string)
    requires forall j: nat :: !OccursAt(s, sub, j)
    ensures !Contains(s, sub)
    decreases |s|
  {
    assert !OccursAt(s, sub, 0);
    if |s| > 0 {
      forall j: nat ensures !OccursAt(s[1..], sub, j) {
        assert !OccursAt(s, sub, j + 1);
        if j + |sub| <= |s[1..]| {
          assert s[1..][j..j + |sub|] == s[j + 1..j + 1 + |sub|];
        }
      }
      NoOccurrence(s[1..], sub);
    }
  }

  /** Every occurrence has a position. */
  lemma {:induction false} ContainsWitness(s: string, sub: string) returns (j: nat)
    requires Contains(s, sub)
    ensures j + |sub| <= |s| && s[j..j + |sub|] == sub
    decreases |s|
  {
    if StartsWith(s, sub) {
      j := 0;
    } else {
      var j' := ContainsWitness(s[1..], sub);
      assert s[1..][j'..j' + |sub|] == s[j' + 1..j' + 1 + |sub|];
      j := j' + 1;
    }
  }

  /** Regrouping a concatenation of four texts: the first one can be split off the other three. */
  lemma {:induction false} Join3(p: string, x: string, y: string, z: string)
    ensures p + x + y + z == p + (x + y + z)
  {
    assert p + x + y == p + (x + y);
    assert p + (x + y) + z == p + (x + y + z);
  }

  lemma {:induction false} Join5(p: string, x1: string, x2: string, x3: string, x4: string, x5: string)
    ensures p + x1 + x2 + x3 + x4 + x5 == p + (x1 + x2 + x3 + x4 + x5)
  {
    assert p + x1 + x2 + x3 == p + (x1 + x2 + x3) by { Join3(p, x1, x2, x3); }
    assert p + (x1 + x2 + x3) + x4 + x5 == p + (x1 + x2 + x3 + x4 + x5) by { Join3(p, x1 + x2 + x3, x4, x5); }
  }

  lemma {:induction false} PrefixCancel(p: string, x: string, y: string)
    requires p + x == p + y
    ensures x == y
  {
    assert x == (p + x)[|p|..];
    assert y == (p + y)[|p|..];
  }

  /** `x/y/z` gives back its parts when `x` and `y` hold no slash. */
  lemma {:induction false} ThreeParts(x1: string, y1: string, z1: string, x2: string, y2: string, z2: string)
    requires '/' !in x1 && '/' !in x2 && '/' !in y1 && '/' !in y2
    requires x1 + "/" + y1 + "/" + z1 == x2 + "/" + y2 + "/" + z2
    ensures x1 == x2 && y1 == y2 && z1 == z2
  {
    assert x1 + "/" + y1 + "/" + z1 == x1 + "/" + (y1 + "/" + z1) by { Join3(x1 + "/", y1, "/", z1); }
    assert x2 + "/" + y2 + "/" + z2 == x2 + "/" + (y2 + "/" + z2) by { Join3(x2 + "/", y2, "/", z2); }
    SplitAtSeparator(x1, y1 + "/" + z1, x2, y2 + "/" + z2, '/');
    SplitAtSeparator(y1, z1, y2, z2, '/');
  }

  lemma {:induction false} SplitAtSeparator(x1: string, y1: string, x2: string, y2: string, d: char)
    requires d !in x1 && d !in x2
    requires x1 + [d] + y1 == x2 + [d] + y2
    ensures x1 == x2 && y1 == y2
  {
    var s := x1 + [d] + y1;
    var t := x2 + [d] + y2;
    assert forall k :: 0 <= k < |x1| ==> s[k] != d;
    assert forall k :: 0 <= k < |x2| ==> t[k] != d;
    assert s[|x1|] == d && t[|x2|] == d;
    assert |x1| == |x2|;
    assert x1 == s[..|x1|] && x2 == t[..|x2|];
    assert y1 == s[|x1| + 1..] && y2 == t[|x2| + 1..];
  }
}
