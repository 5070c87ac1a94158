/**
 * The parts of `pathlib.PurePosixPath` the scripts use on file names:
 * `name`, `parent`, `suffix` and `stem`.
 */
module PyPath {
  import opened PyStr

  /** `s.rfind(c)`: the last index holding `c`, or -1. */
  function RFind(s: string, c: char): (i: int)
    ensures -1 <= i < |s|
    ensures i >= 0 ==> s[i] == c
    ensures forall j :: i < j < |s| ==> s[j] != c
  {
    if |s| == 0 then -1
    else if s[|s| - 1] == c then |s| - 1
    else RFind(s[..|s| - 1], c)
  }

  /** `Path(name).suffix`: from the last dot on, unless that dot is the first or the last character. */
  function Suffix(name: string): string
  {
    var i := RFind(name, '.');
    if 0 < i < |name| - 1 then name[i..] else ""
  }

  /** `Path(name).stem`: the name without its suffix. */
  function Stem(name: string): string
  {
    var i := RFind(name, '.');
    if 0 < i < |name| - 1 then name[..i] else name
  }

  /** Stem and suffix split the name, and a non-empty suffix is one dot followed by at least one non-dot character. */
  lemma {:induction false} StemSuffix(name: string)
    ensures Stem(name) + Suffix(name) == name
    ensures Suffix(name) == "" || (|Suffix(name)| >= 2 && Suffix(name)[0] == '.' && '.' !in Suffix(name)[1..])
  {
    var i := RFind(name, '.');
    if 0 < i < |name| - 1 {
      assert name[..i] + name[i..] == name;
      assert forall j :: 0 <= j < |name[i..]| - 1 ==> name[i..][1..][j] == name[i + 1 + j];
    }
  }

  /** `Path(p).name` for a path without a trailing slash: what follows the last `/`. */
  function Name(p: string): string
  {
    p[RFind(p, '/') + 1..]
  }

  /** Whether the path has a directory part (`Path(p).parent != Path(".")` for a relative path). */
  predicate HasParent(p: string)
  {
    RFind(p, '/') >= 0
  }

  /** `Path(p).parent / child`, where a path without a directory part has parent `.` and `Path(".") / child` is `child`. */
  function Sibling(p: string, child: string): string
  {
    var i := RFind(p, '/');
    if i >= 0 then p[..i + 1] + child else child
  }

  lemma {:induction false} SiblingName(p: string, child: string)
    requires '/' !in child
    ensures Name(Sibling(p, child)) == child
  {
    var i := RFind(p, '/');
    var s := Sibling(p, child);
    if i >= 0 {
      assert s[i] == '/';
      assert RFind(s, '/') == i;
    } else {
      assert RFind(s, '/') == -1;
    }
  }

  /** The last dot of `a + suf` is the first character of `suf` when it is the only one there. */
  lemma {:induction false} LastDot(a: string, suf: string)
    requires suf != [] && suf[0] == '.' && '.' !in suf[1..]
    ensures RFind(a + suf, '.') == |a|
  {
    var w := a + suf;
    var i := RFind(w, '.');
    assert w[|a|] == '.';
    assert forall j :: |a| < j < |w| ==> w[j] == suf[1..][j - |a| - 1];
  }

  /** `Suffix` of a name that ends in a suffix after at least one character. */
  lemma {:induction false} SuffixOfConcat(a: string, suf: string)
    requires |a| > 0 && |suf| >= 2 && suf[0] == '.' && '.' !in suf[1..]
    ensures Suffix(a + suf) == suf
  {
    LastDot(a, suf);
    assert (a + suf)[|a|..] == suf;
  }

  /** A name ends where the last slash is; it has none itself. */
  lemma {:induction false} NameHasNoSlash(p: string)
    ensures '/' !in Name(p)
  {
    var i := RFind(p, '/');
    forall j | 0 <= j < |Name(p)|
      ensures Name(p)[j] != '/'
    {
      assert Name(p)[j] == p[i + 1 + j];
    }
  }

  /** Appending characters other than a slash keeps the name's start. */
  lemma {:induction false} NameOfExtension(p: string, x: string)
    requires '/' !in x
    ensures Name(p + x) == Name(p) + x
  {
    var i := RFind(p, '/');
    var w := p + x;
    assert RFind(w, '/') == i by { RFindExtension(p, x, '/'); }
    assert w[i + 1..] == p[i + 1..] + x;
  }

  /** Appending characters other than `c` leaves the last `c` where it was. */
  lemma {:induction false} RFindExtension(p: string, x: string, c: char)
    requires c !in x
    ensures RFind(p + x, c) == RFind(p, c)
  {
    var w := p + x;
    forall j | |p| <= j < |w| ensures w[j] != c {
      assert w[j] == x[j - |p|];
    }
    forall j | 0 <= j < |p| ensures w[j] == p[j] { }
  }

  /** The joins of two texts without a character have none. */
  lemma {:induction false} LacksJoin(c: char, a: string, b: string)
    requires c !in a && c !in b
    ensures c !in a + b
  {
    assert forall j :: 0 <= j < |a + b| ==> (a + b)[j] == if j < |a| then a[j] else b[j - |a|];
  }

  /** The parts of a text without a character have none. */
  lemma {:induction false} LacksPart(c: char, a: string, b: string)
    requires c !in a + b
    ensures c !in a && c !in b
  {
    assert forall j :: 0 <= j < |a| ==> (a + b)[j] == a[j];
    assert forall j :: 0 <= j < |b| ==> (a + b)[|a| + j] == b[j];
  }

  /** A number has no slash in it. */
  lemma {:induction false} NumberHasNoSlash(n: nat)
    ensures '/' !in NatToString(n)
  {
    var d := NatToString(n);
    assert forall j :: 0 <= j < |d| ==> IsDigit(d[j]);
  }

  /** The directory part of a path, with its trailing slash: what `Path(p).parent / child` puts before `child`. */
  function Directory(p: string): string
  {
    p[..RFind(p, '/') + 1]
  }

  /** A child of the parent is the directory part followed by the child. */
  lemma {:induction false} SiblingIsDirectoryJoin(p: string, child: string)
    ensures Sibling(p, child) == Directory(p) + child
  {
    if RFind(p, '/') < 0 {
      assert Directory(p) == [];
    }
  }

  /** A child of the parent keeps the directory part of the path. */
  lemma {:induction false} SiblingDirectory(p: string, child: string)
    ensures Sibling(p, child)[..|Sibling(p, child)| - |child|] == p[..|p| - |Name(p)|]
  {
    SiblingIsDirectoryJoin(p, child);
    var d := Directory(p);
    assert (d + child)[..|d|] == d;
  }
}
