/**
 * The template engine of the banner generator: `re.sub(r'\{(\w+)\}',
 * replace_var, template)`. The pattern's matches, found left to right
 * without overlap, cut the template into pieces: single characters the
 * pattern does not match, and placeholders. The substitution then
 * replaces every placeholder and copies every character.
 */
module BannerTemplate {
  import opened Wrappers

  /** `\w` on the ASCII range: letters, digits and the underscore. */
  predicate IsWordChar(c: char)
  {
    ('a' <= c <= 'z') || ('A' <= c <= 'Z') || ('0' <= c <= '9') || c == '_'
  }

  /** The length of the run of word characters `s` starts with. */
  function WordRun(s: string): nat
  {
    if s != [] && IsWordChar(s[0]) then 1 + WordRun(s[1..]) else 0
  }

  /**
   * The name of the placeholder `s` starts with, if it starts with one:
   * a brace, a non-empty run of word characters and a closing brace. The
   * greedy `\w+` cannot give back characters to reach the brace, so the
   * run is the whole run.
   */
  function Placeholder(s: string): Option<string>
  {
    if s != [] && s[0] == '{' then
      var n := WordRun(s[1..]);
      if n > 0 && 1 + n < |s| && s[1 + n] == '}' then Some(s[1..1 + n]) else None
    else None
  }

  /** A piece of the template: a character the pattern does not match, or a placeholder `{name}`. */
  datatype Token = Lit(c: char) | Var(name: string)

  /** The text a piece was cut from. */
  function Text(t: Token): string
  {
    match t
    case Lit(c) => [c]
    case Var(name) => "{" + name + "}"
  }

  /** The piece `s` starts with: its placeholder, or its first character. */
  function First(s: string): Token
    requires s != []
  {
    match Placeholder(s)
    case Some(name) => Var(name)
    case None => Lit(s[0])
  }

  /** How many characters the first piece of `s` takes. */
  function Consumed(s: string): (k: nat)
    ensures s != [] ==> 1 <= k <= |s|
  {
    match Placeholder(s)
    case Some(name) => |name| + 2
    case None => 1
  }

  /** The pieces of `s`, left to right: the pattern's matches and the characters between them. */
  function Scan(s: string): seq<Token>
    decreases |s|
  {
    if s == [] then [] else [First(s)] + Scan(s[Consumed(s)..])
  }

  /** The text the pieces were cut from, put back together. */
  function Source(ts: seq<Token>): string
  {
    if ts == [] then [] else Text(ts[0]) + Source(ts[1..])
  }

  /** The names the default getters answer for. */
  const GETTERS: set<string> := {"motd", "greets", "fus", "signatures"}

  /**
   * What placeholders are resolved against: the custom values, the names
   * that have a getter, and the getters' picks. The getters choose at
   * random from the MOTD data; `draw(name, i)` is the pick made for the
   * template's piece number `i`.
   */
  datatype Env = Env(vars: map<string, string>, getters: set<string>, draw: (string, nat) -> string)

  /** `replace_var` for the placeholder `name`, piece number `i`: the custom value first, then a getter, else nothing. */
  function Resolve(name: string, env: Env, i: nat): Option<string>
  {
    if name in env.vars then Some(env.vars[name])
    else if name in env.getters then Some(env.draw(name, i))
    else None
  }

  /** What piece number `i` becomes: a character stays, a placeholder becomes its resolution or stays itself (`match.group(0)`). */
  function Subst(t: Token, env: Env, i: nat): string
  {
    match t
    case Lit(c) => [c]
    case Var(name) =>
      match Resolve(name, env, i)
      case Some(v) => v
      case None => Text(t)
  }

  /** The substitution over the pieces, the first of which is piece number `i`. */
  function Out(ts: seq<Token>, env: Env, i: nat): string
  {
    if ts == [] then [] else Subst(ts[0], env, i) + Out(ts[1..], env, i + 1)
  }

  /** `re.sub` over `s`, whose first piece is piece number `i` of the template. */
  function Render(s: string, env: Env, i: nat): string
  {
    Out(Scan(s), env, i)
  }

  /** `render_template` on the template's text; an empty or absent custom dict is the same as none. */
  function RenderTemplate(template: string, variables: Option<map<string, string>>, draw: (string, nat) -> string): string
  {
    Render(template, Env(variables.GetOr(map[]), GETTERS, draw), 0)
  }

  /** The run is a prefix of word characters that the next character, if any, ends. */
  lemma {:induction false} WordRunMeaning(s: string)
    ensures WordRun(s) <= |s|
    ensures forall j :: 0 <= j < WordRun(s) ==> IsWordChar(s[j])
    ensures WordRun(s) < |s| ==> !IsWordChar(s[WordRun(s)])
  {
    if s != [] && IsWordChar(s[0]) {
      WordRunMeaning(s[1..]);
    }
  }

  /** A placeholder always spans its name and the two braces. */
  lemma {:induction false} PlaceholderSpan(s: string)
    requires Placeholder(s).Some?
    ensures var name := Placeholder(s).value;
      && |name| + 2 <= |s| && s[..|name| + 2] == "{" + name + "}"
      && name != [] && forall j :: 0 <= j < |name| ==> IsWordChar(name[j])
  {
    var name := Placeholder(s).value;
    var n := WordRun(s[1..]);
    WordRunMeaning(s[1..]);
    assert name == s[1..1 + n];
    forall j | 0 <= j < |name|
      ensures IsWordChar(name[j])
    {
      assert name[j] == s[1..][j];
    }
    assert s[..|name| + 2] == [s[0]] + s[1..1 + |name|] + [s[1 + |name|]];
  }

  /** Characters after the end of a word run do not lengthen it. */
  lemma {:induction false} WordRunConcat(a: string, t: string)
    requires t == [] || !IsWordChar(t[0])
    ensures WordRun(a + t) == WordRun(a)
  {
    if a != [] {
      assert (a + t)[1..] == a[1..] + t;
      WordRunConcat(a[1..], t);
    }
  }

  /** A string of word characters is one whole run. */
  lemma {:induction false} WordRunAll(name: string)
    requires forall j :: 0 <= j < |name| ==> IsWordChar(name[j])
    ensures WordRun(name) == |name|
  {
    if name != [] {
      WordRunAll(name[1..]);
    }
  }

  /** A placeholder that starts in `p` ends in `p` when `t` cannot continue or close it. */
  lemma {:induction false} PlaceholderPrefix(p: string, t: string)
    requires p != []
    requires t == [] || (!IsWordChar(t[0]) && t[0] != '}')
    ensures Placeholder(p + t) == Placeholder(p)
    ensures Placeholder(p).Some? ==> |Placeholder(p).value| + 2 <= |p|
  {
    var s := p + t;
    assert s[1..] == p[1..] + t;
    WordRunConcat(p[1..], t);
    WordRunMeaning(p[1..]);
    var n := WordRun(p[1..]);
    assert s[1..1 + n] == p[1..1 + n];
    if 1 + n < |p| {
      assert s[1 + n] == p[1 + n];
    } else if t != [] {
      assert s[1 + n] == t[0];
    }
  }

  /** The first piece of `p + t` is the first piece of `p`, and the rest of `p + t` is the rest of `p` followed by `t`. */
  lemma {:induction false} FirstOfPrefix(p: string, t: string)
    requires p != []
    requires t == [] || (!IsWordChar(t[0]) && t[0] != '}')
    ensures First(p + t) == First(p)
    ensures Consumed(p + t) == Consumed(p)
    ensures (p + t)[Consumed(p)..] == p[Consumed(p)..] + t
  {
    PlaceholderPrefix(p, t);
  }

  /** A brace, a word and a brace at the front are that word's placeholder. */
  lemma {:induction false} PlaceholderOf(name: string, q: string)
    requires name != [] && forall j :: 0 <= j < |name| ==> IsWordChar(name[j])
    ensures First("{" + name + "}" + q) == Var(name)
    ensures Consumed("{" + name + "}" + q) == |name| + 2
    ensures ("{" + name + "}" + q)[|name| + 2..] == q
  {
    var t := "{" + name + "}" + q;
    assert t[1..] == name + ("}" + q);
    WordRunConcat(name, "}" + q);
    WordRunAll(name);
    assert t[1..1 + |name|] == name;
  }

  /** The first piece is cut from the characters it consumes. */
  lemma {:induction false} FirstText(s: string)
    requires s != []
    ensures Text(First(s)) == s[..Consumed(s)]
  {
    if Placeholder(s).Some? {
      PlaceholderSpan(s);
    }
  }

  /** Where a placeholder is cut out of the text. */
  lemma {:induction false} Splice(p: string, name: string, q: string)
    ensures p + "{" + name + "}" + q == p + ("{" + name + "}" + q)
  {
  }

  /** One step of the scan. */
  lemma {:induction false} ScanStep(s: string)
    requires s != []
    ensures Scan(s) == [First(s)] + Scan(s[Consumed(s)..])
  {
  }

  /** One step of the substitution. */
  lemma {:induction false} OutStep(ts: seq<Token>, env: Env, i: nat)
    requires ts != []
    ensures Out(ts, env, i) == Subst(ts[0], env, i) + Out(ts[1..], env, i + 1)
  {
  }

  /** One step of putting the text back together. */
  lemma {:induction false} SourceStep(ts: seq<Token>)
    requires ts != []
    ensures Source(ts) == Text(ts[0]) + Source(ts[1..])
  {
  }
}

/** What the substitution does to a template: where it splits, what a placeholder becomes, what it leaves alone. */
module BannerRendering {
  import opened Wrappers
  import opened BannerTemplate

  /** Two sequences with the same front, whose rests differ by a tail, differ by that tail. */
  lemma {:induction false} Regroup<T>(x: seq<T>, y: seq<T>, e: seq<T>, a: seq<T>, b: seq<T>, c: seq<T>)
    requires x == e + a && y == e + b && a == b + c
    ensures x == y + c
  {
  }

  /** Scanning splits where the second part starts with a character that cannot continue a placeholder. */
  lemma {:induction false} ScanSplit(p: string, t: string)
    requires t == [] || (!IsWordChar(t[0]) && t[0] != '}')
    ensures Scan(p + t) == Scan(p) + Scan(t)
    decreases |p|
  {
    if p == [] {
      assert p + t == t;
    } else {
      var k := Consumed(p);
      var q := p[k..];
      assert Scan(q + t) == Scan(q) + Scan(t) by {
        ScanSplit(q, t);
      }
      assert Scan(p + t) == [First(p)] + Scan(q + t) by {
        FirstOfPrefix(p, t);
        ScanStep(p + t);
      }
      assert Scan(p) == [First(p)] + Scan(q) by {
        ScanStep(p);
      }
      Regroup(Scan(p + t), Scan(p), [First(p)], Scan(q + t), Scan(q), Scan(t));
    }
  }

  /** The substitution over two runs of pieces is the substitution over each, the second numbered on from the first. */
  lemma {:induction false} OutSplit(a: seq<Token>, b: seq<Token>, env: Env, i: nat)
    ensures Out(a + b, env, i) == Out(a, env, i) + Out(b, env, i + |a|)
    decreases |a|
  {
    if a == [] {
      assert a + b == b;
    } else {
      var e := Subst(a[0], env, i);
      assert Out(a[1..] + b, env, i + 1) == Out(a[1..], env, i + 1) + Out(b, env, i + |a|) by {
        OutSplit(a[1..], b, env, i + 1);
      }
      assert Out(a + b, env, i) == e + Out(a[1..] + b, env, i + 1) by {
        assert (a + b)[0] == a[0] && (a + b)[1..] == a[1..] + b;
        OutStep(a + b, env, i);
      }
      assert Out(a, env, i) == e + Out(a[1..], env, i + 1) by {
        OutStep(a, env, i);
      }
      Regroup(Out(a + b, env, i), Out(a, env, i), e, Out(a[1..] + b, env, i + 1), Out(a[1..], env, i + 1), Out(b, env, i + |a|));
    }
  }

  /** The first piece of the scan gives back the characters it consumed. */
  lemma {:induction false} SourceOfScanStep(s: string)
    requires s != []
    ensures Source(Scan(s)) == s[..Consumed(s)] + Source(Scan(s[Consumed(s)..]))
  {
    var ts := Scan(s);
    ScanStep(s);
    assert ts[0] == First(s) && ts[1..] == Scan(s[Consumed(s)..]);
    SourceStep(ts);
    FirstText(s);
  }

  /** Putting the pieces back together gives the text they were cut from: the scan loses and invents nothing. */
  lemma {:induction false} SourceOfScan(s: string)
    ensures Source(Scan(s)) == s
    decreases |s|
  {
    if s != [] {
      var k := Consumed(s);
      SourceOfScanStep(s);
      SourceOfScan(s[k..]);
      assert s[..k] + s[k..] == s;
    }
  }

  /** The pieces of a placeholder followed by more text: the placeholder, then the pieces of the rest. */
  lemma {:induction false} ScanPlaceholder(name: string, q: string)
    requires name != [] && forall j :: 0 <= j < |name| ==> IsWordChar(name[j])
    ensures Scan("{" + name + "}" + q) == [Var(name)] + Scan(q)
  {
    PlaceholderOf(name, q);
    ScanStep("{" + name + "}" + q);
  }

  /** The substitution over pieces around one placeholder. */
  lemma {:induction false} OutAround(a: seq<Token>, name: string, b: seq<Token>, env: Env, i: nat)
    ensures Out(a + ([Var(name)] + b), env, i)
      == Out(a, env, i) + Subst(Var(name), env, i + |a|) + Out(b, env, i + |a| + 1)
  {
    var v := Subst(Var(name), env, i + |a|);
    var m := [Var(name)] + b;
    assert Out(a + m, env, i) == Out(a, env, i) + Out(m, env, i + |a|) by {
      OutSplit(a, m, env, i);
    }
    assert Out(m, env, i + |a|) == v + Out(b, env, i + |a| + 1) by {
      OutStep(m, env, i + |a|);
      assert m[0] == Var(name) && m[1..] == b;
    }
    Regroup(Out(a + m, env, i), Out(a, env, i) + v, Out(a, env, i), Out(m, env, i + |a|), v, Out(b, env, i + |a| + 1));
  }

  /** The pieces of a text around a placeholder: those before it, the placeholder, those after it. */
  lemma {:induction false} ScanAround(p: string, name: string, q: string)
    requires name != [] && forall j :: 0 <= j < |name| ==> IsWordChar(name[j])
    ensures Scan(p + "{" + name + "}" + q) == Scan(p) + ([Var(name)] + Scan(q))
  {
    Splice(p, name, q);
    ScanSplit(p, "{" + name + "}" + q);
    ScanPlaceholder(name, q);
  }

  /** A placeholder anywhere in the text is replaced by its value, and the text around it is rendered as it would be alone. */
  lemma {:induction false} PlaceholderSplit(p: string, name: string, q: string, env: Env, i: nat)
    requires name != [] && forall j :: 0 <= j < |name| ==> IsWordChar(name[j])
    ensures Render(p + "{" + name + "}" + q, env, i)
      == Render(p, env, i) + Subst(Var(name), env, i + |Scan(p)|) + Render(q, env, i + |Scan(p)| + 1)
  {
    ScanAround(p, name, q);
    OutAround(Scan(p), name, Scan(q), env, i);
  }

  /** A placeholder with a custom value becomes that value, even when a getter has its name. */
  lemma {:induction false} CustomValueWins(p: string, name: string, q: string, env: Env, i: nat)
    requires name != [] && forall j :: 0 <= j < |name| ==> IsWordChar(name[j])
    requires name in env.vars
    ensures Render(p + "{" + name + "}" + q, env, i)
      == Render(p, env, i) + env.vars[name] + Render(q, env, i + |Scan(p)| + 1)
  {
    PlaceholderSplit(p, name, q, env, i);
    assert Subst(Var(name), env, i + |Scan(p)|) == env.vars[name];
  }

  /** A placeholder without a custom value but with a getter becomes the getter's pick. */
  lemma {:induction false} GetterPicks(p: string, name: string, q: string, env: Env, i: nat)
    requires name != [] && forall j :: 0 <= j < |name| ==> IsWordChar(name[j])
    requires name !in env.vars && name in env.getters
    ensures Render(p + "{" + name + "}" + q, env, i)
      == Render(p, env, i) + env.draw(name, i + |Scan(p)|) + Render(q, env, i + |Scan(p)| + 1)
  {
    PlaceholderSplit(p, name, q, env, i);
    assert Subst(Var(name), env, i + |Scan(p)|) == env.draw(name, i + |Scan(p)|);
  }

  /** A placeholder with neither a custom value nor a getter is left as it is. */
  lemma {:induction false} UnknownKept(p: string, name: string, q: string, env: Env, i: nat)
    requires name != [] && forall j :: 0 <= j < |name| ==> IsWordChar(name[j])
    requires name !in env.vars && name !in env.getters
    ensures Render(p + "{" + name + "}" + q, env, i)
      == Render(p, env, i) + "{" + name + "}" + Render(q, env, i + |Scan(p)| + 1)
  {
    PlaceholderSplit(p, name, q, env, i);
    assert Subst(Var(name), env, i + |Scan(p)|) == "{" + name + "}";
  }

  /** Whether no placeholder among the pieces has a custom value or a getter. */
  predicate Unresolved(ts: seq<Token>, env: Env)
  {
    forall k :: 0 <= k < |ts| && ts[k].Var? ==> ts[k].name !in env.vars && ts[k].name !in env.getters
  }

  /** Pieces without a value are copied as they were cut. */
  lemma {:induction false} OutUnresolved(ts: seq<Token>, env: Env, i: nat)
    requires Unresolved(ts, env)
    ensures Out(ts, env, i) == Source(ts)
    decreases |ts|
  {
    if ts != [] {
      assert Unresolved(ts[1..], env) by {
        assert forall k :: 0 <= k < |ts[1..]| ==> ts[1..][k] == ts[k + 1];
      }
      OutUnresolved(ts[1..], env, i + 1);
      OutStep(ts, env, i);
      SourceStep(ts);
    }
  }

  /** Where no placeholder has a custom value or a getter, the text comes back unchanged. */
  lemma {:induction false} Verbatim(s: string, env: Env, i: nat)
    requires Unresolved(Scan(s), env)
    ensures Render(s, env, i) == s
  {
    OutUnresolved(Scan(s), env, i);
    SourceOfScan(s);
  }

  /** A text no placeholder starts anywhere in is one character per piece. */
  lemma {:induction false} ScanWithoutPlaceholders(s: string)
    requires forall j :: 0 <= j <= |s| ==> Placeholder(s[j..]).None?
    ensures forall k :: 0 <= k < |Scan(s)| ==> Scan(s)[k].Lit?
    decreases |s|
  {
    if s != [] {
      assert s[0..] == s;
      assert Placeholder(s[1..]).None? by {
        assert s[1..] == s[1..];
      }
      forall j | 0 <= j <= |s[1..]|
        ensures Placeholder(s[1..][j..]).None?
      {
        assert s[1..][j..] == s[1 + j..];
      }
      ScanWithoutPlaceholders(s[1..]);
      ScanStep(s);
    }
  }

  /** A template without any `{name}` placeholder renders to itself, whatever the variables. */
  lemma {:induction false} NoPlaceholderUnchanged(template: string, variables: Option<map<string, string>>, draw: (string, nat) -> string)
    requires forall j :: 0 <= j <= |template| ==> Placeholder(template[j..]).None?
    ensures RenderTemplate(template, variables, draw) == template
  {
    ScanWithoutPlaceholders(template);
    Verbatim(template, Env(variables.GetOr(map[]), GETTERS, draw), 0);
  }
}

/**
 * The banner generator: its own block-letter tables (without digits) and
 * the file names of the variants it writes.
 */
module HakcBanner {
  import opened PyStr
  import opened PyPath
  import opened Glyphs
  import GenLib

  // ---------------------------------------------------------------
  //  text_to_big with the banner's own tables
  // ---------------------------------------------------------------

  /** `text_to_big` of the banner generator: the shared loop over tables without digits or colon. */
  method TextToBig(text: string, style: string) returns (result: seq<string>)
    ensures |result| == Height(style == "big")
    ensures forall i :: 0 <= i < |result| ==> result[i] == GenLib.Row(Upper(text), i, style == "big", false)
  {
    result := GenLib.TextToBigWith(text, style, false);
  }

  /** A digit has no glyph in these tables, so it adds a single space to every row. */
  lemma DigitIsBlank(text: string, c: char, i: nat, big: bool)
    requires '0' <= c <= '9'
    ensures GenLib.Row(text + [c], i, big, false) == GenLib.Row(text, i, big, false) + " "
  {
    BannerTablesAgree(c, big);
    GenLib.UnknownCharIsSpace(text, c, i, big, false);
  }

  /** On text without digits or colons the banner's rendering is the shared library's. */
  lemma {:induction false} AgreesWithLib(text: string, i: nat, big: bool)
    requires forall j :: 0 <= j < |text| ==> !('0' <= text[j] <= '9') && text[j] != ':'
    ensures GenLib.Row(text, i, big, false) == GenLib.Row(text, i, big, true)
  {
    if text != [] {
      var c := text[|text| - 1];
      AgreesWithLib(text[..|text| - 1], i, big);
      BannerTablesAgree(c, big);
      BigLetterShape(c);
      SimpleLetterShape(c);
      assert GenLib.Piece(c, i, big, false) == GenLib.Piece(c, i, big, true);
    }
  }
}

/** The file names `main` writes the variants of a banner to. */
module BannerVariants {
  import opened PyStr
  import opened PyPath

  /**
   * The file variant `k` (from 0) is written to: `stem_{k+1}suffix` beside
   * the output when its name has a suffix, else `{output}_{k+1}.txt`.
   */
  function VariantPath(output: string, k: nat): string
  {
    var name := Name(output);
    if Suffix(name) != "" then Sibling(output, Stem(name) + "_" + NatToString(k + 1) + Suffix(name))
    else output + "_" + NatToString(k + 1) + ".txt"
  }

  /** The name of a variant with a suffix has no slash in it. */
  lemma {:induction false} VariantNameHasNoSlash(output: string, k: nat)
    ensures '/' !in Stem(Name(output)) + "_" + NatToString(k + 1) + Suffix(Name(output))
  {
    var name := Name(output);
    var stem, suf := Stem(name), Suffix(name);
    assert '/' !in stem + suf by {
      StemSuffix(name);
      NameHasNoSlash(output);
    }
    LacksPart('/', stem, suf);
    LacksJoin('/', stem, "_");
    NumberHasNoSlash(k + 1);
    LacksJoin('/', stem + "_", NatToString(k + 1));
    LacksJoin('/', stem + "_" + NatToString(k + 1), suf);
  }

  /** A variant of an output whose name has a suffix: `stem_N.suffix` in the output's directory. */
  lemma {:induction false} VariantWithSuffix(output: string, k: nat)
    requires Suffix(Name(output)) != ""
    ensures var name := Name(output);
      var p := VariantPath(output, k);
      && Name(p) == Stem(name) + "_" + NatToString(k + 1) + Suffix(name)
      && Suffix(Name(p)) == Suffix(name)
      && p[..|p| - |Name(p)|] == output[..|output| - |name|]
  {
    var name := Name(output);
    var child := Stem(name) + "_" + NatToString(k + 1) + Suffix(name);
    assert VariantPath(output, k) == Sibling(output, child);
    VariantNameHasNoSlash(output, k);
    SiblingName(output, child);
    SiblingDirectory(output, child);
    assert Suffix(child) == Suffix(name) by {
      StemSuffix(name);
      SuffixOfConcat(Stem(name) + "_" + NatToString(k + 1), Suffix(name));
    }
  }

  /** The name of a variant of an output without a suffix: the output's name, `_N` and `.txt`. */
  lemma {:induction false} PlainVariantName(output: string, k: nat)
    ensures Name(output + "_" + NatToString(k + 1) + ".txt") == Name(output) + "_" + NatToString(k + 1) + ".txt"
  {
    var a := output + "_";
    NameOfExtension(output, "_");
    NumberHasNoSlash(k + 1);
    NameOfExtension(a, NatToString(k + 1));
    NameOfExtension(a + NatToString(k + 1), ".txt");
  }

  /** A variant of an output without a suffix starts with the output. */
  lemma {:induction false} PlainVariantPrefix(output: string, k: nat)
    ensures StartsWith(output + "_" + NatToString(k + 1) + ".txt", output)
  {
    var a := output + "_";
    var b := a + NatToString(k + 1);
    StartsWithJoin(output, "_");
    StartsWithJoin(a, NatToString(k + 1));
    StartsWithJoin(b, ".txt");
    StartsWithTrans(b, a, output);
    StartsWithTrans(b + ".txt", b, output);
  }

  /** A variant of an output whose name has no suffix: `{output}_N.txt`. */
  lemma {:induction false} VariantWithoutSuffix(output: string, k: nat)
    requires Suffix(Name(output)) == ""
    ensures var name := Name(output);
      var p := VariantPath(output, k);
      && Name(p) == name + "_" + NatToString(k + 1) + ".txt"
      && Suffix(Name(p)) == ".txt"
      && StartsWith(p, output)
  {
    PlainVariantName(output, k);
    PlainVariantPrefix(output, k);
    SuffixOfConcat(Name(output) + "_" + NatToString(k + 1), ".txt");
  }

  /**
   * A variant keeps the output's directory and suffix (or is a `.txt`
   * file beside the output's full name), with `_` and the variant's
   * number between.
   */
  lemma {:induction false} VariantPathShape(output: string, k: nat)
    ensures var name := Name(output);
      var number := "_" + NatToString(k + 1);
      var p := VariantPath(output, k);
      && (Suffix(name) != "" ==>
            Name(p) == Stem(name) + "_" + NatToString(k + 1) + Suffix(name)
            && Suffix(Name(p)) == Suffix(name)
            && p[..|p| - |Name(p)|] == output[..|output| - |name|])
      && (Suffix(name) == "" ==>
            Name(p) == name + "_" + NatToString(k + 1) + ".txt"
            && Suffix(Name(p)) == ".txt"
            && StartsWith(p, output))
  {
    if Suffix(Name(output)) != "" {
      VariantWithSuffix(output, k);
    } else {
      VariantWithoutSuffix(output, k);
    }
  }

  /** Equal strings around the same prefix and suffix have equal middles. */
  lemma {:induction false} MiddleEqual(a: string, x: string, y: string, b: string)
    requires a + x + b == a + y + b
    ensures x == y
  {
    var s := a + x + b;
    assert |x| == |y|;
    assert x == s[|a|..|a| + |x|];
    assert y == (a + y + b)[|a|..|a| + |y|];
  }

  /** What comes before the number in every variant's path. */
  function VariantFront(output: string): string
  {
    var name := Name(output);
    if Suffix(name) != "" then Directory(output) + Stem(name) + "_" else output + "_"
  }

  /** What comes after the number in every variant's path. */
  function VariantBack(output: string): string
  {
    var name := Name(output);
    if Suffix(name) != "" then Suffix(name) else ".txt"
  }

  /** Every variant's path is the same front, its number, and the same back. */
  lemma {:induction false} VariantParts(output: string, k: nat)
    ensures VariantPath(output, k) == VariantFront(output) + NatToString(k + 1) + VariantBack(output)
  {
    if Suffix(Name(output)) != "" {
      SuffixedVariantParts(output, k);
    }
  }

  /** `VariantParts` for an output whose name has a suffix. */
  lemma {:induction false} SuffixedVariantParts(output: string, k: nat)
    requires Suffix(Name(output)) != ""
    ensures VariantPath(output, k) == VariantFront(output) + NatToString(k + 1) + VariantBack(output)
  {
    var name := Name(output);
    var d, st, n, su := Directory(output), Stem(name), NatToString(k + 1), Suffix(name);
    SiblingIsDirectoryJoin(output, st + "_" + n + su);
    Regroup4(d, st + "_", n, su);
  }

  /** Re-bracketing a join of four strings. */
  lemma {:induction false} Regroup4(a: string, b: string, c: string, d: string)
    ensures a + (b + c + d) == a + b + c + d
  {
  }

  /** Different variants are written to different files. */
  lemma {:induction false} VariantPathsDistinct(output: string, j: nat, k: nat)
    requires j != k
    ensures VariantPath(output, j) != VariantPath(output, k)
  {
    VariantParts(output, j);
    VariantParts(output, k);
    if VariantPath(output, j) == VariantPath(output, k) {
      MiddleEqual(VariantFront(output), NatToString(j + 1), NatToString(k + 1), VariantBack(output));
      NatToStringInjective(j + 1, k + 1);
    }
  }
}
