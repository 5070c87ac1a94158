/**
 * The discovery side of the sync engine: the ignore list, the built-in
 * category policy, the README banner harvester, the rule lookup, the
 * state keys and the per-repository scan.
 */
module HakcAssets {
  import opened Wrappers
  import opened PyStr
  import opened PyPath
  import RuleEngine

  /** The category an asset is filed under; `Other` assets are never synced. */
  datatype AssetType = Images | Media | Banners | Icons | Slidedecks | Other

  function TypeName(t: AssetType): string
  {
    match t
    case Images => "images"
    case Media => "media"
    case Banners => "banners"
    case Icons => "icons"
    case Slidedecks => "slidedecks"
    case Other => "other"
  }

  /**
   * A discovered asset. `extracted` holds the text of a banner cut out of a
   * README; such an asset has no download URL.
   */
  datatype Asset = Asset(
    source: string, path: string, name: string, size: int, sha: string,
    downloadUrl: string, assetType: AssetType, extracted: Option<string>)

  /** The parts of `asset_rules.json` the engine reads (`ignore`, `rules`, `sync.source_dirs`, `sync.exclude_repos`). */
  datatype Config = Config(
    ignore: seq<string>, rules: seq<RuleEngine.Rule>,
    sourceDirs: seq<string>, excludeRepos: seq<string>)

  // ---------------------------------------------------------------
  //  Ignore list and rules
  // ---------------------------------------------------------------

  /** One ignore pattern: `*.ext` matches by name suffix, anything else by the whole name. */
  predicate PatternIgnores(pattern: string, name: string)
  {
    (StartsWith(pattern, "*.") && EndsWith(name, pattern[1..])) || name == pattern
  }

  /** `_should_ignore`: some pattern of the list ignores the file name. */
  function ShouldIgnore(patterns: seq<string>, name: string): (r: bool)
    ensures r <==> exists i :: 0 <= i < |patterns| && PatternIgnores(patterns[i], name)
  {
    if patterns == [] then false
    else if PatternIgnores(patterns[0], name) then true
    else
      var r := ShouldIgnore(patterns[1..], name);
      assert forall i :: 1 <= i < |patterns| ==> patterns[i] == patterns[1..][i - 1];
      r
  }

  /** `get_destination`: nothing for an ignored file, else the destination of the first rule in priority order that matches. */
  function GetDestination(cfg: Config, f: RuleEngine.FileFacts): (r: Option<string>)
    ensures ShouldIgnore(cfg.ignore, f.name) ==> r == None
    ensures !ShouldIgnore(cfg.ignore, f.name) && (forall j :: 0 <= j < |cfg.rules| ==> !RuleEngine.MatchRule(f, cfg.rules[j].cond))
      ==> r == None
    ensures !ShouldIgnore(cfg.ignore, f.name) && (exists j :: 0 <= j < |cfg.rules| && RuleEngine.MatchRule(f, cfg.rules[j].cond))
      ==> exists m: nat :: RuleEngine.IsFirstMatch(cfg.rules, f, m) && r == cfg.rules[m].destination
  {
    RuleEngine.DestinationIsFirstMatch(cfg.rules, f);
    if ShouldIgnore(cfg.ignore, f.name) then None else RuleEngine.Destination(cfg.rules, f)
  }

  // ---------------------------------------------------------------
  //  Built-in category policy
  // ---------------------------------------------------------------

  const ICON_EXTS: seq<string> := [".png", ".jpg", ".svg", ".ico"]
  const VIDEO_EXTS: seq<string> := [".mp4", ".webm", ".mov", ".m4v"]
  const TEXT_EXTS: seq<string> := [".txt", ".ans", ".asc", ".nfo", ""]
  const IMAGE_EXTS: seq<string> := [".png", ".jpg", ".jpeg", ".gif", ".svg", ".webp"]
  const BLOCK_CHARS: string := "█▓▒░"

  /** The stem mentions a banner, ASCII art or a logo. */
  predicate BannerHint(stem: string)
  {
    Contains(stem, "banner") || Contains(stem, "ascii") || Contains(stem, "logo")
  }

  /** Non-empty content holding one of the four block characters. */
  predicate HasBlockChar(content: Option<string>)
  {
    content.Some? && content.value != "" && exists i :: 0 <= i < |content.value| && content.value[i] in BLOCK_CHARS
  }

  /** `_get_asset_type`: the fixed policy, tried in order; the first test that fires decides. */
  function GetAssetType(ignore: seq<string>, name: string, content: Option<string>): AssetType
  {
    var ext := Extension(name);
    var stem := Lower(Stem(name));
    if ShouldIgnore(ignore, name) then Other
    else if Contains(stem, "icon") && ext in ICON_EXTS then Icons
    else if ext in VIDEO_EXTS then Media
    else if ext in TEXT_EXTS then
      if BannerHint(stem) then Banners
      else if HasBlockChar(content) then Banners
      else Other
    else if ext in IMAGE_EXTS then Images
    else if ext == ".pdf" then Slidedecks
    else Other
  }

  /**
   * What each category means: ignored files are `other`; text extensions
   * give `banners` or `other`; each category holds exactly the files the
   * policy sends there.
   */
  lemma {:induction false} AssetTypePolicy(ignore: seq<string>, name: string, content: Option<string>)
    ensures var r := GetAssetType(ignore, name, content);
      && (ShouldIgnore(ignore, name) ==> r == Other)
      && (r == Icons <==> !ShouldIgnore(ignore, name) && Contains(Lower(Stem(name)), "icon") && Extension(name) in ICON_EXTS)
      && (r == Media <==> !ShouldIgnore(ignore, name) && Extension(name) in VIDEO_EXTS)
      && (Extension(name) in TEXT_EXTS ==> r == Banners || r == Other)
      && (r == Banners <==> !ShouldIgnore(ignore, name) && Extension(name) in TEXT_EXTS
                            && (BannerHint(Lower(Stem(name))) || HasBlockChar(content)))
      && (r == Images <==> !ShouldIgnore(ignore, name) && Extension(name) in IMAGE_EXTS
                           && !(Contains(Lower(Stem(name)), "icon") && Extension(name) in ICON_EXTS))
      && (r == Slidedecks <==> !ShouldIgnore(ignore, name) && Extension(name) == ".pdf")
  {
    ExtensionSetsApart(Extension(name));
  }

  /** Video, text and PDF extensions are apart from each other and from the icon and image formats. */
  lemma {:induction false} ExtensionSetsApart(ext: string)
    ensures ext in VIDEO_EXTS ==> ext !in ICON_EXTS && ext !in TEXT_EXTS && ext !in IMAGE_EXTS && ext != ".pdf"
    ensures ext in TEXT_EXTS ==> ext !in ICON_EXTS && ext !in IMAGE_EXTS && ext != ".pdf"
    ensures ext in IMAGE_EXTS ==> ext != ".pdf"
  {
  }

  function Extension(name: string): string
  {
    RuleEngine.Extension(name)
  }

  // ---------------------------------------------------------------
  //  README banners
  // ---------------------------------------------------------------

  const FENCE: string := "```"

  /** `_is_ascii_art`: non-empty text with an ANSI escape or an art character. */
  predicate IsAsciiArt(text: string)
  {
    text != "" && RuleEngine.HasArt(text)
  }

  predicate FenceAt(s: string, k: int)
  {
    0 <= k && k + 3 <= |s| && s[k..k + 3] == FENCE
  }

  /** The first line break at or after `from`. */
  function NextNewline(s: string, from: nat): (r: Option<nat>)
    ensures r.Some? ==> from <= r.value < |s|
    decreases |s| - from
  {
    if from >= |s| then None
    else if s[from] == '\n' then Some(from)
    else NextNewline(s, from + 1)
  }

  /** `NextNewline` finds the first line break, or reports that there is none. */
  lemma {:induction false} NextNewlineFirst(s: string, from: nat)
    ensures NextNewline(s, from).Some? ==>
              s[NextNewline(s, from).value] == '\n' && forall j :: from <= j < NextNewline(s, from).value ==> s[j] != '\n'
    ensures NextNewline(s, from).None? ==> forall j :: from <= j < |s| ==> s[j] != '\n'
    decreases |s| - from
  {
    if from < |s| && s[from] != '\n' {
      NextNewlineFirst(s, from + 1);
    }
  }

  /** The first triple backtick starting at or after `from`. */
  function NextFence(s: string, from: nat): (r: Option<nat>)
    ensures r.Some? ==> from <= r.value && r.value + 3 <= |s|
    decreases |s| - from
  {
    if from + 3 > |s| then None
    else if s[from..from + 3] == FENCE then Some(from)
    else NextFence(s, from + 1)
  }

  /** `NextFence` finds the first fence, or reports that there is none. */
  lemma {:induction false} NextFenceFirst(s: string, from: nat)
    ensures NextFence(s, from).Some? ==>
              FenceAt(s, NextFence(s, from).value) && forall j :: from <= j < NextFence(s, from).value ==> !FenceAt(s, j)
    ensures NextFence(s, from).None? ==> forall j :: from <= j < |s| ==> !FenceAt(s, j)
    decreases |s| - from
  {
    if from + 3 <= |s| && s[from..from + 3] != FENCE {
      NextFenceFirst(s, from + 1);
    }
  }

  /**
   * `re.findall(r'```[^\n]*\n(.*?)```', s, re.DOTALL)` from position `p`:
   * an opening fence, the rest of its line, then everything up to the next
   * fence. Where no match starts, the search moves on by one character; after
   * a match it resumes behind the closing fence.
   */
  function Blocks(s: string, p: nat): seq<string>
    decreases |s| - p
  {
    if p >= |s| then []
    else
      match BlockAt(s, p)
      case None => Blocks(s, p + 1)
      case Some((b, n)) => [b] + Blocks(s, n)
  }

  /** The match that starts at `p`, if one does: the block and the position behind its closing fence. */
  function BlockAt(s: string, p: nat): (m: Option<(string, nat)>)
    requires p < |s|
    ensures m.Some? ==> p < m.value.1 <= |s|
  {
    if !FenceAt(s, p) then None
    else
      match NextNewline(s, p + 3)
      case None => None
      case Some(q) =>
        match NextFence(s, q + 1)
        case None => None
        case Some(k) => Some((s[q + 1..k], k + 3))
  }

  function FencedBlocks(s: string): seq<string>
  {
    Blocks(s, 0)
  }

  lemma SliceOfSlice(s: string, from: nat, k: nat, j: nat, m: nat)
    requires from <= k <= |s| && j + m <= k - from
    ensures s[from..k][j..j + m] == s[from + j..from + j + m]
  {
    var a := s[from..k][j..j + m];
    var c := s[from + j..from + j + m];
    forall t | 0 <= t < m ensures a[t] == c[t] {
    }
  }

  /** The text between a position and the first fence after it holds no fence. */
  lemma BlockIsFenceFree(s: string, from: nat, k: nat)
    requires from <= k && FenceAt(s, k)
    requires forall j :: from <= j < k ==> !FenceAt(s, j)
    ensures Contains(s, s[from..k]) && !Contains(s[from..k], FENCE)
  {
    var b := s[from..k];
    ContainsAt(s, b, from);
    forall j: nat ensures !OccursAt(b, FENCE, j) {
      if j + 3 <= |b| {
        assert !FenceAt(s, from + j);
        SliceOfSlice(s, from, k, j, 3);
      }
    }
    NoOccurrence(b, FENCE);
  }

  /** Each of `bs` lies in `s` and holds no triple backtick. */
  predicate FenceFreeIn(s: string, bs: seq<string>)
  {
    forall b :: b in bs ==> Contains(s, b) && !Contains(b, FENCE)
  }

  lemma {:induction false} FenceFreeCons(s: string, b: string, bs: seq<string>)
    requires Contains(s, b) && !Contains(b, FENCE) && FenceFreeIn(s, bs)
    ensures FenceFreeIn(s, [b] + bs)
  {
    forall x | x in [b] + bs ensures Contains(s, x) && !Contains(x, FENCE) {
      if x != b {
        assert x in bs;
      }
    }
  }

  /** A block found at one position lies in the text and holds no fence. */
  lemma {:induction false} BlockAtFenceFree(s: string, p: nat)
    requires p < |s| && BlockAt(s, p).Some?
    ensures Contains(s, BlockAt(s, p).value.0) && !Contains(BlockAt(s, p).value.0, FENCE)
  {
    var q := NextNewline(s, p + 3).value;
    NextFenceFirst(s, q + 1);
    BlockIsFenceFree(s, q + 1, NextFence(s, q + 1).value);
  }

  /** Every block lies in the text and holds no triple backtick of its own (the match is lazy). */
  lemma {:induction false} BlocksAreFenceFree(s: string, p: nat)
    ensures FenceFreeIn(s, Blocks(s, p))
    decreases |s| - p
  {
    if p < |s| {
      match BlockAt(s, p)
      case None =>
        BlocksAreFenceFree(s, p + 1);
      case Some((b, n)) =>
        BlockAtFenceFree(s, p);
        BlocksAreFenceFree(s, n);
        FenceFreeCons(s, b, Blocks(s, n));
    }
  }

  /** Only triple backticks open a block: text without them (for instance fenced with `~~~`) yields none. */
  lemma {:induction false} NoBackticksNoBlocks(s: string, p: nat)
    requires forall j :: 0 <= j < |s| ==> !FenceAt(s, j)
    ensures Blocks(s, p) == []
    decreases |s| - p
  {
    if p < |s| {
      NoBackticksNoBlocks(s, p + 1);
    }
  }

  lemma NoFenceAnywhere(s: string)
    requires !Contains(s, FENCE)
    ensures FencedBlocks(s) == []
  {
    forall j | 0 <= j < |s| ensures !FenceAt(s, j) {
      if FenceAt(s, j) {
        ContainsAt(s, FENCE, j);
      }
    }
    NoBackticksNoBlocks(s, 0);
  }

  const CODE_INDICATORS: seq<string> := [
    "import ", "def ", "class ", "function ", "const ", "let ", "var ",
    "return ", "if (", "for (", "#!/", "pip ", "npm ", "git ", "python ",
    "$ ", "# Install", "brew ", "cargo "]

  predicate LooksLikeCode(block: string)
  {
    exists i :: 0 <= i < |CODE_INDICATORS| && Contains(block, CODE_INDICATORS[i])
  }

  /** A stripped block is kept when it is art, longer than 20 characters, and not code. */
  predicate KeepBlock(block: string)
  {
    IsAsciiArt(block) && |block| > 20 && !LooksLikeCode(block)
  }

  /** The stripped blocks that are kept, in document order. */
  function KeptBlocks(blocks: seq<string>): (r: seq<string>)
    ensures |r| <= |blocks|
  {
    if blocks == [] then []
    else
      var rest := KeptBlocks(blocks[..|blocks| - 1]);
      var last := Strip(blocks[|blocks| - 1]);
      if KeepBlock(last) then rest + [last] else rest
  }

  /** A block survives exactly when its stripped form passes the keep test. */
  lemma {:induction false} KeptBlocksMembers(blocks: seq<string>)
    ensures forall x :: x in KeptBlocks(blocks) <==> exists b :: b in blocks && KeepBlock(Strip(b)) && x == Strip(b)
  {
    if blocks != [] {
      KeptBlocksMembers(blocks[..|blocks| - 1]);
      assert forall b :: b in blocks <==> b in blocks[..|blocks| - 1] || b == blocks[|blocks| - 1];
    }
  }

  lemma KeptBlocksSnoc(blocks: seq<string>, b: string)
    ensures KeptBlocks(blocks + [b]) == KeptBlocks(blocks) + (if KeepBlock(Strip(b)) then [Strip(b)] else [])
  {
    assert (blocks + [b])[..|blocks|] == blocks;
  }

  /** One more block keeps its stripped form, if that passes the keep test. */
  lemma {:induction false} KeptBlocksStep(blocks: seq<string>, i: nat)
    requires i < |blocks|
    ensures KeptBlocks(blocks[..i + 1]) == KeptBlocks(blocks[..i]) + (if KeepBlock(Strip(blocks[i])) then [Strip(blocks[i])] else [])
  {
    assert blocks[..i + 1] == blocks[..i] + [blocks[i]];
    KeptBlocksSnoc(blocks[..i], blocks[i]);
  }

  /** `readme_banner.txt`, `readme_banner_2.txt`, `readme_banner_3.txt`, ... */
  function BannerName(n: nat): string
  {
    "readme_banner" + (if n > 1 then "_" + NatToString(n) else "") + ".txt"
  }

  lemma BannerNamesDistinct(m: nat, n: nat)
    requires 1 <= m && 1 <= n && m != n
    ensures BannerName(m) != BannerName(n)
  {
    if m > 1 && n > 1 {
      var a, b := BannerName(m), BannerName(n);
      if a == b {
        assert a[14..|a| - 4] == NatToString(m);
        assert b[14..|b| - 4] == NatToString(n);
        NatToStringInjective(m, n);
      }
    } else if m > 1 {
      assert BannerName(m)[13] == '_' && BannerName(n)[13] == '.';
    } else {
      assert BannerName(n)[13] == '_' && BannerName(m)[13] == '.';
    }
  }

  datatype Banner = Banner(content: string, name: string)

  /** `banners` are the blocks of `kept`, the i-th named `BannerName(i + 1)`. */
  predicate Numbered(banners: seq<Banner>, kept: seq<string>)
  {
    |banners| == |kept| && forall k :: 0 <= k < |banners| ==> banners[k] == Banner(kept[k], BannerName(k + 1))
  }

  /** The kept blocks named by their place: the last one gets the next number. */
  function Numbering(kept: seq<string>): (r: seq<Banner>)
    ensures |r| == |kept|
  {
    if kept == [] then [] else Numbering(kept[..|kept| - 1]) + [Banner(kept[|kept| - 1], BannerName(|kept|))]
  }

  /** The numbering names block `k` `BannerName(k + 1)`. */
  lemma {:induction false} NumberingMeaning(kept: seq<string>)
    ensures Numbered(Numbering(kept), kept)
  {
    if kept != [] {
      var n := |kept| - 1;
      NumberingMeaning(kept[..n]);
      assert forall k :: 0 <= k < n ==> kept[..n][k] == kept[k];
    }
  }

  /** One more block: numbered next when it is kept, else the numbering stays as it is. */
  lemma {:induction false} ExtractStep(blocks: seq<string>, i: nat, before: seq<Banner>)
    requires i < |blocks| && before == Numbering(KeptBlocks(blocks[..i]))
    ensures var b := Strip(blocks[i]);
      && (KeepBlock(b) ==> Numbering(KeptBlocks(blocks[..i + 1])) == before + [Banner(b, BannerName(|before| + 1))])
      && (!KeepBlock(b) ==> Numbering(KeptBlocks(blocks[..i + 1])) == before)
  {
    var b := Strip(blocks[i]);
    var kept := KeptBlocks(blocks[..i]);
    KeptBlocksStep(blocks, i);
    if KeepBlock(b) {
      assert KeptBlocks(blocks[..i + 1]) == kept + [b];
      NumberingSnoc(kept, b);
    } else {
      assert KeptBlocks(blocks[..i + 1]) == kept;
    }
  }

  /** Numbering one more block gives it the next number. */
  lemma {:induction false} NumberingSnoc(kept: seq<string>, b: string)
    ensures Numbering(kept + [b]) == Numbering(kept) + [Banner(b, BannerName(|kept| + 1))]
  {
    var k2 := kept + [b];
    assert k2[..|kept|] == kept;
    assert k2[|kept|] == b;
  }

  // ---------------------------------------------------------------
  //  State keys
  // ---------------------------------------------------------------

  /** `get_asset_key`: `type/source/name`. */
  function AssetKey(a: Asset): string
  {
    TypeName(a.assetType) + "/" + a.source + "/" + a.name
  }

  /** `get_sync_path`: `repos/type/source/name`, relative to the repository root. */
  function SyncPath(a: Asset): string
  {
    "repos/" + TypeName(a.assetType) + "/" + a.source + "/" + a.name
  }

  /** The local path is the key under `repos/`, and the key names type, source and name unambiguously. */
  lemma KeyIdentifiesAsset(a: Asset, b: Asset)
    requires '/' !in a.source && '/' !in b.source
    ensures SyncPath(a) == "repos/" + AssetKey(a)
    ensures AssetKey(a) == AssetKey(b) <==> a.assetType == b.assetType && a.source == b.source && a.name == b.name
  {
    if AssetKey(a) == AssetKey(b) {
      var ta, tb := TypeName(a.assetType), TypeName(b.assetType);
      assert AssetKey(a) == ta + ['/'] + (a.source + "/" + a.name);
      assert AssetKey(b) == tb + ['/'] + (b.source + "/" + b.name);
      SplitAtSeparator(ta, a.source + "/" + a.name, tb, b.source + "/" + b.name, '/');
      assert a.source + "/" + a.name == a.source + ['/'] + a.name;
      SplitAtSeparator(a.source, a.name, b.source, b.name, '/');
    }
  }

  /** `needs_sync`: the file is missing locally, or the recorded hash for its key is not its sha. */
  predicate NeedsSync(a: Asset, localFiles: set<string>, state: map<string, string>)
  {
    SyncPath(a) !in localFiles || !(AssetKey(a) in state && state[AssetKey(a)] == a.sha)
  }

  // ---------------------------------------------------------------
  //  Repository scan
  // ---------------------------------------------------------------

  datatype ItemKind = FileItem | DirItem | OtherItem

  /** An entry of a GitHub contents listing (missing keys default as in the script). */
  datatype Item = Item(name: string, kind: ItemKind, path: string, size: int, sha: string, downloadUrl: string)

  const README_NAMES: seq<string> := ["readme.md", "readme.txt", "readme"]

  /** The last root file whose lower-cased name is a README name. */
  function ReadmeItem(items: seq<Item>): Option<Item>
  {
    if items == [] then None
    else
      var it := items[|items| - 1];
      if it.kind == FileItem && Lower(it.name) in README_NAMES then Some(it)
      else ReadmeItem(items[..|items| - 1])
  }

  /** The root directories whose lower-cased name is a configured source directory, in listing order. */
  function DirsToScan(cfg: Config, items: seq<Item>): seq<string>
  {
    if items == [] then []
    else
      var it := items[|items| - 1];
      DirsToScan(cfg, items[..|items| - 1]) + (if it.kind == DirItem && Lower(it.name) in cfg.sourceDirs then [it.name] else [])
  }

  /** A listed file with a category other than `other`, classified with the given content. */
  function FileAsset(cfg: Config, repo: string, it: Item, path: string, content: Option<string>): seq<Asset>
  {
    var t := GetAssetType(cfg.ignore, it.name, content);
    if it.kind == FileItem && t != Other then [Asset(repo, path, it.name, it.size, it.sha, it.downloadUrl, t, None)] else []
  }

  /** The assets among the root files, classified by name alone; their path is their name. */
  function RootAssets(cfg: Config, repo: string, items: seq<Item>): seq<Asset>
  {
    if items == [] then []
    else
      var it := items[|items| - 1];
      RootAssets(cfg, repo, items[..|items| - 1]) + FileAsset(cfg, repo, it, it.name, None)
  }

  /** The synthetic assets for the README banners. */
  function BannerAssets(repo: string, readmeSha: string, kept: seq<string>): (r: seq<Asset>)
    ensures |r| == |kept|
  {
    seq(|kept|, i requires 0 <= i < |kept| =>
      Asset(repo, "README.md#" + BannerName(i + 1), BannerName(i + 1), |kept[i]|,
            readmeSha + "_" + BannerName(i + 1), "", Banners, Some(kept[i])))
  }

  /**
   * The content looked at for a file in a scanned directory: only for `.txt`
   * or suffix-less files under 50000 bytes, and only when the fetch worked.
   */
  function DirFileContent(it: Item, texts: map<string, string>): Option<string>
  {
    if Lower(Suffix(it.name)) in [".txt", ""] && it.size < 50000 && it.path in texts then Some(texts[it.path]) else None
  }

  function ListingAssets(cfg: Config, repo: string, items: seq<Item>, texts: map<string, string>): seq<Asset>
  {
    if items == [] then []
    else
      var it := items[|items| - 1];
      ListingAssets(cfg, repo, items[..|items| - 1], texts) + FileAsset(cfg, repo, it, it.path, DirFileContent(it, texts))
  }

  /** One more entry of a listing adds that entry's asset, if it is one. */
  lemma {:induction false} ListingAssetsStep(cfg: Config, repo: string, items: seq<Item>, texts: map<string, string>, k: nat)
    requires k < |items|
    ensures ListingAssets(cfg, repo, items[..k + 1], texts)
      == ListingAssets(cfg, repo, items[..k], texts) + FileAsset(cfg, repo, items[k], items[k].path, DirFileContent(items[k], texts))
  {
    assert items[..k + 1][..k] == items[..k];
    assert items[..k + 1][k] == items[k];
  }

  function Listing(listings: map<string, seq<Item>>, dir: string): seq<Item>
  {
    if dir in listings then listings[dir] else []
  }

  function DirAssets(cfg: Config, repo: string, dirs: seq<string>, listings: map<string, seq<Item>>, texts: map<string, string>): seq<Asset>
  {
    if dirs == [] then []
    else
      DirAssets(cfg, repo, dirs[..|dirs| - 1], listings, texts)
      + ListingAssets(cfg, repo, Listing(listings, dirs[|dirs| - 1]), texts)
  }

  /** The README banners, when there is a README and its text could be fetched. */
  function ReadmeAssets(repo: string, items: seq<Item>, readmeText: Option<string>): seq<Asset>
  {
    match ReadmeItem(items)
    case None => []
    case Some(it) =>
      if readmeText.Some? then BannerAssets(repo, it.sha, KeptBlocks(FencedBlocks(readmeText.value))) else []
  }

  /** Every asset the scan can produce is filed under a real category. */
  lemma {:induction false} ScanAssetsCategorised(cfg: Config, repo: string, items: seq<Item>, readmeText: Option<string>,
                                                 dirs: seq<string>, listings: map<string, seq<Item>>, texts: map<string, string>)
    ensures forall a :: a in RootAssets(cfg, repo, items) + ReadmeAssets(repo, items, readmeText)
                               + DirAssets(cfg, repo, dirs, listings, texts)
                        ==> a.assetType != Other && a.source == repo
  {
    RootCategorised(cfg, repo, items);
    DirCategorised(cfg, repo, dirs, listings, texts);
  }

  lemma {:induction false} RootCategorised(cfg: Config, repo: string, items: seq<Item>)
    ensures forall a :: a in RootAssets(cfg, repo, items) ==> a.assetType != Other && a.source == repo && a.path == a.name
  {
    if items != [] {
      RootCategorised(cfg, repo, items[..|items| - 1]);
    }
  }

  lemma {:induction false} ListingCategorised(cfg: Config, repo: string, items: seq<Item>, texts: map<string, string>)
    ensures forall a :: a in ListingAssets(cfg, repo, items, texts) ==> a.assetType != Other && a.source == repo
  {
    if items != [] {
      ListingCategorised(cfg, repo, items[..|items| - 1], texts);
    }
  }

  lemma {:induction false} DirCategorised(cfg: Config, repo: string, dirs: seq<string>, listings: map<string, seq<Item>>, texts: map<string, string>)
    ensures forall a :: a in DirAssets(cfg, repo, dirs, listings, texts) ==> a.assetType != Other && a.source == repo
  {
    if dirs != [] {
      DirCategorised(cfg, repo, dirs[..|dirs| - 1], listings, texts);
      ListingCategorised(cfg, repo, Listing(listings, dirs[|dirs| - 1]), texts);
    }
  }

  /** A README banner asset: path `README.md#name`, sha `readme-sha_name`, no URL, and its text on board. */
  lemma BannerAssetShape(repo: string, readmeSha: string, kept: seq<string>, i: nat)
    requires i < |kept|
    ensures var a := BannerAssets(repo, readmeSha, kept)[i];
      a.path == "README.md#" + a.name && a.sha == readmeSha + "_" + a.name && a.name == BannerName(i + 1)
      && a.downloadUrl == "" && a.assetType == Banners && a.extracted == Some(kept[i]) && a.size == |kept[i]|
  {
  }

  /** One more kept block adds its banner asset. */
  lemma {:induction false} BannerAssetsStep(repo: string, readmeSha: string, kept: seq<string>, j: nat)
    requires j < |kept|
    ensures BannerAssets(repo, readmeSha, kept[..j + 1]) == BannerAssets(repo, readmeSha, kept[..j])
      + [Asset(repo, "README.md#" + BannerName(j + 1), BannerName(j + 1), |kept[j]|,
               readmeSha + "_" + BannerName(j + 1), "", Banners, Some(kept[j]))]
  {
    var front, next := BannerAssets(repo, readmeSha, kept[..j]), BannerAssets(repo, readmeSha, kept[..j + 1]);
    assert forall i :: 0 <= i < j ==> kept[..j + 1][i] == kept[..j][i];
    assert next[..j] == front;
  }

}

/**
 * The scan loops of the sync engine, each proved against the discovery
 * functions of `HakcAssets`.
 */
module HakcScan {
  import opened Wrappers
  import opened PyStr
  import opened PyPath
  import opened HakcAssets

  /** `_extract_banners_from_readme`: the kept blocks, numbered from 1 in document order. */
  method ExtractBanners(content: string) returns (banners: seq<Banner>)
    ensures banners == Numbering(KeptBlocks(FencedBlocks(content)))
  {
    var matches := FencedBlocks(content);
    banners := NumberBlocks(matches);
  }

  /** The loop of `_extract_banners_from_readme` over the fenced blocks: keep, strip and number. */
  method NumberBlocks(matches: seq<string>) returns (banners: seq<Banner>)
    ensures banners == Numbering(KeptBlocks(matches))
  {
    banners := [];
    var bannerNum := 0;
    var i := 0;
    while i < |matches|
      invariant 0 <= i <= |matches|
      invariant bannerNum == |banners|
      invariant banners == Numbering(KeptBlocks(matches[..i]))
    {
      var block := Strip(matches[i]);
      var keep := KeepBlock(block);
      assert keep ==> Numbering(KeptBlocks(matches[..i + 1])) == banners + [Banner(block, BannerName(bannerNum + 1))] by {
        ExtractStep(matches, i, banners);
      }
      assert !keep ==> Numbering(KeptBlocks(matches[..i + 1])) == banners by {
        ExtractStep(matches, i, banners);
      }
      if keep {
        bannerNum := bannerNum + 1;
        banners := banners + [Banner(block, BannerName(bannerNum))];
      }
      i := i + 1;
    }
    assert matches[..i] == matches;
  }

  /** The pass over the root listing: root assets, directories to descend into, and the README. */
  method ScanRoot(cfg: Config, repo: string, rootItems: seq<Item>)
    returns (assets: seq<Asset>, dirsToScan: seq<string>, readmeItem: Option<Item>)
    ensures assets == RootAssets(cfg, repo, rootItems)
    ensures dirsToScan == DirsToScan(cfg, rootItems)
    ensures readmeItem == ReadmeItem(rootItems)
  {
    assets := [];
    dirsToScan := [];
    readmeItem := None;
    var i := 0;
    while i < |rootItems|
      invariant 0 <= i <= |rootItems|
      invariant assets == RootAssets(cfg, repo, rootItems[..i])
      invariant dirsToScan == DirsToScan(cfg, rootItems[..i])
      invariant readmeItem == ReadmeItem(rootItems[..i])
    {
      var item := rootItems[i];
      assert rootItems[..i + 1][..i] == rootItems[..i];
      if item.kind == DirItem && Lower(item.name) in cfg.sourceDirs {
        dirsToScan := dirsToScan + [item.name];
      } else if item.kind == FileItem {
        if Lower(item.name) in README_NAMES {
          readmeItem := Some(item);
        }
        var t := GetAssetType(cfg.ignore, item.name, None);
        if t != Other {
          assets := assets + [Asset(repo, item.name, item.name, item.size, item.sha, item.downloadUrl, t, None)];
        }
      }
      i := i + 1;
    }
    assert rootItems[..i] == rootItems;
  }

  /** The pass over one source directory's listing. */
  method ScanListing(cfg: Config, repo: string, listing: seq<Item>, texts: map<string, string>) returns (assets: seq<Asset>)
    ensures assets == ListingAssets(cfg, repo, listing, texts)
  {
    assets := [];
    var k := 0;
    while k < |listing|
      invariant 0 <= k <= |listing|
      invariant assets == ListingAssets(cfg, repo, listing[..k], texts)
    {
      var item := listing[k];
      ListingAssetsStep(cfg, repo, listing, texts, k);
      if item.kind == FileItem {
        var content := DirFileContent(item, texts);
        var t := GetAssetType(cfg.ignore, item.name, content);
        if t != Other {
          assets := assets + [Asset(repo, item.path, item.name, item.size, item.sha, item.downloadUrl, t, None)];
        }
      }
      k := k + 1;
    }
    assert listing[..k] == listing;
  }

  /** The virtual assets made from the README's banners. */
  method ReadmeBanners(repo: string, readmeSha: string, readme: string) returns (found: seq<Asset>)
    ensures found == BannerAssets(repo, readmeSha, KeptBlocks(FencedBlocks(readme)))
  {
    var banners := ExtractBanners(readme);
    ghost var kept := KeptBlocks(FencedBlocks(readme));
    NumberingMeaning(kept);
    found := [];
    var j := 0;
    while j < |banners|
      invariant 0 <= j <= |banners| == |kept|
      invariant Numbered(banners, kept)
      invariant found == BannerAssets(repo, readmeSha, kept[..j])
    {
      var b := banners[j];
      assert b == Banner(kept[j], BannerName(j + 1));
      BannerAssetsStep(repo, readmeSha, kept, j);
      found := found + [Asset(repo, "README.md#" + b.name, b.name, |b.content|,
                              readmeSha + "_" + b.name, "", Banners, Some(b.content))];
      j := j + 1;
    }
    assert kept[..j] == kept;
  }

  /**
   * `scan_repo` over given listings: `rootItems` is the root listing,
   * `readmeText` the decoded README (when the fetch worked), `listings` the
   * listing of each directory and `texts` the decoded content of the files
   * whose fetch worked.
   */
  method ScanRepo(cfg: Config, repo: string, rootItems: seq<Item>, readmeText: Option<string>,
                  listings: map<string, seq<Item>>, texts: map<string, string>) returns (assets: seq<Asset>)
    ensures repo in cfg.excludeRepos ==> assets == []
    ensures repo !in cfg.excludeRepos ==>
      assets == RootAssets(cfg, repo, rootItems) + ReadmeAssets(repo, rootItems, readmeText)
                + DirAssets(cfg, repo, DirsToScan(cfg, rootItems), listings, texts)
  {
    if repo in cfg.excludeRepos {
      return [];
    }
    var rootFound, dirsToScan, readmeItem := ScanRoot(cfg, repo, rootItems);
    var bannerFound := [];
    if readmeItem.Some? && readmeText.Some? {
      bannerFound := ReadmeBanners(repo, readmeItem.value.sha, readmeText.value);
    }
    assert bannerFound == ReadmeAssets(repo, rootItems, readmeText);
    var dirFound := ScanDirs(cfg, repo, dirsToScan, listings, texts);
    assets := rootFound + bannerFound + dirFound;
  }

  /** The pass over the source directories, in the order they were listed. */
  method ScanDirs(cfg: Config, repo: string, dirsToScan: seq<string>, listings: map<string, seq<Item>>,
                  texts: map<string, string>) returns (assets: seq<Asset>)
    ensures assets == DirAssets(cfg, repo, dirsToScan, listings, texts)
  {
    assets := [];
    var d := 0;
    while d < |dirsToScan|
      invariant 0 <= d <= |dirsToScan|
      invariant assets == DirAssets(cfg, repo, dirsToScan[..d], listings, texts)
    {
      var found := ScanListing(cfg, repo, Listing(listings, dirsToScan[d]), texts);
      assets := assets + found;
      assert dirsToScan[..d + 1][..d] == dirsToScan[..d];
      d := d + 1;
    }
    assert dirsToScan[..d] == dirsToScan;
  }
}
