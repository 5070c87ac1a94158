/**
 * The organisation scanner: a second sync tool that files assets by
 * repository and then by type, and keeps the last hash per repository and
 * path, rather than per category, source and name.
 */
module SyncOrg {
  import opened Wrappers
  import opened PyStr
  import opened PyPath
  import opened Dicts

  /** `ASSET_EXTENSIONS`, in the order the dict is written (and so iterated). */
  const ASSET_EXTENSIONS: Dict<string, seq<string>> := [
    ("images", [".png", ".jpg", ".jpeg", ".gif", ".svg", ".webp", ".ico"]),
    ("banners", [".txt", ".ans", ".asc", ".nfo"]),
    ("media", [".mp4", ".gif", ".webm", ".mov"]),
    ("docs", [".pdf"])
  ]

  /** `BANNER_PATTERNS`: substrings of a lower-cased file name that mark a banner. */
  const BANNER_PATTERNS: seq<string> := ["banner", "ascii", "logo.txt", "header.txt"]

  /** The characters whose presence in a `.txt` file's text marks it as a banner. */
  const ART_CHARS: string := "█▓▒░╔╗╚╝│─"

  /** The name under which the scanner finds its own repository, which it never scans. */
  const SELF_REPO: string := "haKCAssets"

  /** An asset found in a repository: `path` is its path inside the repository, `assetType` its category. */
  datatype Asset = Asset(repo: string, path: string, name: string, size: int, sha: string, downloadUrl: string,
                         assetType: string)

  /** `.sync_state.json` of this tool: the last sync time and, per repository, the hash of each path fetched. */
  datatype OrgState = OrgState(lastSync: string, repos: map<string, map<string, string>>)

  const DEFAULT_STATE := OrgState("", map[])

  /** `_load_state`: a missing file, or one that does not decode to a state, gives the defaults. */
  function LoadState(stored: Option<OrgState>): OrgState
  {
    stored.GetOr(DEFAULT_STATE)
  }

  predicate NamedBanner(nameLower: string)
  {
    exists i :: 0 <= i < |BANNER_PATTERNS| && Contains(nameLower, BANNER_PATTERNS[i])
  }

  /** The first category, in dict order, whose extension list holds `ext`. */
  function FirstCategory(cats: Dict<string, seq<string>>, ext: string): (r: Option<string>)
    ensures r.Some? ==> exists i :: 0 <= i < |cats| && ext in cats[i].1 && r.value == cats[i].0
                                    && forall j :: 0 <= j < i ==> ext !in cats[j].1
    ensures r.None? <==> forall i :: 0 <= i < |cats| ==> ext !in cats[i].1
  {
    if cats == [] then None
    else if ext in cats[0].1 then Some(cats[0].0)
    else
      var r := FirstCategory(cats[1..], ext);
      assert forall i :: 1 <= i < |cats| ==> cats[i] == cats[1..][i - 1];
      r
  }

  /**
   * `_get_file_type`: the first category whose extensions hold the file's
   * extension wins. The `.txt` special case returns `banners` either way,
   * since `.txt` is itself a banner extension. A file with no known
   * extension is a banner when its name says so, else `other`.
   */
  function GetFileType(filename: string, content: Option<string>): string
  {
    var ext := Lower(Suffix(filename));
    var nameLower := Lower(filename);
    match FirstCategory(ASSET_EXTENSIONS, ext)
    case Some(t) =>
      if ext == ".txt" then
        if NamedBanner(nameLower) then "banners"
        else if content.Some? && content.value != "" && (exists i :: 0 <= i < |content.value| && content.value[i] in ART_CHARS) then "banners"
        else t
      else t
    case None =>
      if NamedBanner(nameLower) then "banners" else "other"
  }

  /** The first category holding the extension decides, also for `.txt`, whatever the name or the text. */
  lemma FirstCategoryWins(filename: string, content: Option<string>)
    ensures FirstCategory(ASSET_EXTENSIONS, Lower(Suffix(filename))).Some? ==>
      GetFileType(filename, content) == FirstCategory(ASSET_EXTENSIONS, Lower(Suffix(filename))).value
  {
    var ext := Lower(Suffix(filename));
    if ext == ".txt" {
      assert ext in ASSET_EXTENSIONS[1].1 && ext !in ASSET_EXTENSIONS[0].1;
    }
  }

  /** `.gif` and `.ico` are images, never media. */
  lemma GifAndIcoAreImages(filename: string, content: Option<string>)
    requires Lower(Suffix(filename)) in [".gif", ".ico"]
    ensures GetFileType(filename, content) == "images"
  {
    var ext := Lower(Suffix(filename));
    assert ext in ASSET_EXTENSIONS[0].1;
  }

  /** Every text extension gives `banners`. */
  lemma TextIsBanner(filename: string, content: Option<string>)
    requires Lower(Suffix(filename)) in [".txt", ".ans", ".asc", ".nfo"]
    ensures GetFileType(filename, content) == "banners"
  {
    var ext := Lower(Suffix(filename));
    assert ext in ASSET_EXTENSIONS[1].1 && ext !in ASSET_EXTENSIONS[0].1;
  }

  /** The three video extensions that are not also image extensions give `media`. */
  lemma VideoIsMedia(filename: string, content: Option<string>)
    requires Lower(Suffix(filename)) in [".mp4", ".webm", ".mov"]
    ensures GetFileType(filename, content) == "media"
  {
    var ext := Lower(Suffix(filename));
    assert ext !in ASSET_EXTENSIONS[0].1 && ext !in ASSET_EXTENSIONS[1].1 && ext in ASSET_EXTENSIONS[2].1;
  }

  /** And only they do. */
  lemma MediaIsVideo(filename: string, content: Option<string>)
    requires GetFileType(filename, content) == "media"
    ensures Lower(Suffix(filename)) in [".mp4", ".webm", ".mov"]
  {
    var ext := Lower(Suffix(filename));
    var c := FirstCategory(ASSET_EXTENSIONS, ext);
    FirstCategoryWins(filename, content);
    assert c == Some("media");
    var i :| 0 <= i < |ASSET_EXTENSIONS| && ext in ASSET_EXTENSIONS[i].1 && c.value == ASSET_EXTENSIONS[i].0
             && forall j :: 0 <= j < i ==> ext !in ASSET_EXTENSIONS[j].1;
    assert i == 2;
    assert ext !in ASSET_EXTENSIONS[0].1;
  }

  /** A file whose extension no category lists is a banner exactly when its name says so, and otherwise `other`. */
  lemma UnknownExtension(filename: string, content: Option<string>)
    requires forall i :: 0 <= i < |ASSET_EXTENSIONS| ==> Lower(Suffix(filename)) !in ASSET_EXTENSIONS[i].1
    ensures GetFileType(filename, content) == (if NamedBanner(Lower(filename)) then "banners" else "other")
  {
  }

  /** The directory of a category under the repository's folder: the four known ones, else `other`. */
  function TypeDir(assetType: string): string
  {
    if assetType in ["images", "banners", "media", "docs"] then assetType else "other"
  }

  /** `get_local_path`, relative to the repository root. */
  function LocalPath(a: Asset): string
  {
    "repos/" + a.repo + "/" + TypeDir(a.assetType) + "/" + a.name
  }

  /**
   * The local path names the repository, the category directory and the
   * name; two assets of one repository and category with the same name but
   * different paths share one local file.
   */
  lemma {:induction false} LocalPathShape(a: Asset, b: Asset)
    ensures TypeDir(a.assetType) in ["images", "banners", "media", "docs", "other"]
    ensures a.repo == b.repo && TypeDir(a.assetType) == TypeDir(b.assetType) && a.name == b.name ==> LocalPath(a) == LocalPath(b)
    ensures ('/' !in a.repo && '/' !in b.repo && '/' !in TypeDir(a.assetType) && '/' !in TypeDir(b.assetType)
             && LocalPath(a) == LocalPath(b)) ==> a.repo == b.repo && TypeDir(a.assetType) == TypeDir(b.assetType) && a.name == b.name
  {
    var ta, tb := TypeDir(a.assetType), TypeDir(b.assetType);
    if '/' !in a.repo && '/' !in b.repo && '/' !in ta && '/' !in tb && LocalPath(a) == LocalPath(b) {
      assert LocalPath(a) == "repos/" + (a.repo + "/" + ta + "/" + a.name) by { Join5("repos/", a.repo, "/", ta, "/", a.name); }
      assert LocalPath(b) == "repos/" + (b.repo + "/" + tb + "/" + b.name) by { Join5("repos/", b.repo, "/", tb, "/", b.name); }
      PrefixCancel("repos/", a.repo + "/" + ta + "/" + a.name, b.repo + "/" + tb + "/" + b.name);
      ThreeParts(a.repo, ta, a.name, b.repo, tb, b.name);
    }
  }

  /** The hash recorded for an asset's repository and path, if any. */
  function StoredSha(repos: map<string, map<string, string>>, a: Asset): Option<string>
  {
    if a.repo in repos && a.path in repos[a.repo] then Some(repos[a.repo][a.path]) else None
  }

  /** `needs_sync`: the local file is missing, or the recorded hash is missing or differs. */
  predicate NeedsSync(a: Asset, files: set<string>, repos: map<string, map<string, string>>)
  {
    LocalPath(a) !in files || StoredSha(repos, a) != Some(a.sha)
  }

  /** The state update of a successful `download_asset`: the repository map is made if missing, then one path set. */
  function Record(repos: map<string, map<string, string>>, a: Asset): map<string, map<string, string>>
  {
    var inner := if a.repo in repos then repos[a.repo] else map[];
    repos[a.repo := inner[a.path := a.sha]]
  }

  /**
   * A download records the asset's hash, so with its file present it needs
   * no sync; every other repository and every other path keeps its hash.
   */
  lemma RecordEffect(repos: map<string, map<string, string>>, a: Asset, files: set<string>)
    ensures !NeedsSync(a, files + {LocalPath(a)}, Record(repos, a))
    ensures forall b: Asset :: (b.repo != a.repo || b.path != a.path) ==> StoredSha(Record(repos, a), b) == StoredSha(repos, b)
    ensures forall r :: r in repos ==> r in Record(repos, a)
  {
  }

  function RecordAll(repos: map<string, map<string, string>>, synced: seq<Asset>): map<string, map<string, string>>
  {
    if synced == [] then repos
    else Record(RecordAll(repos, synced[..|synced| - 1]), synced[|synced| - 1])
  }

  /** A run of downloads changes the hash of no repository and path it did not fetch. */
  lemma {:induction false} RecordAllOthers(repos: map<string, map<string, string>>, synced: seq<Asset>, b: Asset)
    requires forall a :: a in synced ==> a.repo != b.repo || a.path != b.path
    ensures StoredSha(RecordAll(repos, synced), b) == StoredSha(repos, b)
  {
    if synced != [] {
      var init := synced[..|synced| - 1];
      assert forall a :: a in init ==> a in synced;
      RecordAllOthers(repos, init, b);
      RecordEffect(RecordAll(repos, init), synced[|synced| - 1], {});
    }
  }

  /** `[a for a in self.assets if self.needs_sync(a)]`. */
  function ToSync(assets: seq<Asset>, files: set<string>, repos: map<string, map<string, string>>): (r: seq<Asset>)
    ensures forall a :: a in r <==> a in assets && NeedsSync(a, files, repos)
  {
    if assets == [] then []
    else
      var last := assets[|assets| - 1];
      var init := ToSync(assets[..|assets| - 1], files, repos);
      assert forall a :: a in assets <==> a in assets[..|assets| - 1] || a == last;
      if NeedsSync(last, files, repos) then init + [last] else init
  }

  /** The assets among `toSync` whose fetch works, in order; `fetched` says which fetches work. */
  function Successful(toSync: seq<Asset>, fetched: set<Asset>): (r: seq<Asset>)
    ensures forall a :: a in r <==> a in toSync && a in fetched
  {
    if toSync == [] then []
    else
      var last := toSync[|toSync| - 1];
      var init := Successful(toSync[..|toSync| - 1], fetched);
      assert forall a :: a in toSync <==> a in toSync[..|toSync| - 1] || a == last;
      if last in fetched then init + [last] else init
  }

  function LocalPaths(synced: seq<Asset>): set<string>
  {
    set a | a in synced :: LocalPath(a)
  }

  /** One more asset to sync is added to the successful ones exactly when it was fetched. */
  lemma {:induction false} SuccessfulStep(toSync: seq<Asset>, fetched: set<Asset>, i: nat)
    requires i < |toSync|
    ensures Successful(toSync[..i + 1], fetched)
      == Successful(toSync[..i], fetched) + (if toSync[i] in fetched then [toSync[i]] else [])
  {
    assert toSync[..i + 1][..i] == toSync[..i];
  }

  lemma {:induction false} RecordAllSnoc(repos: map<string, map<string, string>>, synced: seq<Asset>, a: Asset)
    ensures RecordAll(repos, synced + [a]) == Record(RecordAll(repos, synced), a)
  {
    assert (synced + [a])[..|synced|] == synced;
  }

  lemma {:induction false} LocalPathsSnoc(synced: seq<Asset>, a: Asset)
    ensures LocalPaths(synced + [a]) == LocalPaths(synced) + {LocalPath(a)}
  {
  }

  /** The sequence of repositories `scan_all` visits: the one asked for, else the organisation's list. */
  function ReposToScan(specific: Option<string>, listed: seq<string>): seq<string>
  {
    if specific.Some? && specific.value != "" then [specific.value] else listed
  }

  /** What a scan of `repos` collects, in order; `found` holds what `scan_repo` gives for each repository. */
  function Collected(repos: seq<string>, found: map<string, seq<Asset>>): seq<Asset>
  {
    if repos == [] then []
    else
      var r := repos[|repos| - 1];
      var init := Collected(repos[..|repos| - 1], found);
      if r == SELF_REPO then init else init + (if r in found then found[r] else [])
  }

  /** When each repository's scan reports assets of that repository, nothing collected comes from the scanner's own one. */
  lemma {:induction false} CollectedSkipsSelf(repos: seq<string>, found: map<string, seq<Asset>>)
    requires forall r :: r in found ==> forall a :: a in found[r] ==> a.repo == r
    ensures forall a :: a in Collected(repos, found) ==> a.repo != SELF_REPO && a.repo in repos
  {
    if repos != [] {
      var init := repos[..|repos| - 1];
      CollectedSkipsSelf(init, found);
      assert forall r :: r in init ==> r in repos;
    }
  }

  /** The local files and the state file this tool writes. */
  class OrgDisk {
    var files: set<string>
    var stateFile: Option<OrgState>

    constructor(files: set<string>, stateFile: Option<OrgState>)
      ensures this.files == files && this.stateFile == stateFile
    {
      this.files := files;
      this.stateFile := stateFile;
    }
  }

  /** `OrgScanner`: the state read at start, and the assets of the last scan. */
  class OrgScanner {
    const org: string
    var state: OrgState
    var assets: seq<Asset>

    constructor(org: string, stored: Option<OrgState>)
      ensures this.org == org && state == LoadState(stored) && assets == []
    {
      this.org := org;
      state := LoadState(stored);
      assets := [];
    }

    /** `scan_all`: the assets of each repository visited, in order, skipping the scanner's own repository. */
    method ScanAll(specific: Option<string>, listed: seq<string>, found: map<string, seq<Asset>>) returns (r: seq<Asset>)
      modifies this
      ensures r == assets && assets == Collected(ReposToScan(specific, listed), found)
      ensures state == old(state)
    {
      assets := [];
      var repos := ReposToScan(specific, listed);
      var i := 0;
      while i < |repos|
        invariant 0 <= i <= |repos|
        invariant assets == Collected(repos[..i], found)
        invariant state == old(state)
      {
        assert repos[..i + 1][..i] == repos[..i];
        var name := repos[i];
        if name != SELF_REPO {
          var got := if name in found then found[name] else [];
          assets := assets + got;
        }
        i := i + 1;
      }
      assert repos[..i] == repos;
      r := assets;
    }

    /**
     * `download_asset`: the fetch into the local path; on success the
     * repository's map is made if missing and the path's hash set.
     */
    method DownloadAsset(a: Asset, fetched: set<Asset>, disk: OrgDisk) returns (ok: bool)
      modifies this, disk
      ensures ok == (a in fetched)
      ensures state == old(state).(repos := if ok then Record(old(state.repos), a) else old(state.repos))
      ensures disk.files == old(disk.files) + (if ok then {LocalPath(a)} else {})
      ensures assets == old(assets) && disk.stateFile == old(disk.stateFile)
    {
      ok := false;
      if a in fetched {
        disk.files := disk.files + {LocalPath(a)};
        var repos := state.repos;
        if a.repo !in repos {
          repos := repos[a.repo := map[]];
        }
        repos := repos[a.repo := repos[a.repo][a.path := a.sha]];
        state := state.(repos := repos);
        ok := true;
      }
    }

    /** The download loop of `sync`. */
    method DownloadAll(toSync: seq<Asset>, fetched: set<Asset>, disk: OrgDisk)
      modifies this, disk
      ensures state == old(state).(repos := RecordAll(old(state.repos), Successful(toSync, fetched)))
      ensures disk.files == old(disk.files) + LocalPaths(Successful(toSync, fetched))
      ensures assets == old(assets) && disk.stateFile == old(disk.stateFile)
    {
      var i := 0;
      ghost var done: seq<Asset> := [];
      while i < |toSync|
        invariant 0 <= i <= |toSync|
        invariant done == Successful(toSync[..i], fetched)
        invariant state == old(state).(repos := RecordAll(old(state.repos), done))
        invariant disk.files == old(disk.files) + LocalPaths(done)
        invariant assets == old(assets) && disk.stateFile == old(disk.stateFile)
      {
        done := DownloadNext(toSync, i, fetched, disk, old(state.repos), old(disk.files), done);
        i := i + 1;
      }
      assert toSync[..i] == toSync;
    }

    /** One turn of the download loop of `sync`: the next asset, and what has worked so far. */
    method DownloadNext(toSync: seq<Asset>, i: nat, fetched: set<Asset>, disk: OrgDisk,
                        ghost repos0: map<string, map<string, string>>, ghost files0: set<string>,
                        ghost done: seq<Asset>) returns (ghost next: seq<Asset>)
      requires i < |toSync| && done == Successful(toSync[..i], fetched)
      requires state.repos == RecordAll(repos0, done) && disk.files == files0 + LocalPaths(done)
      modifies this, disk
      ensures next == Successful(toSync[..i + 1], fetched)
      ensures state == old(state).(repos := RecordAll(repos0, next))
      ensures disk.files == files0 + LocalPaths(next)
      ensures assets == old(assets) && disk.stateFile == old(disk.stateFile)
    {
      var ok := DownloadAsset(toSync[i], fetched, disk);
      SuccessfulStep(toSync, fetched, i);
      next := done;
      if ok {
        next := done + [toSync[i]];
        RecordAllSnoc(repos0, done, toSync[i]);
        LocalPathsSnoc(done, toSync[i]);
      }
    }

    /**
     * `sync`: picks the assets needing a sync; with none, nothing happens.
     * Otherwise a dry run changes nothing, and an applied run downloads
     * each in turn and then saves the state with `last_sync` set, whether
     * or not any download worked. The result is every asset that needed a
     * sync.
     */
    method Sync(dryRun: bool, fetched: set<Asset>, now: string, disk: OrgDisk) returns (toSync: seq<Asset>)
      modifies this, disk
      ensures toSync == ToSync(old(assets), old(disk.files), old(state.repos))
      ensures assets == old(assets)
      ensures dryRun || toSync == [] ==>
        state == old(state) && disk.files == old(disk.files) && disk.stateFile == old(disk.stateFile)
      ensures !dryRun && toSync != [] ==>
        var ok := Successful(toSync, fetched);
        && state == OrgState(now, RecordAll(old(state.repos), ok))
        && disk.files == old(disk.files) + LocalPaths(ok)
        && disk.stateFile == Some(state)
    {
      toSync := ToSync(assets, disk.files, state.repos);
      if toSync == [] {
        return;
      }
      if !dryRun {
        DownloadAll(toSync, fetched, disk);
        state := state.(lastSync := now);
        disk.stateFile := Some(state);
      }
    }
  }
}
