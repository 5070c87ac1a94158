/**
 * The sync half of the `haKCAssets` manager: the state file mapping each
 * asset key to the hash last fetched, the cache of category manifests, the
 * download step and the sync pass.
 */
module AssetSync {
  import opened Wrappers
  import opened Dicts
  import opened Manifests
  import opened MasterManifest
  import opened HakcAssets

  /** `.sync_state.json`; a missing or undecodable file gives the defaults. */
  datatype SyncState = SyncState(lastSync: string, lastOrganize: string, assets: map<string, string>)

  const DEFAULT_STATE := SyncState("", "", map[])

  /** The files the manager reads and writes, apart from the assets' own bytes. */
  class Disk {
    /** Local paths that exist, relative to the repository root. */
    var files: set<string>
    /** What each `repos/<type>/manifest.json` holds, by category. */
    var manifests: map<string, Stored>
    var stateFile: Option<SyncState>
    var master: Option<Master>

    constructor(files: set<string>, manifests: map<string, Stored>, stateFile: Option<SyncState>)
      ensures this.files == files && this.manifests == manifests && this.stateFile == stateFile && master == None
    {
      this.files := files;
      this.manifests := manifests;
      this.stateFile := stateFile;
      master := None;
    }
  }

  function StoredAt(manifests: map<string, Stored>, t: string): Stored
  {
    if t in manifests then manifests[t] else NoFile
  }

  /** The manifest record written for a fetched asset. */
  function EntryFor(a: Asset, now: string): AssetEntry
  {
    AssetEntry(a.name, a.source, a.path, a.sha, a.size, now,
               if a.downloadUrl != "" then a.downloadUrl else "(extracted from README)")
  }

  /** A download works when there is non-empty extracted text to write, or else when the fetch works. */
  predicate Succeeds(a: Asset, fetched: set<Asset>)
  {
    (a.extracted.Some? && a.extracted.value != "") || a in fetched
  }

  /** The state and the cached manifests: what a download changes. */
  datatype View = View(state: SyncState, manifests: map<string, Dict<string, AssetEntry>>)

  /** The manifest of a category as the manager sees it: the cached one, else the one on disk. */
  function ManifestOf(v: View, t: string, stored: map<string, Stored>): Dict<string, AssetEntry>
  {
    if t in v.manifests then v.manifests[t] else Loaded(StoredAt(stored, t))
  }

  /** The effect of one successful download: the key's hash, and the entry in the category's manifest. */
  function Record(v: View, a: Asset, now: string, stored: map<string, Stored>): View
  {
    var t := TypeName(a.assetType);
    View(v.state.(assets := v.state.assets[AssetKey(a) := a.sha]),
         v.manifests[t := Put(ManifestOf(v, t, stored), a.name, EntryFor(a, now))])
  }

  function RecordAll(v: View, synced: seq<Asset>, now: string, stored: map<string, Stored>): View
  {
    if synced == [] then v
    else Record(RecordAll(v, synced[..|synced| - 1], now, stored), synced[|synced| - 1], now, stored)
  }

  /** `[a for a in assets if self.needs_sync(a)]`. */
  function ToSync(assets: seq<Asset>, files: set<string>, state: map<string, string>): (r: seq<Asset>)
    ensures forall a :: a in r <==> a in assets && NeedsSync(a, files, state)
  {
    if assets == [] then []
    else
      var last := assets[|assets| - 1];
      var init := ToSync(assets[..|assets| - 1], files, state);
      assert forall a :: a in assets <==> a in assets[..|assets| - 1] || a == last;
      if NeedsSync(last, files, state) then init + [last] else init
  }

  /** The assets among `toSync` whose download works, in order. */
  function Successful(toSync: seq<Asset>, fetched: set<Asset>): (r: seq<Asset>)
    ensures forall a :: a in r <==> a in toSync && Succeeds(a, fetched)
  {
    if toSync == [] then []
    else
      var last := toSync[|toSync| - 1];
      var init := Successful(toSync[..|toSync| - 1], fetched);
      assert forall a :: a in toSync <==> a in toSync[..|toSync| - 1] || a == last;
      if Succeeds(last, fetched) then init + [last] else init
  }

  function SyncPaths(synced: seq<Asset>): set<string>
  {
    set a | a in synced :: SyncPath(a)
  }

  /** One more asset to sync adds it to the successful ones exactly when its download works. */
  lemma {:induction false} SuccessfulStep(toSync: seq<Asset>, fetched: set<Asset>, i: nat)
    requires i < |toSync|
    ensures Successful(toSync[..i + 1], fetched)
      == Successful(toSync[..i], fetched) + (if Succeeds(toSync[i], fetched) then [toSync[i]] else [])
  {
    assert toSync[..i + 1][..i] == toSync[..i];
  }

  /** Recording one more asset records it after the others. */
  lemma {:induction false} RecordAllSnoc(v: View, synced: seq<Asset>, a: Asset, now: string, stored: map<string, Stored>)
    ensures RecordAll(v, synced + [a], now, stored) == Record(RecordAll(v, synced, now, stored), a, now, stored)
  {
    assert (synced + [a])[..|synced|] == synced;
  }

  lemma {:induction false} SyncPathsSnoc(synced: seq<Asset>, a: Asset)
    ensures SyncPaths(synced + [a]) == SyncPaths(synced) + {SyncPath(a)}
  {
  }

  /**
   * After a successful download the asset no longer needs a sync, its entry
   * is in its category's manifest, and no other category's manifest moves.
   */
  lemma RecordStopsNeed(v: View, a: Asset, now: string, stored: map<string, Stored>, files: set<string>)
    ensures var r := Record(v, a, now, stored);
      && !NeedsSync(a, files + {SyncPath(a)}, r.state.assets)
      && Get(r.manifests[TypeName(a.assetType)], a.name) == Some(EntryFor(a, now))
      && (forall t :: t in v.manifests && t != TypeName(a.assetType) ==> t in r.manifests && r.manifests[t] == v.manifests[t])
  {
    var t := TypeName(a.assetType);
    GetPut(ManifestOf(v, t, stored), a.name, EntryFor(a, now), a.name);
  }

  /** The state keys of the assets in `synced`. */
  function Keys(synced: seq<Asset>): set<string>
  {
    set a | a in synced :: AssetKey(a)
  }

  /** A run of downloads records a hash for each key it fetched and leaves every other key alone. */
  lemma {:induction false} RecordAllKeys(v: View, synced: seq<Asset>, now: string, stored: map<string, Stored>)
    ensures var r := RecordAll(v, synced, now, stored).state.assets;
      && (forall k :: k in r <==> k in v.state.assets || k in Keys(synced))
      && (forall k :: k in v.state.assets && k !in Keys(synced) ==> r[k] == v.state.assets[k])
  {
    if synced != [] {
      var init := synced[..|synced| - 1];
      assert Keys(synced) == Keys(init) + {AssetKey(synced[|synced| - 1])};
      RecordAllKeys(v, init, now, stored);
    }
  }

  /** The state records the asset's hash under its key. */
  predicate Recorded(a: Asset, state: map<string, string>)
  {
    AssetKey(a) in state && state[AssetKey(a)] == a.sha
  }

  /** When the assets fetched have distinct keys, each one's hash is recorded afterwards. */
  lemma {:induction false} RecordAllRecords(v: View, synced: seq<Asset>, now: string, stored: map<string, Stored>)
    requires forall i, j :: 0 <= i < j < |synced| ==> AssetKey(synced[i]) != AssetKey(synced[j])
    ensures forall i :: 0 <= i < |synced| ==> Recorded(synced[i], RecordAll(v, synced, now, stored).state.assets)
  {
    if synced != [] {
      var n := |synced| - 1;
      var init := synced[..n];
      RecordAllRecords(v, init, now, stored);
      var before := RecordAll(v, init, now, stored).state.assets;
      var after := RecordAll(v, synced, now, stored).state.assets;
      assert after == before[AssetKey(synced[n]) := synced[n].sha];
      forall i | 0 <= i < n
        ensures Recorded(synced[i], after)
      {
        assert init[i] == synced[i];
      }
    }
  }

  /** So none of them needs a sync afterwards: its file is there and its hash is recorded. */
  lemma RecordAllStopsNeed(v: View, synced: seq<Asset>, now: string, stored: map<string, Stored>, files: set<string>)
    requires forall i, j :: 0 <= i < j < |synced| ==> AssetKey(synced[i]) != AssetKey(synced[j])
    ensures forall a :: a in synced ==> !NeedsSync(a, files + SyncPaths(synced), RecordAll(v, synced, now, stored).state.assets)
  {
    RecordAllRecords(v, synced, now, stored);
  }

  /** What `save` writes for a manifest with these entries. */
  function SavedFile(entries: Dict<string, AssetEntry>, now: string): Stored
  {
    Readable(ManifestFile(now, Some(|entries|), Written(entries)))
  }

  /** What `save` writes for each cached manifest. */
  function SavedFiles(entries: map<string, Dict<string, AssetEntry>>, now: string): map<string, Stored>
  {
    map t | t in entries :: SavedFile(entries[t], now)
  }

  /** The manifest files after saving the categories `ts` in turn. */
  function SaveEach(base: map<string, Stored>, ts: seq<string>, entries: map<string, Dict<string, AssetEntry>>,
                    now: string): map<string, Stored>
    requires forall t :: t in ts ==> t in entries
  {
    if ts == [] then base
    else
      var last := ts[|ts| - 1];
      SaveEach(base, ts[..|ts| - 1], entries, now)[last := SavedFile(entries[last], now)]
  }

  /** Saving every category in turn writes each once, whatever the order, and leaves the rest alone. */
  lemma {:induction false} SaveEachPointwise(base: map<string, Stored>, ts: seq<string>,
                                             entries: map<string, Dict<string, AssetEntry>>, now: string)
    requires forall t :: t in ts ==> t in entries
    ensures forall t :: t in SaveEach(base, ts, entries, now) <==> t in base || t in ts
    ensures forall t :: t in ts ==> SaveEach(base, ts, entries, now)[t] == SavedFile(entries[t], now)
    ensures forall t :: t in base && t !in ts ==> SaveEach(base, ts, entries, now)[t] == base[t]
  {
    if ts != [] {
      var init := ts[..|ts| - 1];
      assert forall t :: t in ts <==> t in init || t == ts[|ts| - 1];
      SaveEachPointwise(base, init, entries, now);
    }
  }

  lemma SaveEachAll(base: map<string, Stored>, ts: seq<string>, entries: map<string, Dict<string, AssetEntry>>,
                    now: string)
    requires forall t :: t in ts <==> t in entries
    ensures SaveEach(base, ts, entries, now) == base + SavedFiles(entries, now)
  {
    SaveEachPointwise(base, ts, entries, now);
  }

  lemma UpdateTwice<K, V>(m: map<K, V>, k: K, v: V, w: V)
    ensures m[k := v][k := w] == m[k := w]
  {
  }

  /** The manager: its sync state and the manifests it has loaded so far. */
  class Manager {
    const org: string
    var state: SyncState
    var cache: map<string, Manifest>
    /** The cached categories in the order they were first loaded, as the cache is a Python dict. */
    var order: seq<string>
    /** The entries of each cached manifest. */
    ghost var manifests: map<string, Dict<string, AssetEntry>>

    /** Each cached manifest is the one for its own category, so no two categories share one. */
    ghost predicate Valid()
      reads this, cache.Values
    {
      && cache.Keys == manifests.Keys
      && (forall t :: t in order <==> t in cache)
      && forall t :: t in cache ==> cache[t].typeName == t && cache[t].entries == manifests[t] && cache[t].Valid()
    }

    ghost function CurrentView(): View
      reads this
    {
      View(state, manifests)
    }

    /** `HaKCAssets(...)`: the state is read from the state file, and no manifest is loaded yet. */
    constructor(org: string, stored: Option<SyncState>)
      ensures Valid()
      ensures this.org == org && state == stored.GetOr(DEFAULT_STATE) && cache == map[]
    {
      this.org := org;
      state := stored.GetOr(DEFAULT_STATE);
      cache := map[];
      order := [];
      manifests := map[];
    }

    /** `_get_manifest`: the cached manifest, else one loaded from disk and cached. */
    method GetManifest(t: string, disk: Disk) returns (m: Manifest)
      requires Valid()
      modifies this
      ensures Valid()
      ensures state == old(state)
      ensures t in cache && m == cache[t]
      ensures t in old(cache) ==> cache == old(cache)
      ensures t !in old(cache) ==> fresh(m) && cache == old(cache)[t := m]
      ensures manifests == old(manifests)[t := ManifestOf(old(CurrentView()), t, disk.manifests)]
    {
      if t !in cache {
        m := new Manifest.Load(t, StoredAt(disk.manifests, t));
        cache := cache[t := m];
        order := order + [t];
        manifests := manifests[t := m.entries];
      } else {
        m := cache[t];
      }
    }

    /**
     * `download_asset`: the local directory is made, the extracted text is
     * written or the file fetched, and on success the key's hash and the
     * category's manifest are updated. A failure changes nothing.
     */
    method DownloadAsset(a: Asset, fetched: set<Asset>, now: string, disk: Disk) returns (ok: bool)
      requires Valid()
      modifies this, cache.Values, disk
      ensures Valid()
      ensures ok == Succeeds(a, fetched)
      ensures ok ==> CurrentView() == Record(old(CurrentView()), a, now, disk.manifests)
      ensures !ok ==> CurrentView() == old(CurrentView())
      ensures disk.files == old(disk.files) + (if ok then {SyncPath(a)} else {})
      ensures disk.manifests == old(disk.manifests) && disk.stateFile == old(disk.stateFile) && disk.master == old(disk.master)
      ensures forall t :: t in old(cache) ==> t in cache && cache[t] == old(cache)[t]
      ensures forall t :: t in cache && t !in old(cache) ==> fresh(cache[t])
    {
      var success := false;
      if a.extracted.Some? && a.extracted.value != "" {
        disk.files := disk.files + {SyncPath(a)};
        success := true;
      } else if a in fetched {
        disk.files := disk.files + {SyncPath(a)};
        success := true;
      }
      ok := success;
      if success {
        RecordDownload(a, now, disk);
      }
    }

    /** The bookkeeping after a successful download: `state.assets[key] = sha` and the manifest entry. */
    method RecordDownload(a: Asset, now: string, disk: Disk)
      requires Valid()
      modifies this, cache.Values
      ensures Valid()
      ensures CurrentView() == Record(old(CurrentView()), a, now, disk.manifests)
      ensures forall t :: t in old(cache) ==> t in cache && cache[t] == old(cache)[t]
      ensures forall t :: t in cache && t !in old(cache) ==> fresh(cache[t])
    {
      ghost var v0 := CurrentView();
      state := state.(assets := state.assets[AssetKey(a) := a.sha]);
      var t := TypeName(a.assetType);
      ghost var cur := ManifestOf(v0, t, disk.manifests);
      var manifest := GetManifest(t, disk);
      ghost var m1 := manifests;
      assert m1 == v0.manifests[t := cur];
      assert manifest.typeName == t && m1[t] == cur;
      var entry := EntryFor(a, now);
      AddEntry(manifest, entry);
      UpdateTwice(v0.manifests, t, cur, Put(cur, entry.filename, entry));
    }

    /** `manifest.add(entry)` on a cached manifest, with the cache's record of it kept up to date. */
    method AddEntry(manifest: Manifest, entry: AssetEntry)
      requires Valid() && manifest.typeName in cache && cache[manifest.typeName] == manifest
      modifies this, manifest
      ensures Valid()
      ensures state == old(state) && cache == old(cache)
      ensures manifests == old(manifests)[manifest.typeName := Put(old(manifests)[manifest.typeName], entry.filename, entry)]
    {
      var t := manifest.typeName;
      manifest.Add(entry);
      manifests := manifests[t := manifest.entries];
      forall u | u in cache && u != t
        ensures cache[u].entries == manifests[u]
      {
        assert cache[u].typeName == u;
      }
    }

    /** Each cached manifest, saved to its path. */
    method SaveManifests(now: string, disk: Disk)
      requires Valid()
      modifies disk
      ensures disk.manifests == old(disk.manifests) + SavedFiles(manifests, now)
      ensures disk.files == old(disk.files) && disk.stateFile == old(disk.stateFile) && disk.master == old(disk.master)
    {
      var written := disk.manifests;
      for i := 0 to |order|
        invariant written == SaveEach(disk.manifests, order[..i], manifests, now)
        modifies {}
      {
        assert order[..i + 1][..i] == order[..i];
        var t := order[i];
        var file := cache[t].Save(now);
        written := written[t := Readable(file)];
      }
      assert order[..|order|] == order;
      SaveEachAll(disk.manifests, order, manifests, now);
      disk.manifests := written;
    }

    /** The view and the files after the downloads that worked so far, the manifests on disk untouched. */
    ghost predicate Progress(v0: View, synced: seq<Asset>, now: string, stored0: map<string, Stored>,
                             files0: set<string>, disk: Disk)
      reads this, disk
    {
      && CurrentView() == RecordAll(v0, synced, now, stored0)
      && disk.files == files0 + SyncPaths(synced)
      && disk.manifests == stored0
    }

    /** The download loop of `sync`: each asset in turn, keeping those whose download works. */
    method DownloadAll(toSync: seq<Asset>, fetched: set<Asset>, now: string, disk: Disk) returns (synced: seq<Asset>)
      requires Valid()
      modifies this, cache.Values, disk
      ensures Valid()
      ensures forall t :: t in old(cache) ==> t in cache && cache[t] == old(cache)[t]
      ensures forall t :: t in cache && t !in old(cache) ==> fresh(cache[t])
      ensures synced == Successful(toSync, fetched)
      ensures CurrentView() == RecordAll(old(CurrentView()), synced, now, old(disk.manifests))
      ensures disk.files == old(disk.files) + SyncPaths(synced)
      ensures disk.manifests == old(disk.manifests) && disk.stateFile == old(disk.stateFile) && disk.master == old(disk.master)
    {
      ghost var v0 := CurrentView();
      ghost var stored0 := disk.manifests;
      ghost var files0 := disk.files;
      synced := [];
      var i := 0;
      while i < |toSync|
        invariant 0 <= i <= |toSync|
        invariant Valid()
        invariant forall t :: t in old(cache) ==> t in cache && cache[t] == old(cache)[t]
        invariant forall t :: t in cache && t !in old(cache) ==> fresh(cache[t])
        invariant synced == Successful(toSync[..i], fetched)
        invariant Progress(v0, synced, now, stored0, files0, disk)
        invariant disk.stateFile == old(disk.stateFile) && disk.master == old(disk.master)
      {
        synced := DownloadNext(toSync, i, fetched, now, disk, synced, v0, files0);
        i := i + 1;
      }
      assert toSync[..i] == toSync;
    }

    /** One turn of the loop of `sync`: download the next asset and extend what has worked so far. */
    method DownloadNext(toSync: seq<Asset>, i: nat, fetched: set<Asset>, now: string, disk: Disk,
                        synced: seq<Asset>, ghost v0: View, ghost files0: set<string>) returns (next: seq<Asset>)
      requires Valid() && i < |toSync|
      requires synced == Successful(toSync[..i], fetched)
      requires CurrentView() == RecordAll(v0, synced, now, disk.manifests)
      requires disk.files == files0 + SyncPaths(synced)
      modifies this, cache.Values, disk
      ensures Valid()
      ensures forall t :: t in old(cache) ==> t in cache && cache[t] == old(cache)[t]
      ensures forall t :: t in cache && t !in old(cache) ==> fresh(cache[t])
      ensures next == Successful(toSync[..i + 1], fetched)
      ensures CurrentView() == RecordAll(v0, next, now, disk.manifests)
      ensures disk.files == files0 + SyncPaths(next)
      ensures disk.manifests == old(disk.manifests) && disk.stateFile == old(disk.stateFile) && disk.master == old(disk.master)
    {
      var ok := DownloadAsset(toSync[i], fetched, now, disk);
      SuccessfulStep(toSync, fetched, i);
      next := synced;
      if ok {
        next := synced + [toSync[i]];
        RecordAllSnoc(v0, synced, toSync[i], now, disk.manifests);
        SyncPathsSnoc(synced, toSync[i]);
      }
    }

    /**
     * `sync`: the assets needing a sync are picked against the state as it
     * is on entry; a dry run downloads nothing; otherwise each is downloaded
     * in turn and, when at least one worked, the manifests, the master
     * manifest and the state (with `last_sync` set) are written. The result
     * is the assets whose download worked.
     */
    method Sync(assets: seq<Asset>, dryRun: bool, fetched: set<Asset>, now: string,
                listing: seq<DirEntry>, disk: Disk) returns (synced: seq<Asset>)
      requires Valid()
      modifies this, cache.Values, disk
      ensures Valid()
      ensures dryRun ==> synced == []
      ensures !dryRun ==> synced == Successful(ToSync(assets, old(disk.files), old(state.assets)), fetched)
      ensures synced == [] ==> CurrentView() == old(CurrentView())
      ensures synced == [] ==> disk.files == old(disk.files) && disk.manifests == old(disk.manifests)
                               && disk.stateFile == old(disk.stateFile) && disk.master == old(disk.master)
      ensures synced != [] ==>
        var v := RecordAll(old(CurrentView()), synced, now, old(disk.manifests));
        && CurrentView() == v.(state := v.state.(lastSync := now))
        && disk.files == old(disk.files) + SyncPaths(synced)
        && disk.manifests == old(disk.manifests) + SavedFiles(v.manifests, now)
        && disk.master == Some(Scan(Empty(now, org), listing, disk.manifests))
        && disk.stateFile == Some(state)
    {
      var toSync := ToSync(assets, disk.files, state.assets);
      if toSync == [] {
        return [];
      }
      synced := [];
      if dryRun {
        return;
      }
      synced := DownloadAll(toSync, fetched, now, disk);
      if synced != [] {
        Persist(listing, now, disk);
      }
    }

    /** The writes at the end of a sync that fetched something: manifests, master manifest, state. */
    method Persist(listing: seq<DirEntry>, now: string, disk: Disk)
      requires Valid()
      modifies this, disk
      ensures Valid()
      ensures cache == old(cache) && manifests == old(manifests) && state == old(state).(lastSync := now)
      ensures disk.files == old(disk.files)
      ensures disk.manifests == old(disk.manifests) + SavedFiles(manifests, now)
      ensures disk.master == Some(Scan(Empty(now, org), listing, disk.manifests))
      ensures disk.stateFile == Some(state)
    {
      SaveManifests(now, disk);
      var master := BuildMasterManifest(listing, disk.manifests, org, now);
      disk.master := Some(master);
      state := state.(lastSync := now);
      disk.stateFile := Some(state);
    }
  }
}
