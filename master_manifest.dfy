/**
 * `repos/manifest.json`: the index built from every category manifest, by
 * category and by source repository.
 */
module MasterManifest {
  import opened Wrappers
  import opened Dicts
  import opened Manifests

  /** An entry of the `repos/` directory listing. */
  datatype DirEntry = DirEntry(name: string, isDir: bool)

  datatype TypeSummary = TypeSummary(count: int, repos: Dict<string, seq<string>>)

  datatype Master = Master(
    generated: string, organization: string,
    types: Dict<string, TypeSummary>,
    byRepo: Dict<string, Dict<string, seq<string>>>,
    totalAssets: int)

  /** One indexed file: (category, source repository, file name). */
  type Triple = (string, string, string)

  /** `entry.get("source_repo", "unknown")`. */
  function RepoOf(e: RawEntry): string
  {
    match e
    case Full(a) => a.sourceRepo
    case Partial(r) => r.GetOr("unknown")
    case NotObject => "unknown"
  }

  /** Entries up to the first one that is not an object; that one raises and ends the directory. */
  function Objects(a: Dict<string, RawEntry>): (n: nat)
    ensures n <= |a|
    ensures forall k :: 0 <= k < n ==> !a[k].1.NotObject?
    ensures n < |a| ==> a[n].1.NotObject?
  {
    if a == [] || a[0].1.NotObject? then 0
    else
      var n := Objects(a[1..]);
      assert forall k :: 1 <= k < n + 1 ==> a[k] == a[1..][k - 1];
      n + 1
  }

  /** A directory that contributes: a real directory other than `.git` whose manifest decodes. */
  predicate Considered(d: DirEntry, manifests: map<string, Stored>)
  {
    d.isDir && d.name != ".git" && d.name in manifests && manifests[d.name].Readable?
  }

  /** Append `f` to the list under `key`, creating the list when missing. */
  function Append(idx: Dict<string, seq<string>>, key: string, f: string): Dict<string, seq<string>>
  {
    Put(idx, key, Get(idx, key).GetOr([]) + [f])
  }

  /** Index one file under `types[t].repos[repo]` and `by_repo[repo][t]`, and count it. */
  function AddEntry(m: Master, t: string, repo: string, f: string): Master
  {
    var ts := Get(m.types, t).GetOr(TypeSummary(0, []));
    m.(types := Put(m.types, t, ts.(repos := Append(ts.repos, repo, f))),
       byRepo := Put(m.byRepo, repo, Append(Get(m.byRepo, repo).GetOr([]), t, f)),
       totalAssets := m.totalAssets + 1)
  }

  function FillType(m: Master, t: string, a: Dict<string, RawEntry>): Master
  {
    if a == [] then m
    else
      var last := a[|a| - 1];
      AddEntry(FillType(m, t, a[..|a| - 1]), t, RepoOf(last.1), last.0)
  }

  /** One directory: a fresh summary carrying the manifest's `count` (0 when absent), then its entries. */
  function DirStep(m: Master, d: DirEntry, manifests: map<string, Stored>): Master
  {
    if Considered(d, manifests) then
      var f := manifests[d.name].file;
      var m1 := m.(types := Put(m.types, d.name, TypeSummary(f.count.GetOr(0), [])));
      FillType(m1, d.name, f.assets[..Objects(f.assets)])
    else m
  }

  function Scan(m: Master, listing: seq<DirEntry>, manifests: map<string, Stored>): Master
  {
    if listing == [] then m
    else DirStep(Scan(m, listing[..|listing| - 1], manifests), listing[|listing| - 1], manifests)
  }

  function Empty(now: string, org: string): Master
  {
    Master(now, org, [], [], 0)
  }

  /** The files a directory contributes, in order. */
  function DirTriples(t: string, a: Dict<string, RawEntry>): (r: seq<Triple>)
    ensures |r| == |a|
    ensures forall k :: 0 <= k < |r| ==> r[k].0 == t
  {
    if a == [] then [] else DirTriples(t, a[..|a| - 1]) + [(t, RepoOf(a[|a| - 1].1), a[|a| - 1].0)]
  }

  /** Every file the build reads, in order. */
  function Processed(listing: seq<DirEntry>, manifests: map<string, Stored>): seq<Triple>
  {
    if listing == [] then []
    else
      var d := listing[|listing| - 1];
      Processed(listing[..|listing| - 1], manifests)
      + (if Considered(d, manifests) then
           var a := manifests[d.name].file.assets;
           DirTriples(d.name, a[..Objects(a)])
         else [])
  }

  /** `_build_master_manifest` over the listing of `repos/` and what each `manifest.json` holds. */
  method BuildMasterManifest(listing: seq<DirEntry>, manifests: map<string, Stored>, org: string, now: string)
    returns (master: Master)
    ensures master == Scan(Empty(now, org), listing, manifests)
  {
    master := Empty(now, org);
    var i := 0;
    while i < |listing|
      invariant 0 <= i <= |listing|
      invariant master == Scan(Empty(now, org), listing[..i], manifests)
    {
      var typeDir := listing[i];
      assert listing[..i + 1][..i] == listing[..i];
      if typeDir.isDir && typeDir.name != ".git" && typeDir.name in manifests && manifests[typeDir.name].Readable? {
        var data := manifests[typeDir.name].file;
        master := master.(types := Put(master.types, typeDir.name, TypeSummary(data.count.GetOr(0), [])));
        master := IndexEntries(master, typeDir.name, data.assets);
      }
      i := i + 1;
    }
    assert listing[..i] == listing;
  }

  /** The loop over one manifest's entries; an entry that is not an object raises and ends it. */
  method IndexEntries(start: Master, typeName: string, a: Dict<string, RawEntry>) returns (master: Master)
    ensures master == FillType(start, typeName, a[..Objects(a)])
  {
    master := start;
    var j := 0;
    while j < |a| && !a[j].1.NotObject?
      invariant 0 <= j <= |a|
      invariant j <= Objects(a)
      invariant master == FillType(start, typeName, a[..j])
    {
      assert a[..j + 1][..j] == a[..j];
      master := AddEntry(master, typeName, RepoOf(a[j].1), a[j].0);
      j := j + 1;
    }
    assert j == Objects(a);
  }

  // ---------------------------------------------------------------
  //  What the master manifest says
  // ---------------------------------------------------------------

  /** `f` is listed under `by_repo[r][t]`. */
  predicate InByRepo(m: Master, r: string, t: string, f: string)
  {
    f in Get(Get(m.byRepo, r).GetOr([]), t).GetOr([])
  }

  /** `f` is listed under `types[t].repos[r]`. */
  predicate InTypes(m: Master, t: string, r: string, f: string)
  {
    f in Get(Get(m.types, t).GetOr(TypeSummary(0, [])).repos, r).GetOr([])
  }

  lemma AppendLists(idx: Dict<string, seq<string>>, key: string, f: string, key': string, f': string)
    ensures f' in Get(Append(idx, key, f), key').GetOr([]) <==> f' in Get(idx, key').GetOr([]) || (key' == key && f' == f)
  {
    GetPut(idx, key, Get(idx, key).GetOr([]) + [f], key');
  }

  /** Adding one file indexes exactly that file, in both indices, and counts it. */
  lemma AddEntryIndexes(m: Master, t: string, r: string, f: string, t': string, r': string, f': string)
    ensures AddEntry(m, t, r, f).totalAssets == m.totalAssets + 1
    ensures InByRepo(AddEntry(m, t, r, f), r', t', f') <==> InByRepo(m, r', t', f') || (t', r', f') == (t, r, f)
    ensures InTypes(AddEntry(m, t, r, f), t', r', f') <==> InTypes(m, t', r', f') || (t', r', f') == (t, r, f)
  {
    var m' := AddEntry(m, t, r, f);
    var inner := Get(m.byRepo, r).GetOr([]);
    GetPut(m.byRepo, r, Append(inner, t, f), r');
    if r' == r {
      AppendLists(inner, t, f, t', f');
    }
    var ts := Get(m.types, t).GetOr(TypeSummary(0, []));
    GetPut(m.types, t, ts.(repos := Append(ts.repos, r, f)), t');
    if t' == t {
      AppendLists(ts.repos, r, f, r', f');
    }
  }

  lemma {:induction false} FillTypeIndexes(m: Master, t: string, a: Dict<string, RawEntry>, t': string, r': string, f': string)
    ensures FillType(m, t, a).totalAssets == m.totalAssets + |a|
    ensures InByRepo(FillType(m, t, a), r', t', f') <==> InByRepo(m, r', t', f') || (t', r', f') in DirTriples(t, a)
    ensures InTypes(FillType(m, t, a), t', r', f') <==> InTypes(m, t', r', f') || (t', r', f') in DirTriples(t, a)
  {
    if a != [] {
      var init := a[..|a| - 1];
      var last := a[|a| - 1];
      FillTypeIndexes(m, t, init, t', r', f');
      AddEntryIndexes(FillType(m, t, init), t, RepoOf(last.1), last.0, t', r', f');
    }
  }

  /** Resetting a category's summary empties its lists and touches nothing else. */
  lemma StartTypeIndexes(m: Master, t: string, c: int, t': string, r': string, f': string)
    ensures InByRepo(m.(types := Put(m.types, t, TypeSummary(c, []))), r', t', f') == InByRepo(m, r', t', f')
    ensures InTypes(m.(types := Put(m.types, t, TypeSummary(c, []))), t', r', f') <==> InTypes(m, t', r', f') && t' != t
  {
    GetPut(m.types, t, TypeSummary(c, []), t');
  }

  /** `total_assets` is the number of files read across all readable category manifests. */
  lemma {:induction false} MasterTotal(listing: seq<DirEntry>, manifests: map<string, Stored>, now: string, org: string)
    ensures Scan(Empty(now, org), listing, manifests).totalAssets == |Processed(listing, manifests)|
  {
    if listing != [] {
      var init := listing[..|listing| - 1];
      MasterTotal(init, manifests, now, org);
      var d := listing[|listing| - 1];
      if Considered(d, manifests) {
        var m := Scan(Empty(now, org), init, manifests);
        var f := manifests[d.name].file;
        FillTypeIndexes(m.(types := Put(m.types, d.name, TypeSummary(f.count.GetOr(0), []))), d.name,
                        f.assets[..Objects(f.assets)], "", "", "");
      }
    }
  }

  /** `by_repo[r][t]` lists exactly the files of category `t` whose source repository is `r` ("unknown" when missing). */
  lemma {:induction false} ByRepoIndex(listing: seq<DirEntry>, manifests: map<string, Stored>, now: string, org: string,
                                       t: string, r: string, f: string)
    ensures InByRepo(Scan(Empty(now, org), listing, manifests), r, t, f) <==> (t, r, f) in Processed(listing, manifests)
  {
    if listing != [] {
      var init := listing[..|listing| - 1];
      ByRepoIndex(init, manifests, now, org, t, r, f);
      var d := listing[|listing| - 1];
      if Considered(d, manifests) {
        var m := Scan(Empty(now, org), init, manifests);
        var file := manifests[d.name].file;
        var m1 := m.(types := Put(m.types, d.name, TypeSummary(file.count.GetOr(0), [])));
        StartTypeIndexes(m, d.name, file.count.GetOr(0), t, r, f);
        FillTypeIndexes(m1, d.name, file.assets[..Objects(file.assets)], t, r, f);
      }
    }
  }

  /** Every indexed triple names a directory of the listing as its category. */
  lemma {:induction false} ProcessedCategories(listing: seq<DirEntry>, manifests: map<string, Stored>, x: Triple)
    requires x in Processed(listing, manifests)
    ensures exists i :: 0 <= i < |listing| && listing[i].name == x.0
  {
    var init := listing[..|listing| - 1];
    var d := listing[|listing| - 1];
    if x in Processed(init, manifests) {
      ProcessedCategories(init, manifests, x);
      var i :| 0 <= i < |init| && init[i].name == x.0;
      assert listing[i] == init[i];
    } else {
      assert listing[|listing| - 1].name == x.0;
    }
  }

  predicate DistinctNames(listing: seq<DirEntry>)
  {
    forall i, j :: 0 <= i < j < |listing| ==> listing[i].name != listing[j].name
  }

  /**
   * `types[t].repos[r]` lists exactly the same files. This needs the
   * directory names to be distinct, as in a real listing: a second directory
   * of the same name would reset the summary.
   */
  lemma {:induction false} TypesIndex(listing: seq<DirEntry>, manifests: map<string, Stored>, now: string, org: string,
                                      t: string, r: string, f: string)
    requires DistinctNames(listing)
    ensures InTypes(Scan(Empty(now, org), listing, manifests), t, r, f) <==> (t, r, f) in Processed(listing, manifests)
  {
    if listing != [] {
      var init := listing[..|listing| - 1];
      assert DistinctNames(init);
      TypesIndex(init, manifests, now, org, t, r, f);
      var d := listing[|listing| - 1];
      if Considered(d, manifests) {
        var m := Scan(Empty(now, org), init, manifests);
        var file := manifests[d.name].file;
        var m1 := m.(types := Put(m.types, d.name, TypeSummary(file.count.GetOr(0), [])));
        StartTypeIndexes(m, d.name, file.count.GetOr(0), t, r, f);
        FillTypeIndexes(m1, d.name, file.assets[..Objects(file.assets)], t, r, f);
        forall x | x in Processed(init, manifests) ensures x.0 != d.name {
          ProcessedCategories(init, manifests, x);
          var i :| 0 <= i < |init| && init[i].name == x.0;
          assert listing[i] == init[i];
        }
      }
    }
  }
}
