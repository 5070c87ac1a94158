/**
 * The per-category manifest `repos/<type>/manifest.json`: a dictionary from
 * file name to the record of where the file came from, kept in insertion
 * order.
 */
module Manifests {
  import opened Wrappers
  import opened Dicts

  /** One manifest record. */
  datatype AssetEntry = AssetEntry(
    filename: string, sourceRepo: string, sourcePath: string, sha: string,
    size: int, syncedAt: string, downloadUrl: string)

  /**
   * An entry as found in a manifest file: a complete record; an object that
   * is not a complete record (it may still carry a `source_repo`); or a value
   * that is not an object at all.
   */
  datatype RawEntry = Full(entry: AssetEntry) | Partial(sourceRepo: Option<string>) | NotObject

  /** The decoded file; `count` and `assets` are absent when the file lacks those keys. */
  datatype ManifestFile = ManifestFile(generated: string, count: Option<int>, assets: Dict<string, RawEntry>)

  /** What is on disk at a manifest path: nothing, something that does not decode, or a manifest. */
  datatype Stored = NoFile | Unreadable | Readable(file: ManifestFile)

  /** The number of leading entries that are complete records. */
  function GoodPrefix(assets: Dict<string, RawEntry>): (n: nat)
    ensures n <= |assets|
    ensures forall k :: 0 <= k < n ==> assets[k].1.Full?
    ensures n < |assets| ==> !assets[n].1.Full?
  {
    if assets == [] || !assets[0].1.Full? then 0
    else
      var n := GoodPrefix(assets[1..]);
      assert forall k :: 1 <= k < n + 1 ==> assets[k] == assets[1..][k - 1];
      n + 1
  }

  /** Storing the complete records of a prefix one after the other. */
  function PutAll(assets: Dict<string, RawEntry>): Dict<string, AssetEntry>
    requires forall k :: 0 <= k < |assets| ==> assets[k].1.Full?
  {
    if assets == [] then []
    else
      var last := assets[|assets| - 1];
      Put(PutAll(assets[..|assets| - 1]), last.0, last.1.entry)
  }

  /**
   * `Manifest._load`: no file or an undecodable one gives no entries;
   * otherwise the records are taken in order, and the first entry that is
   * not a complete record ends the load, keeping what was read before it.
   */
  function Loaded(stored: Stored): Dict<string, AssetEntry>
  {
    if stored.Readable? then
      var a := stored.file.assets;
      PutAll(a[..GoodPrefix(a)])
    else []
  }

  /** The entries as written by `save`. */
  function Written(entries: Dict<string, AssetEntry>): (r: Dict<string, RawEntry>)
    ensures |r| == |entries|
    ensures forall k :: 0 <= k < |r| ==> r[k] == (entries[k].0, Full(entries[k].1))
  {
    seq(|entries|, k requires 0 <= k < |entries| => (entries[k].0, Full(entries[k].1)))
  }

  lemma {:induction false} PutAllUnique(assets: Dict<string, RawEntry>)
    requires forall k :: 0 <= k < |assets| ==> assets[k].1.Full?
    ensures UniqueKeys(PutAll(assets))
  {
    if assets != [] {
      var init := assets[..|assets| - 1];
      PutAllUnique(init);
      PutKeepsUnique(PutAll(init), assets[|assets| - 1].0, assets[|assets| - 1].1.entry);
    }
  }

  /** Every load yields a dictionary, whatever the file held. */
  lemma LoadedUnique(stored: Stored)
    ensures UniqueKeys(Loaded(stored))
  {
    if stored.Readable? {
      var a := stored.file.assets;
      PutAllUnique(a[..GoodPrefix(a)]);
    }
  }

  /** Storing records under keys not seen before just appends them. */
  lemma {:induction false} PutAllFresh(entries: Dict<string, AssetEntry>)
    requires UniqueKeys(entries)
    ensures PutAll(Written(entries)) == entries
  {
    if entries != [] {
      var n := |entries| - 1;
      var init := entries[..n];
      assert Written(entries)[..n] == Written(init);
      assert UniqueKeys(init);
      PutAllFresh(init);
      assert !HasKey(init, entries[n].0) by {
        forall i | 0 <= i < |init| ensures init[i].0 != entries[n].0 {
          assert init[i] == entries[i];
        }
      }
      assert entries == init + [entries[n]];
    }
  }

  /** Loading what `save` wrote gives back the same entries in the same order. */
  lemma SaveLoad(generated: string, entries: Dict<string, AssetEntry>)
    requires UniqueKeys(entries)
    ensures Loaded(Readable(ManifestFile(generated, Some(|entries|), Written(entries)))) == entries
  {
    var a := Written(entries);
    assert GoodPrefix(a) == |a|;
    assert a[..|a|] == a;
    PutAllFresh(entries);
  }

  /** An entry that is not a complete record cuts the load short: whatever follows it is never read. */
  lemma LoadStopsAtBadEntry(g: string, c: Option<int>, head: Dict<string, RawEntry>, bad: (string, RawEntry),
                            tail: Dict<string, RawEntry>)
    requires !bad.1.Full?
    ensures Loaded(Readable(ManifestFile(g, c, head + [bad] + tail))) == Loaded(Readable(ManifestFile(g, c, head)))
  {
    var a := head + [bad] + tail;
    var n := GoodPrefix(head);
    assert forall k :: 0 <= k < |head| ==> a[k] == head[k];
    if n < |head| {
      assert GoodPrefix(a) == n;
      assert a[..n] == head[..n];
    } else {
      assert a[|head|] == bad;
      assert GoodPrefix(a) == |head|;
      assert a[..|head|] == head == head[..n];
    }
  }

  /** A manifest for one category; `entries` has distinct file names. */
  class Manifest {
    const typeName: string
    var entries: Dict<string, AssetEntry>

    predicate Valid()
      reads this
    {
      UniqueKeys(entries)
    }

    /** `Manifest(path)`: the entries are loaded from what is stored at the path. */
    constructor Load(typeName: string, stored: Stored)
      ensures Valid()
      ensures this.typeName == typeName && entries == Loaded(stored)
    {
      this.typeName := typeName;
      var loaded: Dict<string, AssetEntry> := [];
      if stored.Readable? {
        var a := stored.file.assets;
        var i := 0;
        while i < |a| && a[i].1.Full?
          invariant 0 <= i <= |a|
          invariant forall k :: 0 <= k < i ==> a[k].1.Full?
          invariant loaded == PutAll(a[..i])
        {
          assert a[..i + 1][..i] == a[..i];
          loaded := Put(loaded, a[i].0, a[i].1.entry);
          i := i + 1;
        }
        assert i == GoodPrefix(a);
      }
      entries := loaded;
      LoadedUnique(stored);
    }

    /** `add`: insert or replace the entry under its file name. */
    method Add(entry: AssetEntry)
      requires Valid()
      modifies this
      ensures Valid()
      ensures entries == Put(old(entries), entry.filename, entry)
      ensures Get(entry.filename) == Some(entry)
      ensures forall f :: f != entry.filename ==> Get(f) == old(Get(f))
    {
      PutKeepsUnique(entries, entry.filename, entry);
      forall f ensures Dicts.Get(Put(entries, entry.filename, entry), f) == if f == entry.filename then Some(entry) else Dicts.Get(entries, f) {
        GetPut(entries, entry.filename, entry, f);
      }
      entries := Put(entries, entry.filename, entry);
    }

    /** `get`: the entry stored under a file name, if any. */
    function Get(filename: string): (r: Option<AssetEntry>)
      reads this
      ensures r.Some? <==> HasKey(entries, filename)
      ensures r.Some? ==> (filename, r.value) in entries
    {
      Dicts.Get(entries, filename)
    }

    /** `remove`: drop the entry if present; a missing name is not an error. */
    method Remove(filename: string)
      requires Valid()
      modifies this
      ensures Valid()
      ensures entries == Dicts.Remove(old(entries), filename)
      ensures Get(filename) == None
      ensures forall f :: f != filename ==> Get(f) == old(Get(f))
    {
      forall f ensures Dicts.Get(Dicts.Remove(entries, filename), f) == if f == filename then None else Dicts.Get(entries, f) {
        GetRemove(entries, filename, f);
      }
      GetRemove(entries, filename, filename);
      entries := Dicts.Remove(entries, filename);
    }

    /** `save`: the file written, with the time stamp `now` and the entry count. */
    method Save(now: string) returns (file: ManifestFile)
      requires Valid()
      ensures file == ManifestFile(now, Some(|entries|), Written(entries))
    {
      file := ManifestFile(now, Some(|entries|), Written(entries));
    }
  }
}
