/** `clean`: what it takes for garbage, and what it leaves. */
module Cleaning {
  import opened Bytes
  import opened Manifests
  import opened Keys
  import opened Storage

  type DirName = (string, string)

  /** The snapshot directory a key belongs to: three parts, not under `pins`. */
  predicate InDir(k: Key, g: DirName) {
    var parts := Split(k);
    |parts| == 3 && parts[0] == g.0 && parts[1] == g.1 && g.0 != "pins"
  }

  function FileIn(g: DirName, file: string): Key { Path(g.0, g.1, file) }

  // ---- What is garbage -------------------------------------------------------------------------

  ghost predicate Readable(objects: Objects, lost: set<Key>, k: Key) {
    k in objects && k !in lost && objects[k].ManifestObject?
  }

  /** A send is at work in this directory, as far as can be seen: `lost` are the objects that
      cannot be read just now. */
  predicate SeemsBusy(objects: Objects, now: Instant, lost: set<Key>, g: DirName) {
    var k := FileIn(g, PENDING);
    k in objects && k !in lost && objects[k].MarkerObject? && objects[k].p.LeaseLive(now)
  }

  /** What goes, in the directory `g`. */
  predicate GarbageIn(objects: Objects, now: Instant, lost: set<Key>, g: DirName, k: Key) {
    var home := FileIn(g, MANIFEST);
    if home in objects
    then objects[home].ManifestObject? && k != home && k !in NamedBy(objects[home].m)
    else !SeemsBusy(objects, now, lost, g)
  }

  ghost predicate Garbage(objects: Objects, now: Instant, lost: set<Key>, k: Key) {
    k in objects && exists g: DirName :: InDir(k, g) && GarbageIn(objects, now, lost, g, k)
  }

  /** Every manifest can be read. */
  ghost predicate AllReadable(objects: Objects, lost: set<Key>) {
    forall k <- objects, g: DirName :: InDir(k, g) && k == FileIn(g, MANIFEST) ==> Readable(objects, lost, k)
  }

  lemma OneDir(k: Key, g: DirName, h: DirName)
    requires InDir(k, g) && InDir(k, h)
    ensures g == h
  {
  }

  lemma ManifestInDir(g: DirName, k: Key, file: string)
    requires InDir(k, g) && Plain(file)
    ensures InDir(FileIn(g, file), g)
  {
    SplitThree(k);
    SplitPath(g.0, g.1, file);
  }

  ghost predicate CleanedFrom(before: Objects, now: Instant, lost: set<Key>, after: Objects) {
    && (forall k :: k in after <==> k in before && !Garbage(before, now, lost, k))
    && (forall k <- after :: after[k] == before[k])
  }

  // ---- The command -----------------------------------------------------------------------------------

  /** Every object by the directory it belongs to. */
  method Group(objects: Objects) returns (groups: map<DirName, set<Key>>)
    ensures forall g <- groups :: groups[g] != {} && forall k <- groups[g] :: k in objects && InDir(k, g)
    ensures forall k <- objects, g: DirName :: InDir(k, g) ==> g in groups && k in groups[g]
  {
    hide Split;
    groups := map[];
    var left := objects.Keys;
    while left != {}
      invariant left <= objects.Keys
      invariant forall g <- groups :: groups[g] != {} && forall k <- groups[g] :: k in objects && InDir(k, g)
      invariant forall k <- objects, g: DirName :: k !in left && InDir(k, g) ==> g in groups && k in groups[g]
      decreases left
    {
      var k :| k in left;
      left := left - {k};
      var parts := Split(k);
      if |parts| == 3 && parts[0] != "pins" {
        var g := (parts[0], parts[1]);
        groups := groups[g := (if g in groups then groups[g] else {}) + {k}];
      }
    }
  }

  datatype Judged = Unreadable | Doomed(keys: set<Key>)

  /** One directory: what of it goes. */
  method Judge(objects: Objects, now: Instant, lost: set<Key>, g: DirName, files: set<Key>) returns (r: Judged)
    requires forall k <- files :: k in objects && InDir(k, g)
    requires forall k <- objects :: InDir(k, g) ==> k in files
    requires files != {}
    ensures r.Unreadable? <==> FileIn(g, MANIFEST) in objects && !Readable(objects, lost, FileIn(g, MANIFEST))
    ensures r.Doomed? ==> r.keys == set k | k in files && GarbageIn(objects, now, lost, g, k)
  {
    hide Split, Path;
    var manifest, pending := FileIn(g, MANIFEST), FileIn(g, PENDING);
    var some :| some in files;
    ManifestInDir(g, some, MANIFEST);
    ManifestInDir(g, some, PENDING);
    if manifest !in files {
      if pending in files && pending !in lost {
        match objects[pending]
        case MarkerObject(p) =>
          if p.LeaseLive(now) {
            return Doomed({});
          }
        case _ => // unreadable: treated as abandoned
      }
      return Doomed(files);
    }
    if manifest in lost || !objects[manifest].ManifestObject? {
      return Unreadable;
    }
    var expected := NamedBy(objects[manifest].m) + {manifest};
    return Doomed(files - expected);
  }

  datatype Outcome =
    | Cleaned(removed: set<Key>)
    | BadManifest
    | DeleteFailed(doomed: set<Key>)

  /** Every state from `from` on is `before` with some of `doomed` gone. */
  ghost predicate OnlyGone(seen: seq<Objects>, from: nat, before: Objects, doomed: set<Key>) {
    forall i :: from <= i < |seen| ==> exists gone :: gone <= doomed && seen[i] == before - gone
  }

  /** Judge every directory, then delete. Nothing is deleted when any manifest cannot be read. */
  method Clean(b: Bucket, now: Instant, lost: set<Key>, dryRun: bool) returns (r: Outcome)
    requires b.Valid()
    modifies b
    ensures b.Valid() && old(b.seen) <= b.seen
    ensures r.BadManifest? || dryRun ==> b.seen == old(b.seen)
    ensures r.Cleaned? ==> OnlyGone(b.seen, |old(b.seen)|, old(b.objects), r.removed)
    ensures r.DeleteFailed? ==> OnlyGone(b.seen, |old(b.seen)|, old(b.objects), r.doomed)
    ensures r.BadManifest? <==> !AllReadable(old(b.objects), lost)
    ensures r.BadManifest? ==> b.objects == old(b.objects)
    ensures r.Cleaned? ==>
      && (forall k :: k in r.removed <==> Garbage(old(b.objects), now, lost, k))
      && (if dryRun then b.objects == old(b.objects) else CleanedFrom(old(b.objects), now, lost, b.objects))
    ensures r.DeleteFailed? ==>
      && (forall k :: k in r.doomed <==> Garbage(old(b.objects), now, lost, k))
      && (exists gone :: gone <= r.doomed && b.objects == old(b.objects) - gone)
      && b.faults > old(b.faults) && !dryRun
  {
    var objects := b.objects;
    var groups := Group(objects);
    var ok, doomed := JudgeAll(objects, now, lost, groups);
    if !ok {
      return BadManifest;
    }
    assert OnlyGone(b.seen, |b.seen|, objects, doomed);
    hide *;
    if dryRun {
      return Cleaned(doomed);
    }
    ok := RemoveAll(b, doomed);
    if ok {
      Removed(objects, now, lost, doomed);
    }
    return if ok then Cleaned(doomed) else DeleteFailed(doomed);
  }

  lemma Removed(objects: Objects, now: Instant, lost: set<Key>, doomed: set<Key>)
    requires forall k :: k in doomed <==> Garbage(objects, now, lost, k)
    ensures CleanedFrom(objects, now, lost, objects - doomed)
  {
    hide Garbage;
  }

  method RemoveAll(b: Bucket, doomed: set<Key>) returns (ok: bool)
    requires b.Valid()
    modifies b
    ensures b.Valid() && old(b.seen) <= b.seen && OnlyGone(b.seen, |old(b.seen)|, old(b.objects), doomed)
    ensures ok ==> b.objects == old(b.objects) - doomed
    ensures exists gone :: gone <= doomed && b.objects == old(b.objects) - gone
    ensures !ok ==> b.faults > old(b.faults)
  {
    ghost var objects, from := b.objects, |b.seen|;
    var left := doomed;
    assert b.objects == objects - {};
    while left != {}
      invariant b.Valid() && old(b.seen) <= b.seen && OnlyGone(b.seen, from, objects, doomed)
      invariant left <= doomed && b.objects == objects - (doomed - left) && b.faults == old(b.faults)
      decreases left
    {
      var k :| k in left;
      var deleted := b.Delete(k);
      assert (objects - (doomed - left)) - {k} == objects - (doomed - (left - {k}));
      if !deleted {
        return false;
      }
      left := left - {k};
    }
    assert doomed - left == doomed;
    return true;
  }

  ghost predicate JudgedIn(objects: Objects, now: Instant, lost: set<Key>, dirs: set<DirName>, k: Key) {
    exists g :: g in dirs && InDir(k, g) && GarbageIn(objects, now, lost, g, k)
  }

  method JudgeAll(objects: Objects, now: Instant, lost: set<Key>, groups: map<DirName, set<Key>>)
    returns (ok: bool, doomed: set<Key>)
    requires forall g <- groups :: groups[g] != {} && forall k <- groups[g] :: k in objects && InDir(k, g)
    requires forall k <- objects, g: DirName :: InDir(k, g) ==> g in groups && k in groups[g]
    ensures ok <==> AllReadable(objects, lost)
    ensures ok ==> forall k :: k in doomed <==> Garbage(objects, now, lost, k)
  {
    hide Split, Path, GarbageIn, NamedBy;
    doomed := {};
    var left := groups.Keys;
    while left != {}
      invariant left <= groups.Keys
      invariant forall g <- groups :: g !in left ==>
        (FileIn(g, MANIFEST) in objects ==> Readable(objects, lost, FileIn(g, MANIFEST)))
      invariant forall k <- doomed :: k in objects && JudgedIn(objects, now, lost, groups.Keys - left, k)
      invariant forall g <- groups :: g !in left ==>
        forall k <- groups[g] :: GarbageIn(objects, now, lost, g, k) ==> k in doomed
      decreases left
    {
      var g :| g in left;
      var r := Judge(objects, now, lost, g, groups[g]);
      if r.Unreadable? {
        var some :| some in groups[g];
        ManifestInDir(g, some, MANIFEST);
        return false, {};
      }
      left := left - {g};
      doomed := doomed + r.keys;
    }
    ok := true;
  }

  // ---- What it means ----------------------------------------------------------------------------

  lemma GarbageHere(objects: Objects, now: Instant, lost: set<Key>, g: DirName, k: Key)
    requires k in objects && InDir(k, g)
    ensures Garbage(objects, now, lost, k) <==> GarbageIn(objects, now, lost, g, k)
  {
    hide Split, GarbageIn;
    forall h: DirName | InDir(k, h)
      ensures h == g
    {
      OneDir(k, g, h);
    }
  }

  /** A directory's manifest is never removed, nor is anything outside the snapshot directories. */
  lemma ManifestSpared(objects: Objects, now: Instant, lost: set<Key>, g: DirName, k: Key)
    requires Garbage(objects, now, lost, k)
    ensures |Split(k)| == 3 && Split(k)[0] != "pins"
    ensures InDir(k, g) ==> k != FileIn(g, MANIFEST)
  {
    hide Split, Path, NamedBy;
    if InDir(k, g) {
      GarbageHere(objects, now, lost, g, k);
    }
  }

  function HomeOf(m: Manifest): DirName { (Hex(m.datasetGuid), Hex(m.snapshotGuid)) }

  lemma ManifestAtHome(m: Manifest)
    ensures InDir(ManifestKey(m.datasetGuid, m.snapshotGuid), HomeOf(m))
    ensures FileIn(HomeOf(m), MANIFEST) == ManifestKey(m.datasetGuid, m.snapshotGuid)
  {
    hide Split, Hex;
    KeyParts(m.datasetGuid, m.snapshotGuid, 0);
    HexPlain(m.datasetGuid);
  }

  lemma ChunkAtHome(m: Manifest, i: nat)
    ensures InDir(ChunkKey(m.datasetGuid, m.snapshotGuid, i), HomeOf(m))
    ensures FileIn(HomeOf(m), MANIFEST) == ManifestKey(m.datasetGuid, m.snapshotGuid)
  {
    hide Split, Hex;
    KeyParts(m.datasetGuid, m.snapshotGuid, i);
    HexPlain(m.datasetGuid);
  }

  /** No chunk that a manifest names is removed, provided the manifest is stored under its own GUIDs. */
  lemma NamedChunkSpared(objects: Objects, now: Instant, lost: set<Key>, m: Manifest, c: Chunk)
    requires Filed(objects, m) && c in m.chunks
    ensures !Garbage(objects, now, lost, ChunkKey(m.datasetGuid, m.snapshotGuid, c.index))
  {
    hide Split, Hex, ChunkName;
    var k := ChunkKey(m.datasetGuid, m.snapshotGuid, c.index);
    ChunkAtHome(m, c.index);
    if k in objects {
      GarbageHere(objects, now, lost, HomeOf(m), k);
    }
  }

  /** That proviso is needed: a manifest found anywhere else protects nothing. Its chunks go unless
      their own directory has a manifest that names them too, or one that cannot be decoded (and
      stops the whole command), or no manifest and a send that seems to be at work. */
  lemma MisfiledProtectsNothing(objects: Objects, now: Instant, lost: set<Key>, at: Key, m: Manifest, c: Chunk)
    requires at in objects && objects[at] == ManifestObject(m) && c in m.chunks
    requires at != ManifestKey(m.datasetGuid, m.snapshotGuid)
    requires ChunkKey(m.datasetGuid, m.snapshotGuid, c.index) in objects
    ensures var home, k := ManifestKey(m.datasetGuid, m.snapshotGuid), ChunkKey(m.datasetGuid, m.snapshotGuid, c.index);
      !Garbage(objects, now, lost, k) <==>
        if home in objects
        then objects[home].ManifestObject? ==> k in NamedBy(objects[home].m)
        else SeemsBusy(objects, now, lost, HomeOf(m))
  {
    var k := ChunkKey(m.datasetGuid, m.snapshotGuid, c.index);
    ChunkAtHome(m, c.index);
    ChunkIsNoManifest(m, c.index);
    hide Split, Hex, ChunkName, SeemsBusy, NamedBy, ManifestKey, ChunkKey;
    GarbageHere(objects, now, lost, HomeOf(m), k);
  }

  lemma ChunkIsNoManifest(m: Manifest, i: nat)
    ensures ChunkKey(m.datasetGuid, m.snapshotGuid, i) != ManifestKey(m.datasetGuid, m.snapshotGuid)
  {
    KeysDistinct(m.datasetGuid, m.snapshotGuid, i, m.datasetGuid, m.snapshotGuid, i);
  }

  /** In a directory without a manifest whose marker's lease is live, everything goes exactly if
      the marker cannot be read just then; otherwise nothing does. */
  lemma LiveSendSpared(objects: Objects, now: Instant, lost: set<Key>, g: DirName, k: Key)
    requires k in objects && InDir(k, g) && FileIn(g, MANIFEST) !in objects
    requires FileIn(g, PENDING) in objects && objects[FileIn(g, PENDING)].MarkerObject?
    requires objects[FileIn(g, PENDING)].p.LeaseLive(now)
    ensures Garbage(objects, now, lost, k) <==> FileIn(g, PENDING) in lost
  {
    hide Split;
    GarbageHere(objects, now, lost, g, k);
  }

  /** A directory without a manifest, in plain terms: everything in it goes, unless its marker can be
      read and was renewed less than five minutes ago. */
  lemma AbandonedGoes(objects: Objects, now: Instant, lost: set<Key>, g: DirName, k: Key)
    requires k in objects && InDir(k, g) && FileIn(g, MANIFEST) !in objects
    ensures var marker := FileIn(g, PENDING);
      !Garbage(objects, now, lost, k) <==>
        && marker in objects && marker !in lost && objects[marker].MarkerObject?
        && now < objects[marker].p.refreshedAt + 5 * 60 * 1_000_000_000
  {
    hide Split;
    GarbageHere(objects, now, lost, g, k);
  }

  /** Complete: what is left in a directory is its manifest, a chunk it names, or part of a send
      that is still live. */
  lemma CleanComplete(before: Objects, now: Instant, lost: set<Key>, after: Objects, g: DirName, k: Key)
    requires CleanedFrom(before, now, lost, after) && AllReadable(before, lost)
    requires k in after && InDir(k, g)
    ensures var home := FileIn(g, MANIFEST);
      if home in before then
        home in after && after[home].ManifestObject? && (k == home || k in NamedBy(after[home].m))
      else SeemsBusy(before, now, lost, g) && SeemsBusy(after, now, lost, g)
  {
    hide Split, NamedBy, Path;
    GarbageHere(before, now, lost, g, k);
    ManifestInDir(g, k, MANIFEST);
    ManifestInDir(g, k, PENDING);
    if FileIn(g, MANIFEST) in before {
      GarbageHere(before, now, lost, g, FileIn(g, MANIFEST));
      assert Readable(before, lost, FileIn(g, MANIFEST));
    } else {
      GarbageHere(before, now, lost, g, FileIn(g, PENDING));
    }
  }

  /** Idempotent: at the same time, on what is left, nothing more is garbage, as long as no marker
      that could be read before is unreadable now. */
  lemma CleanIdempotent(before: Objects, now: Instant, lost: set<Key>, after: Objects, lost': set<Key>, k: Key)
    requires CleanedFrom(before, now, lost, after) && AllReadable(before, lost)
    requires lost' <= lost
    ensures !Garbage(after, now, lost', k)
  {
    hide Split, NamedBy, Path;
    if Garbage(after, now, lost', k) {
      var g: DirName :| InDir(k, g) && GarbageIn(after, now, lost', g, k);
      CleanComplete(before, now, lost, after, g, k);
      ManifestInDir(g, k, MANIFEST);
    }
  }
}
