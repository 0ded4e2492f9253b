/** `retention`: decide what to keep, then delete the rest, backup by backup, manifest first. */
module Expiring {
  import opened Bytes
  import opened Manifests
  import opened Chains
  import opened Retention
  import opened RetentionLaws
  import opened Keys
  import opened Storage
  import opened Listing

  /** `--dataset`: a name, or the beginning of one when it ends in `*`. */
  predicate Matches(pattern: Option<string>, name: string) {
    match pattern
    case None => true
    case Some(d) => if d != [] && d[|d| - 1] == '*' then d[..|d| - 1] <= name else name == d
  }

  function Scoped(all: seq<Manifest>, pattern: Option<string>): (r: seq<Manifest>) {
    if all == [] then [] else
    var r := Scoped(all[..|all| - 1], pattern);
    if Matches(pattern, all[|all| - 1].dataset) then r + [all[|all| - 1]] else r
  }

  /** Narrowing keeps the order. */
  lemma {:induction false} ScopedInOrder(all: seq<Manifest>, pattern: Option<string>)
    requires InListingOrder(all)
    ensures InListingOrder(Scoped(all, pattern))
    ensures forall m <- Scoped(all, pattern) :: m in all
  {
    if all != [] {
      var front, last := all[..|all| - 1], all[|all| - 1];
      ScopedInOrder(front, pattern);
      forall m <- Scoped(front, pattern)
        ensures !Before(last, m)
      {
        assert m in front;
      }
    }
  }

  /** What goes after the manifest. */
  function Trailing(m: Manifest): set<Key> {
    NamedBy(m) + {PendingKey(m.datasetGuid, m.snapshotGuid)}
  }

  function KeysOf(m: Manifest): set<Key> {
    Trailing(m) + {ManifestKey(m.datasetGuid, m.snapshotGuid)}
  }

  ghost predicate IsDoomed(all: seq<Manifest>, keep: set<Guid>, j: nat) {
    j < |all| && all[j].snapshotGuid !in keep
  }

  /** Nothing of the backup is left. */
  ghost predicate Erased(now: Objects, m: Manifest) {
    ManifestKey(m.datasetGuid, m.snapshotGuid) !in now && now.Keys !! NamedBy(m)
  }

  /** At position `i` of the list: the doomed before it are erased, nothing of the doomed after it
      is gone, and where a chunk or a marker is gone, so is the manifest. */
  ghost predicate PartWayAt(before: Objects, now: Objects, all: seq<Manifest>, keep: set<Guid>, i: nat) {
    && (forall k <- now :: k in before && now[k] == before[k])
    && (forall k <- before :: k !in now ==> exists j: nat :: j <= i && IsDoomed(all, keep, j) && k in KeysOf(all[j]))
    && (forall j: nat :: j < i && IsDoomed(all, keep, j) ==> Erased(now, all[j]))
    && (forall m: Manifest :: ManifestFirst(before, now, m))
  }

  ghost predicate ManifestFirst(before: Objects, now: Objects, m: Manifest) {
    (exists k <- Trailing(m) :: k in before && k !in now) ==> ManifestKey(m.datasetGuid, m.snapshotGuid) !in now
  }

  ghost predicate PartWay(before: Objects, now: Objects, all: seq<Manifest>, keep: set<Guid>) {
    exists i: nat :: i <= |all| && PartWayAt(before, now, all, keep, i)
  }

  /** Chunks and markers belong to one snapshot, and are no manifests. */
  lemma TrailingOwner(m: Manifest, m': Manifest, k: Key)
    requires k in Trailing(m)
    ensures k != ManifestKey(m'.datasetGuid, m'.snapshotGuid)
    ensures k in Trailing(m') ==> m.datasetGuid == m'.datasetGuid && m.snapshotGuid == m'.snapshotGuid
  {
    hide ManifestKey, ChunkKey, PendingKey;
    var i := NumberOf(m, k);
    KeysDistinct(m.datasetGuid, m.snapshotGuid, i, m'.datasetGuid, m'.snapshotGuid, 0);
    KeysDistinct(m'.datasetGuid, m'.snapshotGuid, 0, m.datasetGuid, m.snapshotGuid, i);
    if k in Trailing(m') {
      var i' := NumberOf(m', k);
      KeysDistinct(m.datasetGuid, m.snapshotGuid, i, m'.datasetGuid, m'.snapshotGuid, i');
      KeysDistinct(m'.datasetGuid, m'.snapshotGuid, i', m.datasetGuid, m.snapshotGuid, i);
    }
  }

  lemma NumberOf(m: Manifest, k: Key) returns (i: nat)
    requires k in Trailing(m)
    ensures k == PendingKey(m.datasetGuid, m.snapshotGuid) || k == ChunkKey(m.datasetGuid, m.snapshotGuid, i)
  {
    hide ManifestKey, ChunkKey, PendingKey;
    i := 0;
    if k in NamedBy(m) {
      var c :| c in m.chunks && k == ChunkKey(m.datasetGuid, m.snapshotGuid, c.index);
      i := c.index;
    }
  }

  lemma DeleteStep(before: Objects, now: Objects, all: seq<Manifest>, keep: set<Guid>, i: nat, k: Key)
    requires PartWayAt(before, now, all, keep, i) && IsDoomed(all, keep, i) && k in KeysOf(all[i])
    requires var home := ManifestKey(all[i].datasetGuid, all[i].snapshotGuid); k == home || home !in now
    ensures PartWayAt(before, now - {k}, all, keep, i)
  {
    hide ManifestKey, ChunkKey, PendingKey, Trailing, NamedBy;
    forall m: Manifest
      ensures ManifestFirst(before, now - {k}, m)
    {
      assert ManifestFirst(before, now, m);
      if k in Trailing(m) {
        TrailingOwner(m, all[i], k);
      }
    }
  }

  lemma OwnKeys(m: Manifest)
    ensures ManifestKey(m.datasetGuid, m.snapshotGuid) in KeysOf(m)
    ensures PendingKey(m.datasetGuid, m.snapshotGuid) in KeysOf(m)
    ensures forall c <- m.chunks :: ChunkKey(m.datasetGuid, m.snapshotGuid, c.index) in KeysOf(m)
  {
    hide ManifestKey, ChunkKey, PendingKey;
  }

  lemma NextPosition(before: Objects, now: Objects, all: seq<Manifest>, keep: set<Guid>, i: nat)
    requires PartWayAt(before, now, all, keep, i) && i < |all|
    requires all[i].snapshotGuid in keep || Erased(now, all[i])
    ensures PartWayAt(before, now, all, keep, i + 1)
  {
    hide NamedBy, ManifestKey, KeysOf;
  }

  /** Every state from `from` on is part-way. */
  ghost predicate Throughout(seen: seq<Objects>, from: nat, before: Objects, all: seq<Manifest>, keep: set<Guid>) {
    from <= |seen| && forall i :: from <= i < |seen| ==> PartWay(before, seen[i], all, keep)
  }

  datatype Retained = NoPolicy | DeletesAll | NoMatch | Done(keep: set<Guid>) | Stopped(keep: set<Guid>)

  /** Delete one object of the `i`th backup. */
  method DeleteOne(b: Bucket, k: Key, ghost before: Objects, ghost from: nat, ghost all: seq<Manifest>,
                   ghost keep: set<Guid>, ghost i: nat)
    returns (ok: bool)
    requires b.Valid() && i <= |all|
    requires PartWayAt(before, b.objects, all, keep, i) && Throughout(b.seen, from, before, all, keep)
    requires PartWayAt(before, b.objects - {k}, all, keep, i)
    modifies b
    ensures b.Valid() && old(b.seen) <= b.seen
    ensures PartWayAt(before, b.objects, all, keep, i) && Throughout(b.seen, from, before, all, keep)
    ensures b.objects == old(b.objects) || b.objects == old(b.objects) - {k}
    ensures ok ==> k !in b.objects
    ensures b.faults == old(b.faults) + if ok then 0 else 1
  {
    hide PartWayAt;
    ok := b.Delete(k);
  }

  ghost predicate ChunksGone(now: Objects, m: Manifest, n: nat) {
    forall j :: 0 <= j < n && j < |m.chunks| ==> ChunkKey(m.datasetGuid, m.snapshotGuid, m.chunks[j].index) !in now
  }

  lemma ChunksGoneNext(now: Objects, later: Objects, m: Manifest, n: nat)
    requires ChunksGone(now, m, n) && later.Keys <= now.Keys && n < |m.chunks|
    requires ChunkKey(m.datasetGuid, m.snapshotGuid, m.chunks[n].index) !in later
    ensures ChunksGone(later, m, n + 1)
  {
    hide ChunkKey;
  }

  lemma NowErased(now: Objects, later: Objects, m: Manifest)
    requires ManifestKey(m.datasetGuid, m.snapshotGuid) !in now && ChunksGone(now, m, |m.chunks|)
    requires later.Keys <= now.Keys
    ensures Erased(later, m)
  {
    hide ManifestKey, ChunkKey;
  }

  /** Delete one backup: its manifest, its chunks, and a marker if there is one. */
  method Expire(b: Bucket, ghost before: Objects, ghost from: nat, all: seq<Manifest>, ghost keep: set<Guid>, i: nat)
    returns (ok: bool)
    requires b.Valid() && IsDoomed(all, keep, i)
    requires PartWayAt(before, b.objects, all, keep, i) && Throughout(b.seen, from, before, all, keep)
    modifies b
    ensures b.Valid() && old(b.seen) <= b.seen
    ensures PartWayAt(before, b.objects, all, keep, i) && Throughout(b.seen, from, before, all, keep)
    ensures ok ==> Erased(b.objects, all[i])
    ensures b.objects.Keys <= old(b.objects).Keys && b.faults >= old(b.faults) && (!ok ==> b.faults > old(b.faults))
    ensures b.faults == old(b.faults) ==> PendingKey(all[i].datasetGuid, all[i].snapshotGuid) !in b.objects
  {
    var m := all[i];
    hide *;
    var manifest, pending := ManifestKey(m.datasetGuid, m.snapshotGuid), PendingKey(m.datasetGuid, m.snapshotGuid);
    OwnKeys(m);
    DeleteStep(before, b.objects, all, keep, i, manifest);
    ok := DeleteOne(b, manifest, before, from, all, keep, i);
    if !ok {
      return;
    }
    assert ChunksGone(b.objects, m, 0) by { NoChunks(b.objects, m); }
    for n := 0 to |m.chunks|
      invariant b.Valid() && old(b.seen) <= b.seen
      invariant PartWayAt(before, b.objects, all, keep, i) && Throughout(b.seen, from, before, all, keep)
      invariant manifest !in b.objects && ChunksGone(b.objects, m, n)
      invariant b.objects.Keys <= old(b.objects).Keys && b.faults == old(b.faults)
    {
      ghost var now := b.objects;
      ok := ExpireChunk(b, before, from, all, keep, i, n);
      if !ok {
        return;
      }
      ChunksGoneNext(now, b.objects, m, n);
    }
    ghost var now := b.objects;
    DeleteStep(before, b.objects, all, keep, i, pending);
    var marker := DeleteOne(b, pending, before, from, all, keep, i);
    NowErased(now, b.objects, m);
    ok := true;
  }

  lemma NoChunks(now: Objects, m: Manifest)
    ensures ChunksGone(now, m, 0)
  {
  }

  /** The `n`th chunk of the `i`th backup, whose manifest is gone. */
  method ExpireChunk(b: Bucket, ghost before: Objects, ghost from: nat, all: seq<Manifest>, ghost keep: set<Guid>,
                     i: nat, n: nat)
    returns (ok: bool)
    requires b.Valid() && IsDoomed(all, keep, i) && n < |all[i].chunks|
    requires PartWayAt(before, b.objects, all, keep, i) && Throughout(b.seen, from, before, all, keep)
    requires ManifestKey(all[i].datasetGuid, all[i].snapshotGuid) !in b.objects
    modifies b
    ensures b.Valid() && old(b.seen) <= b.seen && b.objects.Keys <= old(b.objects).Keys
    ensures PartWayAt(before, b.objects, all, keep, i) && Throughout(b.seen, from, before, all, keep)
    ensures ok ==> ChunkKey(all[i].datasetGuid, all[i].snapshotGuid, all[i].chunks[n].index) !in b.objects
    ensures b.faults == old(b.faults) + if ok then 0 else 1
  {
    var m := all[i];
    var c := m.chunks[n];
    assert c in m.chunks;
    hide *;
    OwnKeys(m);
    DeleteStep(before, b.objects, all, keep, i, ChunkKey(m.datasetGuid, m.snapshotGuid, c.index));
    ok := DeleteOne(b, ChunkKey(m.datasetGuid, m.snapshotGuid, c.index), before, from, all, keep, i);
  }

  method Select(all: seq<Manifest>, pattern: Option<string>) returns (r: seq<Manifest>)
    ensures r == Scoped(all, pattern)
  {
    r := [];
    for i := 0 to |all|
      invariant r == Scoped(all[..i], pattern)
    {
      assert all[..i + 1][..i] == all[..i];
      if Matches(pattern, all[i].dataset) {
        r := r + [all[i]];
      }
    }
    assert all[..|all|] == all;
  }

  /** How many of each dataset to keep: one, if nothing is said. */
  function Newest(keepLast: Option<nat>): nat {
    if keepLast.Some? then keepLast.value else 1
  }

  /** Of the doomed among the first `n` no marker is left. */
  ghost predicate MarkersGone(now: Objects, all: seq<Manifest>, keep: set<Guid>, n: nat) {
    forall j: nat :: j < n && IsDoomed(all, keep, j) ==> PendingKey(all[j].datasetGuid, all[j].snapshotGuid) !in now
  }

  lemma MarkersGoneNext(now: Objects, later: Objects, all: seq<Manifest>, keep: set<Guid>, n: nat)
    requires MarkersGone(now, all, keep, n) && later.Keys <= now.Keys
    requires IsDoomed(all, keep, n) ==> PendingKey(all[n].datasetGuid, all[n].snapshotGuid) !in later
    ensures MarkersGone(later, all, keep, n + 1)
  {
    hide PendingKey;
  }

  /** `--dataset` in plain terms: a name that does not end in `*` stands for itself, one that does for
      every name it begins, and none at all for every name. */
  lemma MatchesExactly(d: string, name: string)
    ensures Matches(None, name)
    ensures Matches(Some(d + "*"), name) <==> d <= name
    ensures (d == [] || d[|d| - 1] != '*') ==> (Matches(Some(d), name) <==> name == d)
  {
    assert (d + "*")[..|d + "*"| - 1] == d;
  }

  /** A retention run. */
  method Retain(b: Bucket, everything: seq<Manifest>, pattern: Option<string>, keepLast: Option<nat>,
                cutoff: Option<Instant>, pinned: set<Guid>, dryRun: bool)
    returns (r: Retained)
    requires b.Valid()
    modifies b
    ensures b.Valid() && old(b.seen) <= b.seen
    ensures r.NoPolicy? <==> keepLast.None? && cutoff.None?
    ensures r.DeletesAll? <==> keepLast == Some(0) && cutoff.None?
    ensures r.NoMatch? <==>
      ((keepLast.Some? && keepLast.value > 0) || cutoff.Some?) && pattern.Some? && Scoped(everything, pattern) == []
    ensures r.NoPolicy? || r.DeletesAll? || r.NoMatch? || dryRun ==> b.seen == old(b.seen)
    ensures r.Done? || r.Stopped? ==>
      && IsKeepSet(Scoped(everything, pattern), Policy(pinned, cutoff, Newest(keepLast)), r.keep)
      && (forall g :: g in r.keep <==>
            var newest := if keepLast == None then 1 else keepLast.value;
            WantedOrBehind(Scoped(everything, pattern), pinned, cutoff, newest, g))
      && Throughout(b.seen, |old(b.seen)|, old(b.objects), Scoped(everything, pattern), r.keep)
    ensures r.Done? && !dryRun ==>
      && PartWayAt(old(b.objects), b.objects, Scoped(everything, pattern), r.keep, |Scoped(everything, pattern)|)
      && (b.faults == old(b.faults) ==>
            MarkersGone(b.objects, Scoped(everything, pattern), r.keep, |Scoped(everything, pattern)|))
    ensures r.Stopped? ==> b.faults > old(b.faults) && !dryRun
  {
    var newest := Newest(keepLast);
    assert keepLast.Some? ==> newest == keepLast.value;
    assert keepLast.None? ==> newest == 1;
    hide *;
    if keepLast.None? && cutoff.None? {
      return NoPolicy;
    }
    if newest == 0 && cutoff.None? {
      return DeletesAll;
    }
    var all := Select(everything, pattern);
    if pattern.Some? && all == [] {
      return NoMatch;
    }
    var keep := KeepSet(all, Policy(pinned, cutoff, newest));
    Unchanged(b.seen, b.objects, all, keep);
    if dryRun {
      return Done(keep);
    }
    var ok := ExpireAll(b, all, keep);
    return if ok then Done(keep) else Stopped(keep);
  }

  /** Delete everything outside `keep`, one backup after another in listing order, stopping at the
      first failure. */
  method ExpireAll(b: Bucket, all: seq<Manifest>, keep: set<Guid>) returns (ok: bool)
    requires b.Valid()
    modifies b
    ensures b.Valid() && old(b.seen) <= b.seen
    ensures Throughout(b.seen, |old(b.seen)|, old(b.objects), all, keep)
    ensures PartWay(old(b.objects), b.objects, all, keep)
    ensures ok ==> PartWayAt(old(b.objects), b.objects, all, keep, |all|)
    ensures b.faults >= old(b.faults) && (!ok ==> b.faults > old(b.faults))
    ensures b.faults == old(b.faults) ==> MarkersGone(b.objects, all, keep, |all|)
  {
    ghost var before, from := b.objects, |b.seen|;
    Unchanged(b.seen, before, all, keep);
    assert MarkersGone(b.objects, all, keep, 0);
    hide *;
    for i := 0 to |all|
      invariant b.Valid() && old(b.seen) <= b.seen
      invariant PartWayAt(before, b.objects, all, keep, i) && Throughout(b.seen, from, before, all, keep)
      invariant b.faults >= old(b.faults) && (b.faults == old(b.faults) ==> MarkersGone(b.objects, all, keep, i))
    {
      ghost var now := b.objects;
      assert IsDoomed(all, keep, i) <==> all[i].snapshotGuid !in keep by { DoomedAt(all, keep, i); }
      if all[i].snapshotGuid !in keep {
        ok := Expire(b, before, from, all, keep, i);
        if !ok {
          StillPartWay(before, b.objects, all, keep, i);
          return;
        }
      }
      NextPosition(before, b.objects, all, keep, i);
      if b.faults == old(b.faults) {
        MarkersGoneNext(now, b.objects, all, keep, i);
      }
    }
    StillPartWay(before, b.objects, all, keep, |all|);
    return true;
  }

  lemma DoomedAt(all: seq<Manifest>, keep: set<Guid>, i: nat)
    requires i < |all|
    ensures IsDoomed(all, keep, i) <==> all[i].snapshotGuid !in keep
  {
  }

  lemma StillPartWay(before: Objects, now: Objects, all: seq<Manifest>, keep: set<Guid>, i: nat)
    requires PartWayAt(before, now, all, keep, i) && i <= |all|
    ensures PartWay(before, now, all, keep)
  {
  }

  lemma Unchanged(seen: seq<Objects>, before: Objects, all: seq<Manifest>, keep: set<Guid>)
    ensures Throughout(seen, |seen|, before, all, keep) && PartWayAt(before, before, all, keep, 0)
  {
  }

  // ---- What every moment of a run guarantees -------------------------------------------------

  /** The archive `a`: each manifest once, listed, and stored under its own GUIDs. */
  ghost predicate Lists(everything: seq<Manifest>, objects: Objects, a: Index) {
    && Keyed(a)
    && (forall m <- everything :: m.snapshotGuid in a && a[m.snapshotGuid] == m)
    && (forall g <- a :: a[g] in everything && Filed(objects, a[g]))
  }

  ghost function InScope(a: Index, pattern: Option<string>): set<Guid> {
    set g | g in a && Matches(pattern, a[g].dataset)
  }

  lemma {:induction false} ScopedSelects(all: seq<Manifest>, a: Index, pattern: Option<string>)
    requires forall m <- all :: m.snapshotGuid in a && a[m.snapshotGuid] == m
    ensures forall m :: m in Scoped(all, pattern) <==> m in all && Matches(pattern, m.dataset)
    ensures forall g :: g in LastByGuid(Scoped(all, pattern)) <==>
      g in InScope(a, pattern) && exists m :: m in all && m.snapshotGuid == g
    ensures forall g <- LastByGuid(Scoped(all, pattern)) :: LastByGuid(Scoped(all, pattern))[g] == a[g]
  {
    if all != [] {
      var front, last := all[..|all| - 1], all[|all| - 1];
      assert all == front + [last];
      ScopedSelects(front, a, pattern);
      var r := Scoped(front, pattern);
      if Matches(pattern, last.dataset) {
        assert (r + [last])[..|r|] == r;
      }
    }
  }

  lemma SelectedByPattern(everything: seq<Manifest>, objects: Objects, a: Index, pattern: Option<string>)
    requires Lists(everything, objects, a)
    ensures Selected(Scoped(everything, pattern), a, InScope(a, pattern))
  {
    ScopedSelects(everything, a, pattern);
    SameIndex(LastByGuid(Scoped(everything, pattern)), a, InScope(a, pattern)) by {
      hide LastByGuid, Scoped, Filed;
      forall g <- InScope(a, pattern)
        ensures g in LastByGuid(Scoped(everything, pattern))
      {
        assert a[g] in everything && a[g].snapshotGuid == g;
      }
    }
  }

  lemma SameIndex(selected: Index, a: Index, scope: set<Guid>)
    requires scope <= a.Keys && selected.Keys == scope && forall g <- scope :: selected[g] == a[g]
    ensures selected == map g | g in a && g in scope :: a[g]
  {
  }

  /** The archive as it would be listed now. */
  ghost function Left(a: Index, now: Objects): Index {
    map g | g in a && Filed(now, a[g]) :: a[g]
  }

  ghost function Vanished(a: Index, now: Objects): set<Guid> {
    set g | g in a && !Filed(now, a[g])
  }

  lemma GoneIsDoomed(before: Objects, now: Objects, all: seq<Manifest>, keep: set<Guid>, i: nat, k: Key)
    returns (j: nat)
    requires PartWayAt(before, now, all, keep, i) && k in before && k !in now
    ensures j <= i && IsDoomed(all, keep, j) && k in KeysOf(all[j])
  {
    hide KeysOf, NamedBy;
    j :| j <= i && IsDoomed(all, keep, j) && k in KeysOf(all[j]);
  }

  /** A backup vanishes no earlier than the deletion reaches it in the list. */
  lemma VanishedIsDoomed(before: Objects, now: Objects, all: seq<Manifest>, keep: set<Guid>, i: nat, m: Manifest)
    returns (j: nat)
    requires PartWayAt(before, now, all, keep, i) && Filed(before, m) && !Filed(now, m)
    ensures j <= i && IsDoomed(all, keep, j) && all[j].snapshotGuid == m.snapshotGuid
  {
    var k := ManifestKey(m.datasetGuid, m.snapshotGuid);
    assert k !in now by {
      hide ManifestKey, KeysOf, NamedBy, Erased;
    }
    hide *;
    j := GoneIsDoomed(before, now, all, keep, i, k);
    OnlyItsOwn(m, all[j]);
  }

  lemma DoomedInScope(everything: seq<Manifest>, pattern: Option<string>, keep: set<Guid>, a: Index, j: nat)
    requires forall m <- everything :: m.snapshotGuid in a && a[m.snapshotGuid] == m
    requires IsDoomed(Scoped(everything, pattern), keep, j)
    ensures Scoped(everything, pattern)[j].snapshotGuid in InScope(a, pattern) - keep
  {
    ScopedSelects(everything, a, pattern);
    hide Scoped, LastByGuid;
    assert Scoped(everything, pattern)[j] in Scoped(everything, pattern);
  }

  /** Only doomed backups vanish. */
  lemma OnlyDoomedVanish(everything: seq<Manifest>, pattern: Option<string>, keep: set<Guid>, before: Objects,
                         now: Objects, a: Index)
    requires Lists(everything, before, a)
    requires PartWay(before, now, Scoped(everything, pattern), keep)
    ensures Vanished(a, now) <= InScope(a, pattern) - keep
    ensures Left(a, now) == Without(a, Vanished(a, now))
  {
    hide Scoped, LastByGuid, Filed, PartWayAt;
    var all := Scoped(everything, pattern);
    var i: nat :| i <= |all| && PartWayAt(before, now, all, keep, i);
    forall g <- Vanished(a, now)
      ensures g in InScope(a, pattern) - keep
    {
      assert Filed(before, a[g]) && !Filed(now, a[g]);
      hide *;
      var j := VanishedIsDoomed(before, now, all, keep, i, a[g]);
      DoomedInScope(everything, pattern, keep, a, j);
    }
  }

  lemma OnlyItsOwn(m: Manifest, m': Manifest)
    requires ManifestKey(m.datasetGuid, m.snapshotGuid) in KeysOf(m')
    ensures m.snapshotGuid == m'.snapshotGuid
  {
    hide ManifestKey, ChunkKey, PendingKey;
    KeysDistinct(m.datasetGuid, m.snapshotGuid, 0, m'.datasetGuid, m'.snapshotGuid, 0);
    forall c <- m'.chunks
      ensures ChunkKey(m'.datasetGuid, m'.snapshotGuid, c.index) != ManifestKey(m.datasetGuid, m.snapshotGuid)
    {
      KeysDistinct(m'.datasetGuid, m'.snapshotGuid, c.index, m.datasetGuid, m.snapshotGuid, 0);
    }
  }

  /** A listed backup still has every object it had. */
  ghost predicate Untouched(before: Objects, now: Objects, m: Manifest) {
    && Filed(now, m)
    && forall k <- NamedBy(m) :: k in before ==> k in now && now[k] == before[k]
  }

  lemma ListedIsUntouched(before: Objects, now: Objects, all: seq<Manifest>, keep: set<Guid>, m: Manifest)
    requires PartWay(before, now, all, keep) && Filed(now, m)
    ensures Untouched(before, now, m)
  {
    var i: nat :| i <= |all| && PartWayAt(before, now, all, keep, i);
    assert ManifestFirst(before, now, m);
    hide NamedBy, ManifestKey, PendingKey;
    assert forall k <- NamedBy(m) :: k in Trailing(m);
  }

  /** At every moment of a run, and wherever it stops: a snapshot that is kept or out of scope walks
      the very chain it walked before, and every backup on it has all its objects, provided no
      manifest out of scope is based on one the run deletes. For unscoped runs that is no proviso. */
  lemma KeptBackupsHold(everything: seq<Manifest>, pattern: Option<string>, p: Policy, keep: set<Guid>,
                        before: Objects, now: Objects, a: Index, tip: Guid)
    requires Lists(everything, before, a)
    requires IsKeepSet(Scoped(everything, pattern), p, keep)
    requires PartWay(before, now, Scoped(everything, pattern), keep)
    requires var doomed := InScope(a, pattern) - keep;
      tip in a && tip !in doomed && OutsideSpared(a, InScope(a, pattern), keep)
    ensures WalkFrom(Left(a, now), a[tip]) == WalkFrom(a, a[tip])
    ensures WalkFrom(a, a[tip]).Complete? ==> forall m <- WalkFrom(a, a[tip]).chain :: Untouched(before, now, m)
  {
    SelectedByPattern(everything, before, a, pattern);
    OnlyDoomedVanish(everything, pattern, keep, before, now, a);
    hide IsKeepSet, Scoped, PartWay, Lists, Untouched, Filed;
    KeptChainsNeverBreak(Scoped(everything, pattern), p, a, InScope(a, pattern), keep, Vanished(a, now), tip);
    var left := Left(a, now);
    assert tip in left;
    WalkOutcome(left, a[tip]);
    hide WalkFrom, InScope;
    if WalkFrom(a, a[tip]).Complete? {
      var chain := WalkFrom(a, a[tip]).chain;
      forall i: nat | i < |chain|
        ensures Untouched(before, now, chain[i])
      {
        assert chain[i].snapshotGuid in left && left[chain[i].snapshotGuid] == chain[i];
        ListedIsUntouched(before, now, Scoped(everything, pattern), keep, chain[i]);
      }
    }
  }

  // ---- Order ------------------------------------------------------------------------------------

  /** What is listed is the archive without the doomed ahead of position `i`. */
  ghost predicate LacksAheadOf(a: Index, now: Objects, all: seq<Manifest>, keep: set<Guid>, i: nat) {
    i <= |all| && Left(a, now) == Without(a, GoneBefore(all, keep, i))
  }

  /** Backups vanish in listing order: at every moment the archive lacks exactly the doomed ahead of
      some position. */
  lemma ListedInOrder(everything: seq<Manifest>, pattern: Option<string>, keep: set<Guid>, before: Objects,
                      now: Objects, a: Index)
    returns (i: nat)
    requires Lists(everything, before, a)
    requires PartWay(before, now, Scoped(everything, pattern), keep)
    ensures LacksAheadOf(a, now, Scoped(everything, pattern), keep, i)
  {
    OnlyDoomedVanish(everything, pattern, keep, before, now, a);
    ScopedSelects(everything, a, pattern);
    var all := Scoped(everything, pattern);
    forall m <- all
      ensures m.snapshotGuid in a && a[m.snapshotGuid] == m
    {
    }
    assert forall g <- a :: Filed(before, a[g]);
    hide Scoped, LastByGuid, Filed, PartWayAt, Lists, GoneBefore, Vanished, Without, Left;
    var n: nat :| n <= |all| && PartWayAt(before, now, all, keep, n);
    i := VanishedUpTo(all, keep, before, now, a, n);
  }

  lemma VanishedUpTo(all: seq<Manifest>, keep: set<Guid>, before: Objects, now: Objects, a: Index, n: nat)
    returns (i: nat)
    requires forall m <- all :: m.snapshotGuid in a && a[m.snapshotGuid] == m
    requires forall g <- a :: a[g].snapshotGuid == g && Filed(before, a[g])
    requires n <= |all| && PartWayAt(before, now, all, keep, n)
    ensures i <= |all| && Vanished(a, now) == GoneBefore(all, keep, i)
  {
    hide PartWayAt, Filed;
    forall j: nat | j < n && IsDoomed(all, keep, j)
      ensures all[j].snapshotGuid in Vanished(a, now)
    {
      assert all[j] in all;
      ErasedVanishes(before, now, all, keep, n, j);
    }
    i := if IsDoomed(all, keep, n) && all[n].snapshotGuid in Vanished(a, now) then n + 1 else n;
    forall g <- Vanished(a, now)
      ensures g in GoneBefore(all, keep, i)
    {
      var j := VanishedIsDoomed(before, now, all, keep, n, a[g]);
    }
    forall g <- GoneBefore(all, keep, i)
      ensures g in Vanished(a, now)
    {
      var j :| 0 <= j < i && all[j].snapshotGuid !in keep && all[j].snapshotGuid == g;
      assert IsDoomed(all, keep, j);
    }
  }

  lemma ErasedVanishes(before: Objects, now: Objects, all: seq<Manifest>, keep: set<Guid>, i: nat, j: nat)
    requires PartWayAt(before, now, all, keep, i) && j < i && IsDoomed(all, keep, j)
    ensures !Filed(now, all[j])
  {
    hide ManifestKey, NamedBy, KeysOf;
  }

  /** If no unneeded backup is listed after one it is based on, and the scope provides for what is
      outside it, then at every moment of a run everything still listed walks as before. Otherwise
      there is a position at which something does not: `ListingOrderExactly`. */
  lemma OrderlyRunsHold(everything: seq<Manifest>, pattern: Option<string>, p: Policy, keep: set<Guid>,
                        before: Objects, now: Objects, a: Index)
    requires Lists(everything, before, a) && Unique(Scoped(everything, pattern))
    requires IsKeepSet(Scoped(everything, pattern), p, keep)
    requires PartWay(before, now, Scoped(everything, pattern), keep)
    requires ListedDependentsFirst(Scoped(everything, pattern), p)
    requires OutsideNeeds(a, InScope(a, pattern), Scoped(everything, pattern), p)
    ensures WalksKept(Left(a, now), a)
  {
    var all := Scoped(everything, pattern);
    SelectedByPattern(everything, before, a, pattern);
    var i := ListedInOrder(everything, pattern, keep, before, now, a);
    ListingOrderExactly(all, p, a, InScope(a, pattern), keep);
    assert Left(a, now) == Without(a, GoneBefore(all, keep, i));
    hide *;
  }

  /** A run that does break a walk: any full and any incremental on it, both out of age and not
      pinned, listed in that order, with none kept for being new. One deletion later the incremental
      is listed and cannot be restored. */
  lemma DoomedMayDangle(full: Manifest, incremental: Manifest, cutoff: Instant)
    returns (everything: seq<Manifest>, states: seq<Objects>, a: Index)
    requires full.snapshotGuid != incremental.snapshotGuid && incremental.from == Some(full.snapshotGuid)
    requires full.from.None? && full.createdAt <= cutoff && incremental.createdAt <= cutoff
    ensures everything == [full, incremental] == Scoped(everything, None)
    ensures |states| == 2 && OneByOne(states) && Lists(everything, states[0], a)
    ensures IsKeepSet(everything, Policy({}, Some(cutoff), 0), {})
    ensures PartWay(states[0], states[1], everything, {})
    ensures WalkFrom(a, incremental).Complete?
    ensures incremental.snapshotGuid in Left(a, states[1]) && WalkFrom(Left(a, states[1]), incremental).Broken?
  {
    var f, i := full.snapshotGuid, incremental.snapshotGuid;
    var k := ManifestKey(full.datasetGuid, f);
    var before := Store(full, incremental);
    everything, states, a := [full, incremental], [before, before - {k}], map[f := full, i := incremental];
    TwoScoped(full, incremental);
    TwoListed(full, incremental);
    assert LosesOne(states[0], states[0] - {k});
    hide Store, IsKeepSet, PartWay, WalkFrom, Lists, Left, ManifestKey, Seeds, Scoped;
    NothingKept(everything, Policy({}, Some(cutoff), 0));
    FirstGone(before, everything);
    OneStep(a, incremental);
    OneStep(Left(a, states[1]), incremental);
  }

  /** A bucket with two manifests in it. */
  function Store(m: Manifest, n: Manifest): Objects {
    map[ManifestKey(m.datasetGuid, m.snapshotGuid) := ManifestObject(m),
        ManifestKey(n.datasetGuid, n.snapshotGuid) := ManifestObject(n)]
  }

  lemma TwoListed(m: Manifest, n: Manifest)
    requires m.snapshotGuid != n.snapshotGuid
    ensures var a := map[m.snapshotGuid := m, n.snapshotGuid := n];
      var later := Store(m, n) - {ManifestKey(m.datasetGuid, m.snapshotGuid)};
      && Lists([m, n], Store(m, n), a)
      && m.snapshotGuid !in Left(a, later) && n.snapshotGuid in Left(a, later)
  {
    KeysDistinct(m.datasetGuid, m.snapshotGuid, 0, n.datasetGuid, n.snapshotGuid, 0);
    hide ManifestKey;
  }

  /** A walk whose first link leads to a full, or out of the archive. */
  lemma OneStep(a: Index, tip: Manifest)
    requires tip.from.Some? && tip.from.value != tip.snapshotGuid
    ensures tip.from.value !in a ==> WalkFrom(a, tip).Broken?
    ensures tip.from.value in a && a[tip.from.value].from.None? ==> WalkFrom(a, tip).Complete?
  {
    if tip.from.value in a && a[tip.from.value].from.None? {
      assert WalkOn(a, a[tip.from.value], {tip.snapshotGuid} + {tip.from.value}, [tip] + [a[tip.from.value]]).Complete?;
    }
  }

  /** The first deletion of a run is of the first doomed manifest. */
  lemma FirstGone(before: Objects, all: seq<Manifest>)
    requires all != []
    ensures PartWay(before, before - {ManifestKey(all[0].datasetGuid, all[0].snapshotGuid)}, all, {})
  {
    Unchanged([], before, all, {});
    OwnKeys(all[0]);
    DeleteStep(before, before, all, {}, 0, ManifestKey(all[0].datasetGuid, all[0].snapshotGuid));
    hide PartWayAt;
  }

  /** Within one pool that is the order they are listed in. */
  lemma TwoInOrder(full: Manifest, incremental: Manifest)
    requires full.datasetGuid == incremental.datasetGuid && full.createtxg < incremental.createtxg
    ensures InListingOrder([full, incremental])
  {
  }

  lemma TwoScoped(m: Manifest, n: Manifest)
    ensures Scoped([m, n], None) == [m, n]
  {
    assert [m, n][..1] == [m] && [m][..0] == [];
    assert Scoped([m], None) == [m];
  }

  /** A scoped run that orphans: a full was archived, the dataset renamed and an incremental on that
      full archived, while the old name went to later fulls. The run keeps the newest under the old
      name and deletes the base of the incremental. */
  lemma RenamedDatasetOrphaned(base: Manifest, renamed: Manifest, newer: Manifest)
    returns (everything: seq<Manifest>, a: Index, keep: set<Guid>)
    requires base.from.None? && newer.from.None? && renamed.from == Some(base.snapshotGuid)
    requires base.dataset == newer.dataset == "a" && renamed.dataset == "b"
    requires base.datasetGuid == newer.datasetGuid && base.createdAt < newer.createdAt
    requires base.snapshotGuid != newer.snapshotGuid && newer.snapshotGuid != renamed.snapshotGuid
    requires renamed.snapshotGuid != base.snapshotGuid
    ensures everything == [base, newer, renamed] && Unique(everything) && keep == {newer.snapshotGuid}
    ensures Selected(Scoped(everything, Some("a")), a, InScope(a, Some("a")))
    ensures IsKeepSet(Scoped(everything, Some("a")), Policy({}, None, 1), keep)
    ensures WalkFrom(a, renamed).Complete?
    ensures var left := Without(a, InScope(a, Some("a")) - keep);
      renamed.snapshotGuid in left && WalkFrom(left, renamed).Broken?
  {
    hide WalkFrom;
    var b, r, n := base.snapshotGuid, renamed.snapshotGuid, newer.snapshotGuid;
    everything, keep := [base, newer, renamed], {n};
    a := map[b := base, r := renamed, n := newer];
    OldNameOnly(base, newer, renamed);
    NewestKept(base, newer, Policy({}, None, 1));
    assert Unique(everything);
    hide IsKeepSet, Unique;
    var scope := InScope(a, Some("a"));
    assert scope == {b, n};
    TwoIndexed(base, newer);
    SameIndex(LastByGuid([base, newer]), a, scope);
    assert Selected([base, newer], a, scope);
    hide Selected, Scoped, InScope;
    var left := Without(a, scope - keep);
    assert b !in left && r in left;
    OneStep(a, renamed);
    OneStep(left, renamed);
  }

  lemma OldNameOnly(m: Manifest, n: Manifest, renamed: Manifest)
    requires m.dataset == n.dataset == "a" && renamed.dataset == "b"
    ensures Scoped([m, n, renamed], Some("a")) == [m, n]
  {
    var all := [m, n, renamed];
    assert all[..2] == [m, n] && [m, n][..1] == [m] && [m][..0] == [];
    assert Scoped([m], Some("a")) == [m];
    assert Scoped([m, n], Some("a")) == [m, n];
  }
}
