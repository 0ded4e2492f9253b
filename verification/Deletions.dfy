/** What retention and cleaning delete, key by key, are steps of the protocol in the directory the
    key belongs to, and nothing in the others. */
module Deletions {
  import opened Bytes
  import opened Manifests
  import opened Keys
  import opened Storage
  import P = Protocol
  import E = Expiring
  import C = Cleaning

  // ---- What a directory shows -------------------------------------------------------------------

  function ManifestOf(id: P.DirId): Key { ManifestKey(id.0, id.1) }
  function PendingOf(id: P.DirId): Key { PendingKey(id.0, id.1) }
  function ChunkOf(id: P.DirId, i: nat): Key { ChunkKey(id.0, id.1, i) }

  function MarkerAt(objects: Objects, k: Key): P.Marker {
    if k !in objects then P.Absent
    else if objects[k].MarkerObject? then P.Readable(objects[k].p)
    else P.Unreadable
  }

  ghost predicate ManifestShown(objects: Objects, k: Key, found: Option<Manifest>) {
    if k in objects then objects[k].ManifestObject? && found == Some(objects[k].m) else found.None?
  }

  ghost predicate ChunksShown(objects: Objects, id: P.DirId, chunks: map<nat, seq<Byte>>) {
    && (forall i: nat :: i in chunks <==> ChunkOf(id, i) in objects)
    && (forall i: nat :: i in chunks ==> objects[ChunkOf(id, i)] == Blob(chunks[i]))
  }

  /** `c` is what the protocol sees of the directory `id`. */
  ghost predicate Shows(objects: Objects, id: P.DirId, c: P.Contents) {
    && ManifestShown(objects, ManifestOf(id), c.manifest)
    && c.marker == MarkerAt(objects, PendingOf(id))
    && ChunksShown(objects, id, c.chunks)
  }

  ghost predicate KeyOf(id: P.DirId, k: Key) {
    k == ManifestOf(id) || k == PendingOf(id) || exists i: nat :: k == ChunkOf(id, i)
  }

  lemma Distinct(id: P.DirId, i: nat, j: nat)
    ensures ManifestOf(id) != PendingOf(id) && ManifestOf(id) != ChunkOf(id, i) && PendingOf(id) != ChunkOf(id, i)
    ensures ChunkOf(id, i) == ChunkOf(id, j) ==> i == j
  {
    KeysDistinct(id.0, id.1, i, id.0, id.1, j);
  }

  lemma ShowsElsewhere(objects: Objects, id: P.DirId, c: P.Contents, k: Key)
    requires Shows(objects, id, c) && !KeyOf(id, k)
    ensures Shows(objects - {k}, id, c)
  {
    hide ManifestOf, PendingOf, ChunkOf;
  }

  lemma ShowsNoManifest(objects: Objects, id: P.DirId, c: P.Contents)
    requires Shows(objects, id, c)
    ensures Shows(objects - {ManifestOf(id)}, id, c.(manifest := None))
  {
    forall i: nat
      ensures ManifestOf(id) != ChunkOf(id, i) && ManifestOf(id) != PendingOf(id)
    {
      Distinct(id, i, i);
    }
    Distinct(id, 0, 0);
    hide ManifestOf, PendingOf, ChunkOf;
  }

  lemma ShowsNoMarker(objects: Objects, id: P.DirId, c: P.Contents)
    requires Shows(objects, id, c)
    ensures Shows(objects - {PendingOf(id)}, id, c.(marker := P.Absent))
  {
    forall i: nat
      ensures PendingOf(id) != ChunkOf(id, i)
    {
      Distinct(id, i, i);
    }
    Distinct(id, 0, 0);
    hide ManifestOf, PendingOf, ChunkOf;
  }

  lemma ShowsNoChunk(objects: Objects, id: P.DirId, c: P.Contents, i: nat)
    requires Shows(objects, id, c)
    ensures Shows(objects - {ChunkOf(id, i)}, id, c.(chunks := c.chunks - {i}))
  {
    forall j: nat
      ensures ChunkOf(id, i) == ChunkOf(id, j) ==> i == j
    {
      Distinct(id, i, j);
    }
    Distinct(id, i, i);
    hide ManifestOf, PendingOf, ChunkOf;
  }

  // ---- Retention ----------------------------------------------------------------------------------

  /** What goes on in the directory of `m`, during a run that may delete it. */
  function During(objects: Objects, m: Manifest): P.Activity {
    if ManifestOf(HomeOf(m)) in objects then P.Idle else P.Expiring(m)
  }

  function HomeOf(m: Manifest): P.DirId { (m.datasetGuid, m.snapshotGuid) }

  /** The run works on a list of what is stored. */
  ghost predicate AllFiled(before: Objects, all: seq<Manifest>) {
    forall m <- all :: Filed(before, m)
  }

  /** One deletion of a run, seen from one directory. */
  ghost predicate Seen(src: P.Source, now: Objects, m: Manifest, c: P.Contents, after: Objects, c': P.Contents) {
    && Shows(after, HomeOf(m), c')
    && P.Path(src, P.Dir(c, During(now, m)), P.Dir(c', During(after, m)))
  }

  lemma ExpiredKey(before: Objects, after: Objects, all: seq<Manifest>, keep: set<Guid>, m: Manifest, k: Key)
    requires E.PartWay(before, after, all, keep) && AllFiled(before, all) && Filed(before, m)
    requires KeyOf(HomeOf(m), k) && k in before && k !in after
    ensures k in E.KeysOf(m) && ManifestOf(HomeOf(m)) !in after
  {
    var i: nat :| i <= |all| && E.PartWayAt(before, after, all, keep, i);
    var j := E.GoneIsDoomed(before, after, all, keep, i, k);
    assert all[j] in all;
    SameOwner(before, all[j], m, k);
    assert E.ManifestFirst(before, after, m);
    hide ManifestKey, PendingKey, NamedBy;
    if k != ManifestOf(HomeOf(m)) {
      assert k in E.Trailing(m);
    }
  }

  lemma SameOwner(before: Objects, x: Manifest, m: Manifest, k: Key)
    requires Filed(before, x) && Filed(before, m) && k in E.KeysOf(x) && KeyOf(HomeOf(m), k)
    ensures x == m
  {
    hide ManifestKey, PendingKey, ChunkKey, E.KeysOf, E.Trailing, NamedBy;
    var i := KeyNumber(x, k);
    if k == ChunkOf(HomeOf(m), 0) || k == ManifestOf(HomeOf(m)) || k == PendingOf(HomeOf(m)) {
      KeysDistinct(x.datasetGuid, x.snapshotGuid, i, m.datasetGuid, m.snapshotGuid, 0);
      KeysDistinct(m.datasetGuid, m.snapshotGuid, 0, x.datasetGuid, x.snapshotGuid, i);
    } else {
      var j: nat :| k == ChunkOf(HomeOf(m), j);
      KeysDistinct(x.datasetGuid, x.snapshotGuid, i, m.datasetGuid, m.snapshotGuid, j);
      KeysDistinct(m.datasetGuid, m.snapshotGuid, j, x.datasetGuid, x.snapshotGuid, i);
    }
  }

  lemma KeyNumber(m: Manifest, k: Key) returns (i: nat)
    requires k in E.KeysOf(m)
    ensures k == ManifestOf(HomeOf(m)) || k == PendingOf(HomeOf(m)) || k == ChunkOf(HomeOf(m), i)
  {
    hide ManifestKey, PendingKey, ChunkKey, E.Trailing;
    i := 0;
    if k in E.Trailing(m) {
      i := E.NumberOf(m, k);
    }
  }

  /** Each deletion of a retention run is one step in the directory of the key, and none elsewhere. */
  lemma ExpiryStep(src: P.Source, before: Objects, now: Objects, all: seq<Manifest>, keep: set<Guid>, m: Manifest,
                   k: Key, c: P.Contents)
    returns (c': P.Contents)
    requires E.PartWay(before, now, all, keep) && E.PartWay(before, now - {k}, all, keep)
    requires AllFiled(before, all) && Filed(before, m) && Shows(now, HomeOf(m), c)
    ensures Seen(src, now, m, c, now - {k}, c')
  {
    var id, after := HomeOf(m), now - {k};
    StillThere(before, now, all, keep, k, ManifestOf(id));
    P.NoStep(src, P.Dir(c, During(now, m)));
    assert k == ManifestOf(id) && k in now ==> now[k] == ManifestObject(m);
    hide E.PartWay, P.Path, AllFiled, Filed, Shows;
    if k in now && KeyOf(id, k) {
      ExpiredKey(before, after, all, keep, m, k);
      c' := ExpiryOf(src, now, m, k, c);
    } else {
      c' := c;
      NothingSeen(now, id, c, k);
      assert ManifestOf(id) in after <==> ManifestOf(id) in now;
    }
  }

  lemma NothingSeen(objects: Objects, id: P.DirId, c: P.Contents, k: Key)
    requires Shows(objects, id, c) && (k in objects ==> !KeyOf(id, k))
    ensures Shows(objects - {k}, id, c)
  {
    if k in objects {
      ShowsElsewhere(objects, id, c, k);
    } else {
      assert objects - {k} == objects;
    }
  }

  lemma StillThere(before: Objects, now: Objects, all: seq<Manifest>, keep: set<Guid>, k: Key, home: Key)
    requires E.PartWay(before, now, all, keep)
    ensures k in now ==> k in before && now[k] == before[k]
    ensures home in now ==> home in before && now[home] == before[home]
  {
    var i: nat :| i <= |all| && E.PartWayAt(before, now, all, keep, i);
  }

  lemma ExpiryOf(src: P.Source, now: Objects, m: Manifest, k: Key, c: P.Contents) returns (c': P.Contents)
    requires Shows(now, HomeOf(m), c) && k in now && k in E.KeysOf(m) && ManifestOf(HomeOf(m)) !in now - {k}
    requires k == ManifestOf(HomeOf(m)) ==> now[k] == ManifestObject(m)
    ensures Seen(src, now, m, c, now - {k}, c')
  {
    var id := HomeOf(m);
    if k == ManifestOf(id) {
      ShowsNoManifest(now, id, c);
      c' := c.(manifest := None);
      ManifestGoes(src, c, m);
    } else if k == PendingOf(id) {
      ShowsNoMarker(now, id, c);
      c' := c.(marker := P.Absent);
      MarkerGoes(src, c, m);
    } else {
      var i := NamedNumber(m, k);
      ShowsNoChunk(now, id, c, i);
      c' := c.(chunks := c.chunks - {i});
      ChunkGoes(src, c, m, i);
    }
  }

  lemma NamedNumber(m: Manifest, k: Key) returns (i: nat)
    requires k in E.KeysOf(m) && k != ManifestOf(HomeOf(m)) && k != PendingOf(HomeOf(m))
    ensures i in P.Named(m) && k == ChunkOf(HomeOf(m), i)
  {
    hide ManifestKey, PendingKey, ChunkKey;
    var x :| x in m.chunks && k == ChunkKey(m.datasetGuid, m.snapshotGuid, x.index);
    i := x.index;
  }

  lemma ManifestGoes(src: P.Source, c: P.Contents, m: Manifest)
    requires c.manifest == Some(m)
    ensures P.Path(src, P.Dir(c, P.Idle), P.Dir(c.(manifest := None), P.Expiring(m)))
  {
    P.OneStep(src, P.Dir(c, P.Idle), P.BeginExpire, P.Dir(c.(manifest := None), P.Expiring(m)));
  }

  lemma MarkerGoes(src: P.Source, c: P.Contents, m: Manifest)
    ensures P.Path(src, P.Dir(c, P.Expiring(m)), P.Dir(c.(marker := P.Absent), P.Expiring(m)))
  {
    P.OneStep(src, P.Dir(c, P.Expiring(m)), P.ExpireMarker, P.Dir(c.(marker := P.Absent), P.Expiring(m)));
  }

  lemma ChunkGoes(src: P.Source, c: P.Contents, m: Manifest, i: nat)
    requires i in P.Named(m)
    ensures P.Path(src, P.Dir(c, P.Expiring(m)), P.Dir(c.(chunks := c.chunks - {i}), P.Expiring(m)))
  {
    P.OneStep(src, P.Dir(c, P.Expiring(m)), P.ExpireChunk(i), P.Dir(c.(chunks := c.chunks - {i}), P.Expiring(m)));
  }

  /** All of a retention run, or as far as it got: in the directory of every stored manifest it is a
      path of the protocol. `states` is what the bucket went through. */
  lemma {:induction false} RetentionIsPath(src: P.Source, states: seq<Objects>, all: seq<Manifest>, keep: set<Guid>,
                                           m: Manifest, c: P.Contents)
    returns (c': P.Contents)
    requires states != [] && OneByOne(states)
    requires forall i :: 0 <= i < |states| ==> E.PartWay(states[0], states[i], all, keep)
    requires AllFiled(states[0], all) && Filed(states[0], m) && Shows(states[0], HomeOf(m), c)
    ensures Shows(states[|states| - 1], HomeOf(m), c')
    ensures P.Path(src, P.Dir(c, P.Idle), P.Dir(c', During(states[|states| - 1], m)))
  {
    var n := |states| - 1;
    if n == 0 {
      P.NoStep(src, P.Dir(c, P.Idle));
      return c;
    }
    var now, after := states[n - 1], states[n];
    assert LosesOne(now, after);
    var k :| after == now - {k};
    hide E.PartWay, P.Path, Shows, Filed, LosesOne;
    var mid := RetentionIsPath(src, states[..n], all, keep, m, c);
    c' := ExpiryStep(src, states[0], now, all, keep, m, k, mid);
    P.Joined(src, P.Dir(c, P.Idle), P.Dir(mid, During(now, m)), P.Dir(c', During(after, m)));
  }

  /** The states a run has logged are such states. */
  lemma LoggedRetention(seen: seq<Objects>, from: nat, all: seq<Manifest>, keep: set<Guid>)
    returns (states: seq<Objects>)
    requires 0 < from <= |seen| && OneByOne(seen) && E.Throughout(seen, from, seen[from - 1], all, keep)
    ensures states == seen[from - 1..] && OneByOne(states)
    ensures forall i :: 0 <= i < |states| ==> E.PartWay(states[0], states[i], all, keep)
  {
    states := seen[from - 1..];
    E.Unchanged([], states[0], all, keep);
    E.StillPartWay(states[0], states[0], all, keep, 0);
    hide E.PartWay, LosesOne;
    forall i | 0 <= i < |states|
      ensures E.PartWay(states[0], states[i], all, keep)
    {
      assert states[i] == seen[from - 1 + i];
    }
  }

  // ---- Cleaning -------------------------------------------------------------------------------------

  /** The chunks a clean decides against. */
  function Unnamed(c: P.Contents): set<nat> {
    c.chunks.Keys - (if c.manifest.Some? then P.Named(c.manifest.value) else {})
  }

  /** A clean may begin: no send is at work here. */
  predicate MayClean(c: P.Contents, time: Instant) {
    c.manifest.None? && c.marker.Readable? ==> !c.marker.value.LeaseLive(time)
  }

  /** Nothing but garbage is gone. */
  ghost predicate Swept(before: Objects, time: Instant, lost: set<Key>, now: Objects) {
    && (forall k <- now :: k in before && now[k] == before[k])
    && (forall k <- before :: k !in now ==> C.Garbage(before, time, lost, k))
  }

  function NameOf(id: P.DirId): C.DirName { (Hex(id.0), Hex(id.1)) }

  lemma KeysInDir(id: P.DirId, k: Key)
    requires KeyOf(id, k)
    ensures C.InDir(k, NameOf(id))
    ensures C.FileIn(NameOf(id), MANIFEST) == ManifestOf(id) && C.FileIn(NameOf(id), PENDING) == PendingOf(id)
  {
    hide Hex, Split;
    HexPlain(id.0);
    KeyParts(id.0, id.1, 0);
    if k != ManifestOf(id) && k != PendingOf(id) {
      var i: nat :| k == ChunkOf(id, i);
      KeyParts(id.0, id.1, i);
    }
  }

  /** What garbage means for the directory it is in. */
  lemma GarbageSeen(before: Objects, time: Instant, lost: set<Key>, id: P.DirId, c0: P.Contents, k: Key)
    requires Shows(before, id, c0) && PendingOf(id) !in lost
    requires c0.manifest.Some? ==> HomeOf(c0.manifest.value) == id
    requires KeyOf(id, k) && C.Garbage(before, time, lost, k)
    ensures k != ManifestOf(id) && MayClean(c0, time)
    ensures forall i: nat :: k == ChunkOf(id, i) ==> i in Unnamed(c0)
  {
    KeysInDir(id, k);
    C.GarbageHere(before, time, lost, NameOf(id), k);
    hide C.InDir, C.Garbage, NameOf, ManifestKey, PendingKey, ChunkKey;
  }

  /** Each deletion of a clean is one step in the directory of the key, and none elsewhere. */
  lemma CleanStep(src: P.Source, before: Objects, time: Instant, lost: set<Key>, now: Objects, id: P.DirId, k: Key,
                  c0: P.Contents, c: P.Contents)
    returns (c': P.Contents)
    requires Shows(before, id, c0) && PendingOf(id) !in lost
    requires c0.manifest.Some? ==> HomeOf(c0.manifest.value) == id
    requires Swept(before, time, lost, now) && Swept(before, time, lost, now - {k})
    requires Shows(now, id, c)
    ensures Shows(now - {k}, id, c')
    ensures P.Path(src, P.Dir(c, P.Cleaning(Unnamed(c0))), P.Dir(c', P.Cleaning(Unnamed(c0))))
    ensures c' != c ==> MayClean(c0, time)
  {
    P.NoStep(src, P.Dir(c, P.Cleaning(Unnamed(c0))));
    assert k in now ==> k in before && C.Garbage(before, time, lost, k);
    hide C.Garbage, Shows, P.Path, Swept, Unnamed;
    if k in now && KeyOf(id, k) {
      GarbageSeen(before, time, lost, id, c0, k);
      c' := SweptOf(src, now, id, k, c, Unnamed(c0));
    } else {
      c' := c;
      NothingSeen(now, id, c, k);
    }
  }

  lemma SweptOf(src: P.Source, now: Objects, id: P.DirId, k: Key, c: P.Contents, doomed: set<nat>)
    returns (c': P.Contents)
    requires Shows(now, id, c) && KeyOf(id, k) && k != ManifestOf(id)
    requires forall i: nat :: k == ChunkOf(id, i) ==> i in doomed
    ensures Shows(now - {k}, id, c') && P.Path(src, P.Dir(c, P.Cleaning(doomed)), P.Dir(c', P.Cleaning(doomed)))
  {
    hide Shows, P.Path;
    if k == PendingOf(id) {
      ShowsNoMarker(now, id, c);
      c' := c.(marker := P.Absent);
      P.OneStep(src, P.Dir(c, P.Cleaning(doomed)), P.CleanMarker, P.Dir(c', P.Cleaning(doomed)));
    } else {
      var i: nat :| k == ChunkOf(id, i);
      ShowsNoChunk(now, id, c, i);
      c' := c.(chunks := c.chunks - {i});
      P.OneStep(src, P.Dir(c, P.Cleaning(doomed)), P.CleanChunk(i), P.Dir(c', P.Cleaning(doomed)));
    }
  }

  /** All of a clean, or as far as it got: in a directory whose marker can be read, and whose manifest,
      if any, is its own, it is a path of the protocol; it is none at all where a send is at work. */
  lemma {:induction false} CleanIsPath(src: P.Source, states: seq<Objects>, time: Instant, lost: set<Key>, id: P.DirId,
                                       c0: P.Contents)
    returns (c: P.Contents)
    requires states != [] && OneByOne(states)
    requires forall i :: 0 <= i < |states| ==> Swept(states[0], time, lost, states[i])
    requires Shows(states[0], id, c0) && PendingOf(id) !in lost
    requires c0.manifest.Some? ==> HomeOf(c0.manifest.value) == id
    ensures Shows(states[|states| - 1], id, c)
    ensures P.Path(src, P.Dir(c0, P.Cleaning(Unnamed(c0))), P.Dir(c, P.Cleaning(Unnamed(c0))))
    ensures MayClean(c0, time) ==> P.Path(src, P.Dir(c0, P.Idle), P.Dir(c, P.Cleaning(Unnamed(c0))))
    ensures !MayClean(c0, time) ==> c == c0
  {
    var a, n := P.Cleaning(Unnamed(c0)), |states| - 1;
    if n == 0 {
      c := c0;
      P.NoStep(src, P.Dir(c, a));
    } else {
      var now, after := states[n - 1], states[n];
      assert LosesOne(now, after);
      var k :| after == now - {k};
      hide Swept, P.Path, Shows, LosesOne, MayClean;
      var mid := CleanIsPath(src, states[..n], time, lost, id, c0);
      c := CleanStep(src, states[0], time, lost, now, id, k, c0, mid);
      P.Joined(src, P.Dir(c0, a), P.Dir(mid, a), P.Dir(c, a));
    }
    if MayClean(c0, time) {
      CleanBegins(src, c0, time);
      P.Joined(src, P.Dir(c0, P.Idle), P.Dir(c0, a), P.Dir(c, a));
    }
  }

  lemma CleanBegins(src: P.Source, c: P.Contents, time: Instant)
    requires MayClean(c, time)
    ensures P.Path(src, P.Dir(c, P.Idle), P.Dir(c, P.Cleaning(Unnamed(c))))
  {
    P.OneStep(src, P.Dir(c, P.Idle), P.BeginClean(time), P.Dir(c, P.Cleaning(Unnamed(c))));
  }

  /** The states a clean has logged are such states. */
  lemma LoggedClean(seen: seq<Objects>, from: nat, time: Instant, lost: set<Key>, doomed: set<Key>)
    returns (states: seq<Objects>)
    requires 0 < from <= |seen| && OneByOne(seen) && C.OnlyGone(seen, from, seen[from - 1], doomed)
    requires forall k :: k in doomed <==> C.Garbage(seen[from - 1], time, lost, k)
    ensures states == seen[from - 1..] && OneByOne(states)
    ensures forall i :: 0 <= i < |states| ==> Swept(states[0], time, lost, states[i])
  {
    states := seen[from - 1..];
    hide C.Garbage, LosesOne;
    forall i | 0 <= i < |states|
      ensures Swept(states[0], time, lost, states[i])
    {
      if i > 0 {
        assert states[i] == seen[from - 1 + i];
        var gone :| gone <= doomed && states[i] == states[0] - gone;
      }
    }
  }
}
