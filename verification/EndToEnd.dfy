/** The whole bucket over its whole life: directories, the archive they list, and what a restore of
    it brings back. */
module EndToEnd {
  import opened Bytes
  import opened Manifests
  import opened Chains
  import opened Retention
  import opened RetentionLaws
  import opened Chunking
  import A = Archive
  import P = Protocol
  import R = Receiving

  /** `archive` lists the manifests. `doomed` are the snapshots that retention runs have decided
      against, whether or not those runs came to an end; `stranded` are those committed on a base
      that was not archived, or doomed, or stranded itself. */
  datatype Life = Life(bucket: P.Bucket, archive: Index, pins: set<Guid>, doomed: set<Guid>, stranded: set<Guid>)

  const BIRTH := Life(map[], map[], {}, {}, {})

  datatype Event =
    | Do(act: P.Action)
    | Save(id: P.DirId, m: Manifest)
    | Decide(all: seq<Manifest>, cutoff: Option<Instant>, keepLast: nat, keep: set<Guid>)
    | Drop(id: P.DirId)
    | Pin(g: Guid)
    | Unpin(g: Guid)

  /** Any step of any command, and: a commit of what is not archived, whatever has become of its base;
      a retention run decides on the whole archive, and manifests it decided against go one by one. */
  ghost predicate Next(srcs: P.DirId -> P.Source, h: Life, e: Event, h': Life) {
    match e
    case Do(act) =>
      && !act.step.Commit? && !act.step.BeginExpire?
      && P.BucketNext(srcs, h.bucket, act, h'.bucket)
      && h' == h.(bucket := h'.bucket)
    case Save(id, m) =>
      && id == (m.datasetGuid, m.snapshotGuid)
      && m.snapshotGuid !in h.archive
      && P.BucketNext(srcs, h.bucket, P.Action(id, P.Commit(m)), h'.bucket)
      && h' == h.(bucket := h'.bucket, archive := h.archive[m.snapshotGuid := m], stranded := Stranded(h, m))
    case Decide(all, cutoff, keepLast, keep) =>
      && Selected(all, h.archive, h.archive.Keys)
      && IsKeepSet(all, Policy(h.pins, cutoff, keepLast), keep)
      && h' == h.(doomed := h.doomed + (h.archive.Keys - keep))
    case Drop(id) =>
      && id.1 in h.doomed
      && P.BucketNext(srcs, h.bucket, P.Action(id, P.BeginExpire), h'.bucket)
      && h' == h.(bucket := h'.bucket, archive := Without(h.archive, {id.1}))
    case Pin(g) => h' == h.(pins := h.pins + {g})
    case Unpin(g) => h' == h.(pins := h.pins - {g})
  }

  /** The snapshots that are neither doomed nor stranded. */
  ghost function Living(h: Life): Index {
    Without(h.archive, h.doomed + h.stranded)
  }

  ghost function Stranded(h: Life, m: Manifest): set<Guid> {
    if A.BaseArchived(Living(h), m) then h.stranded - {m.snapshotGuid} else h.stranded + {m.snapshotGuid}
  }

  // ---- The invariant ----------------------------------------------------------------------------

  ghost predicate ListedAt(b: P.Bucket, a: Index, id: P.DirId) {
    var found := P.At(b, id).contents.manifest;
    found.Some? ==>
      id == (found.value.datasetGuid, found.value.snapshotGuid) && id.1 in a && a[id.1] == found.value
  }

  ghost predicate StoredAt(b: P.Bucket, a: Index, g: Guid)
    requires g in a
  {
    P.At(b, (a[g].datasetGuid, g)).contents.manifest == Some(a[g])
  }

  /** The archive is what the directories hold. */
  ghost predicate Listed(b: P.Bucket, a: Index) {
    && Keyed(a)
    && (forall id: P.DirId :: ListedAt(b, a, id))
    && (forall g <- a :: StoredAt(b, a, g))
  }

  ghost predicate Good(srcs: P.DirId -> P.Source, h: Life) {
    && (forall id: P.DirId :: P.Inv(srcs(id), P.At(h.bucket, id)))
    && Listed(h.bucket, h.archive)
    && A.Sound(Living(h))
  }

  lemma BucketStaysGood(srcs: P.DirId -> P.Source, b: P.Bucket, act: P.Action, b': P.Bucket)
    requires forall id: P.DirId :: P.Inv(srcs(id), P.At(b, id))
    requires P.BucketNext(srcs, b, act, b')
    ensures forall id: P.DirId :: P.Inv(srcs(id), P.At(b', id))
    ensures forall id: P.DirId :: id != act.id ==> P.At(b', id) == P.At(b, id)
  {
    hide P.Inv, P.Next;
    forall id: P.DirId
      ensures P.Inv(srcs(id), P.At(b', id))
    {
      assert P.Inv(srcs(id), P.At(b, id));
      if id == act.id {
        P.NextKeepsInv(srcs(id), P.At(b, id), act.step, P.At(b', id));
      }
    }
  }

  /** A manifest comes by a commit, and goes by an expiry, and by nothing else. */
  lemma ManifestChanges(src: P.Source, d: P.Dir, step: P.Step, d': P.Dir)
    requires P.Next(src, d, step, d')
    ensures d'.contents.manifest ==
      if step.Commit? then Some(step.m) else if step.BeginExpire? then None else d.contents.manifest
    ensures step.Commit? ==> P.Inv(src, d) ==> d.contents.manifest.None?
    ensures step.BeginExpire? ==> d.contents.manifest.Some?
  {
    hide Cut;
  }

  lemma ListedStays(srcs: P.DirId -> P.Source, b: P.Bucket, act: P.Action, b': P.Bucket, a: Index, a': Index)
    requires Listed(b, a) && Keyed(a') && P.BucketNext(srcs, b, act, b')
    requires P.Inv(srcs(act.id), P.At(b, act.id))
    requires match act.step
      case Commit(m) => act.id == (m.datasetGuid, m.snapshotGuid) && act.id.1 !in a && a' == a[act.id.1 := m]
      case BeginExpire => a' == Without(a, {act.id.1})
      case _ => a' == a
    ensures Listed(b', a')
  {
    hide P.Next, P.Inv, Listed, ListedAt;
    ManifestChanges(srcs(act.id), P.At(b, act.id), act.step, P.At(b', act.id));
    ListedAfter(b, b', act.id, a, a');
  }

  /** One directory's manifest comes, goes or stays, and the archive with it. */
  lemma ListedAfter(b: P.Bucket, b': P.Bucket, id0: P.DirId, a: Index, a': Index)
    requires Listed(b, a) && Keyed(a')
    requires forall id: P.DirId :: id != id0 ==> P.At(b', id) == P.At(b, id)
    requires var was, found := P.At(b, id0).contents.manifest, P.At(b', id0).contents.manifest;
      || (found == was && a' == a)
      || (found.None? && was.Some? && a' == Without(a, {id0.1}))
      || (found.Some? && id0 == (found.value.datasetGuid, found.value.snapshotGuid)
          && id0.1 !in a && a' == a[id0.1 := found.value])
    ensures Listed(b', a')
  {
    assert ListedAt(b, a, id0);
    forall id: P.DirId
      ensures ListedAt(b', a', id)
    {
      assert ListedAt(b, a, id);
    }
    forall g <- a'
      ensures StoredAt(b', a', g)
    {
      if g in a {
        assert StoredAt(b, a, g);
      }
    }
  }

  lemma NextGood(srcs: P.DirId -> P.Source, h: Life, e: Event, h': Life)
    requires Good(srcs, h) && Next(srcs, h, e, h')
    ensures Good(srcs, h')
  {
    hide P.Inv, P.BucketNext, Listed, A.Sound, IsKeepSet;
    match e
    case Do(act) =>
      BucketStaysGood(srcs, h.bucket, act, h'.bucket);
      ListedStays(srcs, h.bucket, act, h'.bucket, h.archive, h'.archive) by { KeyedIfListed(h.bucket, h.archive); }
    case Save(id, m) =>
      var act := P.Action(id, P.Commit(m));
      BucketStaysGood(srcs, h.bucket, act, h'.bucket);
      KeyedIfListed(h.bucket, h.archive);
      ListedStays(srcs, h.bucket, act, h'.bucket, h.archive, h'.archive);
      if A.BaseArchived(Living(h), m) && m.snapshotGuid !in h.doomed {
        A.CommitSoundExactly(Living(h), m);
        assert Living(h') == Living(h)[m.snapshotGuid := m];
      } else {
        assert Living(h') == Living(h);
      }
    case Decide(all, cutoff, keepLast, keep) =>
      DecisionSound(h, all, Policy(h.pins, cutoff, keepLast), keep, h');
    case Drop(id) =>
      var act := P.Action(id, P.BeginExpire);
      BucketStaysGood(srcs, h.bucket, act, h'.bucket);
      KeyedIfListed(h.bucket, h.archive);
      ListedStays(srcs, h.bucket, act, h'.bucket, h.archive, h'.archive);
      assert Living(h') == Living(h);
    case _ =>
  }

  lemma KeyedIfListed(b: P.Bucket, a: Index)
    requires Listed(b, a)
    ensures Keyed(a)
  {
  }

  lemma DecisionSound(h: Life, all: seq<Manifest>, p: Policy, keep: set<Guid>, h': Life)
    requires A.Sound(Living(h)) && Selected(all, h.archive, h.archive.Keys) && IsKeepSet(all, p, keep)
    requires h' == h.(doomed := h.doomed + (h.archive.Keys - keep))
    ensures A.Sound(Living(h'))
  {
    hide IsKeepSet, Selected, ReachesFull;
    A.KeepSetClosed(h.archive, all, p, keep, Living(h));
    hide A.Sound, A.ClosedIn;
    A.ClosedSound(Living(h), keep);
    assert Living(h') == Without(Living(h), Living(h).Keys - keep);
  }

  ghost predicate IsLife(srcs: P.DirId -> P.Source, lives: seq<Life>, events: seq<Event>) {
    && |lives| == |events| + 1
    && lives[0] == BIRTH
    && forall k {:trigger events[k]} :: 0 <= k < |events| ==> Next(srcs, lives[k], events[k], lives[k + 1])
  }

  lemma BornGood(srcs: P.DirId -> P.Source)
    ensures Good(srcs, BIRTH)
  {
    forall id: P.DirId
      ensures P.Inv(srcs(id), P.At(BIRTH.bucket, id))
    {
      P.EmptyDirInv(srcs(id));
    }
  }

  lemma {:induction false} LifeGood(srcs: P.DirId -> P.Source, lives: seq<Life>, events: seq<Event>, k: nat)
    requires IsLife(srcs, lives, events) && k < |lives|
    ensures Good(srcs, lives[k])
  {
    hide Good, Next;
    if k == 0 {
      BornGood(srcs);
    } else {
      LifeGood(srcs, lives, events, k - 1);
      NextGood(srcs, lives[k - 1], events[k - 1], lives[k]);
    }
  }

  // ---- What a restore brings back --------------------------------------------------------------------

  /** The stream a listed manifest stands for. */
  function StreamFor(srcs: P.DirId -> P.Source, m: Manifest): seq<Byte> {
    (srcs((m.datasetGuid, m.snapshotGuid)).stream)(m.from, m.flags)
  }

  lemma ListedDescribes(srcs: P.DirId -> P.Source, h: Life, g: Guid, digest: Digest)
    requires Good(srcs, h) && g in h.archive
    requires forall id: P.DirId :: srcs(id).digest == digest
    ensures R.Describes(h.archive[g], m => StreamFor(srcs, m), digest)
  {
    hide P.Inv, DescribesStream, Holds;
    var m := h.archive[g];
    var id := (m.datasetGuid, g);
    assert StoredAt(h.bucket, h.archive, g);
    assert P.Inv(srcs(id), P.At(h.bucket, id));
    InvBacked(srcs(id), P.At(h.bucket, id));
    var size: nat :| P.CommittedWhole(srcs(id), m, P.At(h.bucket, id).contents.chunks, size);
    assert DescribesStream(m, (m => StreamFor(srcs, m))(m), size, digest);
  }

  lemma InvBacked(src: P.Source, d: P.Dir)
    requires P.Inv(src, d) && d.contents.manifest.Some?
    ensures P.Backed(src, d.contents.manifest.value, d.contents.chunks)
  {
  }

  /** A snapshot neither doomed nor stranded walks a complete chain, all of it listed. */
  lemma LivingWalks(srcs: P.DirId -> P.Source, h: Life, g: Guid)
    requires Good(srcs, h) && g in Living(h)
    ensures WalkFrom(h.archive, h.archive[g]) == WalkFrom(Living(h), h.archive[g])
    ensures A.Restores(Living(h), h.archive[g])
  {
    var live := Living(h);
    A.SoundRestores(live, g);
    hide ReachesFull, A.Restores, P.Inv;
    forall x <- live | live[x].from.Some?
      ensures live[x].from.value in live
    {
      assert A.BaseArchived(live, live[x]);
    }
    SameWalkOn(live, h.archive, live[g], {live[g].snapshotGuid}, [live[g]]);
  }

  lemma ChainListed(all: seq<Manifest>, name: string, chain: seq<Manifest>, m: Manifest)
    requires R.ChainOf(all, name, chain) && m in chain
    ensures R.IsListed(all, m)
  {
    hide FirstByGuid;
    var i :| 0 <= i < |chain| && chain[i] == m;
  }

  lemma RestoredStreams(srcs: P.DirId -> P.Source, h: Life, all: seq<Manifest>, name: string, chain: seq<Manifest>,
                        n: nat, f: R.Fetches, digest: Digest)
    requires Good(srcs, h) && FirstByGuid(all) == h.archive
    requires R.ChainOf(all, name, chain) && n <= |chain| && R.AllGood(f, chain[..n], digest)
    requires Injective(digest) && forall id: P.DirId :: srcs(id).digest == digest
    ensures R.Streams(f, chain[..n]) == Streams(srcs, chain[..n])
  {
    hide R.ChainOf, R.AllGood, Injective, Good, R.Describes, FirstByGuid, R.Delivered;
    forall m <- chain[..n]
      ensures R.Describes(m, m => StreamFor(srcs, m), digest)
    {
      ChainListed(all, name, chain, m);
      ListedDescribes(srcs, h, m.snapshotGuid, digest);
    }
    R.RestoredExactly(f, chain[..n], m => StreamFor(srcs, m), digest);
  }

  lemma OnlyDoomedBreak(srcs: P.DirId -> P.Source, h: Life, all: seq<Manifest>, name: string, tip: Manifest)
    requires Good(srcs, h) && FirstByGuid(all) == h.archive
    requires R.Names(all, name, tip) && !ReachesFull(FirstByGuid(all), tip)
    ensures tip.snapshotGuid in h.doomed + h.stranded
  {
    hide Good, ReachesFull, FirstByGuid, WalkFrom;
    if tip.snapshotGuid !in h.doomed + h.stranded {
      LivingWalks(srcs, h, tip.snapshotGuid);
      KeyedIfGood(srcs, h);
      WalkOutcome(h.archive, tip);
    }
  }

  lemma KeyedIfGood(srcs: P.DirId -> P.Source, h: Life)
    requires Good(srcs, h)
    ensures Keyed(h.archive)
  {
  }

  /** The streams the snapshots of a chain stand for. */
  function Streams(srcs: P.DirId -> P.Source, chain: seq<Manifest>): seq<seq<Byte>> {
    seq(|chain|, i requires 0 <= i < |chain| => StreamFor(srcs, chain[i]))
  }

  /** Asked for a numbered chunk of an archived snapshot, the store returns what is stored under that
      number in its directory. */
  ghost predicate Faithful(f: R.Fetches, h: Life) {
    forall g <- h.archive, i: nat ::
      var chunks := P.At(h.bucket, (h.archive[g].datasetGuid, g)).contents.chunks;
      i in chunks ==> (f.answer)(g, i) == Some(chunks[i])
  }

  /** Then every manifest's chunks pass their checks. */
  lemma FaithfulIsGood(srcs: P.DirId -> P.Source, h: Life, f: R.Fetches, m: Manifest, digest: Digest)
    requires Good(srcs, h) && Faithful(f, h) && forall id: P.DirId :: srcs(id).digest == digest
    requires m.snapshotGuid in h.archive && h.archive[m.snapshotGuid] == m
    ensures R.AllGood(f, [m], digest)
  {
    hide P.Inv;
    var id := (m.datasetGuid, m.snapshotGuid);
    var chunks := P.At(h.bucket, id).contents.chunks;
    assert StoredAt(h.bucket, h.archive, m.snapshotGuid);
    assert P.Inv(srcs(id), P.At(h.bucket, id));
    InvBacked(srcs(id), P.At(h.bucket, id));
    hide Good, P.Backed, R.Good, Listed;
    assert R.Honest(m, chunks, R.Answers(f, m));
    R.WholeRestores(srcs(id), m, chunks, R.Answers(f, m));
  }

  lemma NothingBad(srcs: P.DirId -> P.Source, h: Life, all: seq<Manifest>, name: string, chain: seq<Manifest>, at: nat,
                   f: R.Fetches, digest: Digest)
    requires Good(srcs, h) && FirstByGuid(all) == h.archive && Faithful(f, h)
    requires R.ChainOf(all, name, chain) && at < |chain|
    requires forall id: P.DirId :: srcs(id).digest == digest
    ensures R.AllGood(f, [chain[at]], digest)
  {
    hide R.ChainOf, R.AllGood, Good, Faithful, FirstByGuid;
    ChainListed(all, name, chain, chain[at]);
    FaithfulIsGood(srcs, h, f, chain[at], digest);
  }

  /** The name is that of one archived snapshot, and of one that is neither doomed nor stranded. */
  ghost predicate NamedAlone(h: Life, all: seq<Manifest>, name: string) {
    exists i: nat :: i < |all| && R.OnlyOneNamed(all, name, i) && all[i].snapshotGuid in Living(h)
  }

  lemma NamedIsPicked(h: Life, all: seq<Manifest>, name: string)
    requires NamedAlone(h, all, name)
    ensures exists i: nat :: i < |all| && R.OnlyOneNamed(all, name, i)
    ensures forall tip :: R.Names(all, name, tip) ==> tip.snapshotGuid in Living(h)
  {
    var i: nat :| i < |all| && R.OnlyOneNamed(all, name, i) && all[i].snapshotGuid in Living(h);
    forall tip | R.Names(all, name, tip)
      ensures tip.snapshotGuid in Living(h)
    {
      var j: nat :| j < |all| && R.OnlyOneNamed(all, name, j) && tip.snapshotGuid == all[j].snapshotGuid;
      assert j == i;
    }
  }

  /** End to end: at any time in the life of a bucket, with a collision-free digest, whatever the store
      answers. If a restore by name succeeds, what `zfs receive` has been given is, one after the
      other, the streams the snapshots of the chain stand for, from a full to the one named; if it is
      interrupted, a beginning of that. And the walk is never what fails it, unless a retention run
      decided against the snapshot, or it was committed on a base that is not safe. Any other snapshot
      that alone has its name is restored, if the store returns what it holds and nothing fails. */
  method Restore(ghost srcs: P.DirId -> P.Source, ghost lives: seq<Life>, ghost events: seq<Event>, ghost k: nat,
                 all: seq<Manifest>, name: string, window: nat, f: R.Fetches, digest: Digest, zfs: R.Target)
    returns (r: R.Restoring)
    requires IsLife(srcs, lives, events) && k < |lives| && FirstByGuid(all) == lives[k].archive
    requires Injective(digest) && forall id: P.DirId :: srcs(id).digest == digest
    modifies zfs
    ensures r.Restored? ==>
      && R.ChainOf(all, name, r.chain)
      && zfs.applied == old(zfs.applied) + Streams(srcs, r.chain)
    ensures r.Interrupted? ==>
      && R.ChainOf(all, name, r.chain) && r.at < |r.chain|
      && zfs.applied == old(zfs.applied) + Streams(srcs, r.chain[..r.at])
      && (zfs.faults > old(zfs.faults) || !R.AllGood(f, [r.chain[r.at]], digest))
    ensures r.Unchained? ==>
      exists tip :: R.Names(all, name, tip) && tip.snapshotGuid in lives[k].doomed + lives[k].stranded
    ensures Faithful(f, lives[k]) && NamedAlone(lives[k], all, name) && zfs.faults == old(zfs.faults) ==> r.Restored?
  {
    hide *;
    r := R.Receive(all, name, window, f, digest, zfs);
    LifeGood(srcs, lives, events, k);
    if NamedAlone(lives[k], all, name) {
      NamedIsPicked(lives[k], all, name);
    }
    if r.Restored? {
      assert r.chain[..|r.chain|] == r.chain;
      RestoredStreams(srcs, lives[k], all, name, r.chain, |r.chain|, f, digest);
    } else if r.Interrupted? {
      RestoredStreams(srcs, lives[k], all, name, r.chain, r.at, f, digest);
      if Faithful(f, lives[k]) {
        NothingBad(srcs, lives[k], all, name, r.chain, r.at, f, digest);
      }
    } else if r.Unchained? {
      ghost var tip :| R.Names(all, name, tip) && !ReachesFull(FirstByGuid(all), tip);
      OnlyDoomedBreak(srcs, lives[k], all, name, tip);
      LivingAreSafe(lives[k], tip.snapshotGuid);
    }
  }

  lemma LivingAreSafe(h: Life, g: Guid)
    ensures g in Living(h) ==> g !in h.doomed + h.stranded
  {
  }

  // ---- It can be stranded -----------------------------------------------------------------------------

  ghost predicate Reachable(srcs: P.DirId -> P.Source, h: Life) {
    exists lives, events :: IsLife(srcs, lives, events) && lives[|lives| - 1] == h
  }

  lemma BirthReachable(srcs: P.DirId -> P.Source)
    ensures Reachable(srcs, BIRTH)
  {
    assert IsLife(srcs, [BIRTH], []);
  }

  lemma NextReachable(srcs: P.DirId -> P.Source, h: Life, e: Event, h': Life)
    requires Reachable(srcs, h) && Next(srcs, h, e, h')
    ensures Reachable(srcs, h')
  {
    hide Next;
    var lives, events :| IsLife(srcs, lives, events) && lives[|lives| - 1] == h;
    assert IsLife(srcs, lives + [h'], events + [e]);
  }

  /** A manifest of an empty stream. */
  ghost predicate OfNothing(srcs: P.DirId -> P.Source, m: Manifest) {
    && StreamFor(srcs, m) == []
    && m.chunks == [] && m.bytes == 0
    && m.streamDigest == srcs((m.datasetGuid, m.snapshotGuid)).digest([])
  }

  function HomeOf(m: Manifest): P.DirId { (m.datasetGuid, m.snapshotGuid) }

  /** Into an empty directory an empty stream can be sent. */
  lemma CanSave(srcs: P.DirId -> P.Source, h: Life, m: Manifest) returns (h': Life)
    requires Reachable(srcs, h) && OfNothing(srcs, m) && m.snapshotGuid !in h.archive
    requires P.At(h.bucket, HomeOf(m)) == P.Dir(P.NOTHING, P.Idle)
    ensures Reachable(srcs, h')
    ensures h' == h.(bucket := h'.bucket, archive := h.archive[m.snapshotGuid := m], stranded := Stranded(h, m))
    ensures forall id: P.DirId :: id != HomeOf(m) ==> P.At(h'.bucket, id) == P.At(h.bucket, id)
    ensures P.At(h'.bucket, HomeOf(m)).contents.manifest == Some(m) && P.At(h'.bucket, HomeOf(m)).activity == P.Idle
  {
    var id, p := HomeOf(m), Params(m.from, m.flags, 1);
    var marker := Pending(p, 0, 0);
    var d1 := P.Dir(P.NOTHING, P.Starting(p, false));
    var d2 := P.Dir(P.NOTHING.(marker := P.Readable(marker)), P.Uploading(p, [], 1, map[], 0, {}, {}));
    var d3 := P.Dir(d2.contents.(manifest := Some(m)), P.Committed);
    SendsNothing(srcs(id), m, marker, d1, d2, d3);
    var h1 := Acted(srcs, h, id, P.BeginSend(p, 0), d1);
    var h2 := Acted(srcs, h1, id, P.Mark(marker, [], 1), d2);
    var h3 := h2.(bucket := h2.bucket[id := d3], archive := h.archive[m.snapshotGuid := m], stranded := Stranded(h, m));
    assert Stranded(h2, m) == Stranded(h, m);
    assert Next(srcs, h2, Save(id, m), h3) by { hide P.Next; }
    NextReachable(srcs, h2, Save(id, m), h3);
    h' := Acted(srcs, h3, id, P.Stop, d3.(activity := P.Idle));
  }

  lemma SendsNothing(src: P.Source, m: Manifest, marker: Pending, d1: P.Dir, d2: P.Dir, d3: P.Dir)
    requires (src.stream)(m.from, m.flags) == [] && m.chunks == [] && m.bytes == 0 && m.streamDigest == src.digest([])
    requires marker.params == Params(m.from, m.flags, 1)
    requires d1 == P.Dir(P.NOTHING, P.Starting(marker.params, false))
    requires d2 == P.Dir(P.NOTHING.(marker := P.Readable(marker)), P.Uploading(marker.params, [], 1, map[], 0, {}, {}))
    requires d3 == P.Dir(d2.contents.(manifest := Some(m)), P.Committed)
    ensures P.Next(src, P.Dir(P.NOTHING, P.Idle), P.BeginSend(marker.params, 0), d1)
    ensures P.Next(src, d1, P.Mark(marker, [], 1), d2)
    ensures P.Next(src, d2, P.Commit(m), d3)
    ensures P.Next(src, d3, P.Stop, d3.(activity := P.Idle))
  {
    assert P.Sizes(map[]) == map[];
    assert Cut([], 1) == [];
  }

  /** One step of a command, other than a commit or an expiry. */
  lemma Acted(srcs: P.DirId -> P.Source, h: Life, id: P.DirId, step: P.Step, d: P.Dir) returns (h': Life)
    requires Reachable(srcs, h) && P.Next(srcs(id), P.At(h.bucket, id), step, d)
    requires !step.Commit? && !step.BeginExpire?
    ensures Reachable(srcs, h') && h' == h.(bucket := h.bucket[id := d])
  {
    hide P.Next;
    h' := h.(bucket := h.bucket[id := d]);
    assert Next(srcs, h, Do(P.Action(id, step)), h');
    NextReachable(srcs, h, Do(P.Action(id, step)), h');
  }

  /** A life in which `send` reports success for what cannot be restored, though no retention run ever
      decided against it. A run decides against a full and the incremental on it, deletes the full
      and stops; the incremental is still listed, so a send based on it passes every check. */
  lemma StrandedHappens(srcs: P.DirId -> P.Source, full: Manifest, middle: Manifest, last: Manifest, cutoff: Instant)
    returns (before: Life, h: Life)
    requires OfNothing(srcs, full) && OfNothing(srcs, middle) && OfNothing(srcs, last)
    requires full.IsFull() && middle.from == Some(full.snapshotGuid) && last.from == Some(middle.snapshotGuid)
    requires full.datasetGuid == middle.datasetGuid == last.datasetGuid
    requires full.snapshotGuid != middle.snapshotGuid && middle.snapshotGuid != last.snapshotGuid
    requires last.snapshotGuid != full.snapshotGuid
    requires full.createdAt <= cutoff && middle.createdAt <= cutoff
    ensures Reachable(srcs, before) && Reachable(srcs, h)
    ensures A.BaseIn(before.archive, last.from, last.datasetGuid)
    ensures h.archive == before.archive[last.snapshotGuid := last] && last.snapshotGuid !in before.archive
    ensures last.snapshotGuid !in h.doomed && !ReachesFull(h.archive, last)
  {
    var f, i, g := full.snapshotGuid, middle.snapshotGuid, last.snapshotGuid;
    BirthReachable(srcs);
    hide Reachable, OfNothing, Next, ReachesFull;
    var h1 := CanSave(srcs, BIRTH, full);
    var h2 := CanSave(srcs, h1, middle);
    var h3 := h2.(doomed := {f, i});
    DecidedAgainst(srcs, h2, full, middle, cutoff, h3);
    before := Dropped(srcs, h3, full);
    h := CanSave(srcs, before, last);
    assert f !in before.archive && i in before.archive && before.archive[i] == middle;
    BaseGone(before.archive, middle);
    KeyedIfReachable(srcs, before);
    A.CommitReachesExactly(before.archive, last);
  }

  lemma KeyedIfReachable(srcs: P.DirId -> P.Source, h: Life)
    requires Reachable(srcs, h)
    ensures Keyed(h.archive)
  {
    var lives, events :| IsLife(srcs, lives, events) && lives[|lives| - 1] == h;
    LifeGood(srcs, lives, events, |lives| - 1);
  }

  lemma BaseGone(a: Index, m: Manifest)
    requires m.from.Some? && m.from.value !in a
    ensures !ReachesFull(a, m)
  {
    assert Behind(a, m, 1).None?;
    forall k: nat
      ensures !(Behind(a, m, k).Some? && Behind(a, m, k).value.IsFull())
    {
      if k > 0 {
        StaysNone(a, m, 1, k);
      }
    }
  }

  lemma DecidedAgainst(srcs: P.DirId -> P.Source, h: Life, full: Manifest, middle: Manifest, cutoff: Instant, h': Life)
    requires Reachable(srcs, h) && h.archive == map[full.snapshotGuid := full, middle.snapshotGuid := middle]
    requires full.snapshotGuid != middle.snapshotGuid && h.pins == {} && h.doomed == {}
    requires full.createdAt <= cutoff && middle.createdAt <= cutoff
    requires h' == h.(doomed := {full.snapshotGuid, middle.snapshotGuid})
    ensures Reachable(srcs, h')
  {
    var all := [full, middle];
    TwoIndexed(full, middle);
    NothingKept(all, Policy({}, Some(cutoff), 0));
    hide IsKeepSet, LastByGuid, Reachable;
    assert h.archive == map g | g in h.archive && g in h.archive.Keys :: h.archive[g];
    NextReachable(srcs, h, Decide(all, Some(cutoff), 0, {}), h');
  }

  lemma Dropped(srcs: P.DirId -> P.Source, h: Life, m: Manifest) returns (h': Life)
    requires Reachable(srcs, h) && m.snapshotGuid in h.doomed
    requires P.At(h.bucket, HomeOf(m)).contents.manifest == Some(m) && P.At(h.bucket, HomeOf(m)).activity == P.Idle
    ensures Reachable(srcs, h')
    ensures h' == h.(bucket := h'.bucket, archive := Without(h.archive, {m.snapshotGuid}))
    ensures forall id: P.DirId :: id != HomeOf(m) ==> P.At(h'.bucket, id) == P.At(h.bucket, id)
  {
    hide Reachable;
    var id, c := HomeOf(m), P.At(h.bucket, HomeOf(m)).contents;
    var d := P.Dir(c.(manifest := None), P.Expiring(m));
    assert P.Next(srcs(id), P.At(h.bucket, id), P.BeginExpire, d);
    h' := h.(bucket := h.bucket[id := d], archive := Without(h.archive, {m.snapshotGuid}));
    NextReachable(srcs, h, Drop(id), h');
  }
}
