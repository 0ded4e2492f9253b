/** The protocol of one snapshot directory in the bucket: sends, retention and cleaning, each a
    sequence of atomic steps that can stop anywhere, one command at a time per snapshot. */
module Protocol {
  import opened Bytes
  import opened Manifests
  import opened Chunking

  /** What cannot be seen from here: the stream `zfs send` produces for this snapshot, which is a
      function of the base and the flags, and the digest. */
  datatype Source = Source(stream: (Option<Guid>, SendFlags) -> seq<Byte>, digest: Digest)

  function StreamOf(src: Source, p: Params): seq<Byte> {
    (src.stream)(p.from, p.flags)
  }

  /** A marker can be there and not decode. */
  datatype Marker = Absent | Unreadable | Readable(value: Pending)

  /** The objects of one directory. */
  datatype Contents = Contents(manifest: Option<Manifest>, marker: Marker, chunks: map<nat, seq<Byte>>) {
    /** A send of `p` can go on from here. */
    predicate Resumes(p: Params) { marker.Readable? && marker.value.params == p }
  }

  const NOTHING := Contents(None, Absent, map[])

  /** The command at work in the directory, if any, and how far it is. */
  datatype Activity =
    | Idle
    | Starting(p: Params, resume: bool)
    | Uploading(p: Params, feed: seq<Byte>, parallel: nat, existing: map<nat, nat>,
                next: nat, inflight: set<nat>, uploaded: set<nat>)
    | Committed
    | Expiring(m: Manifest)
    | Cleaning(doomed: set<nat>)

  datatype Dir = Dir(contents: Contents, activity: Activity)

  datatype Step =
    | BeginSend(p: Params, now: Instant)
    | PurgeChunk(i: nat)
    | PurgeMarker
    | Mark(marker: Pending, feed: seq<Byte>, parallel: nat)
    | Skip
    | Spawn
    | Land(i: nat)
    | JoinUpload(i: nat)
    | Refresh(marker: Pending)
    | Commit(m: Manifest)
    | Unmark
    | BeginExpire
    | ExpireChunk(i: nat)
    | ExpireMarker
    | BeginClean(now: Instant)
    | CleanChunk(i: nat)
    | CleanMarker
    | Garble // the marker is damaged, by whatever
    | Stop // the command ends, fails or is killed

  function Sizes(chunks: map<nat, seq<Byte>>): map<nat, nat> {
    map i | i in chunks :: |chunks[i]|
  }

  function Named(m: Manifest): set<nat> {
    set c | c in m.chunks :: c.index
  }

  /** Chunk `i` as the running upload reads it. */
  function Piece(a: Activity, i: nat): seq<Byte>
    requires a.Uploading? && a.p.chunkSize > 0 && i < |Cut(a.feed, a.p.chunkSize)|
  {
    Cut(a.feed, a.p.chunkSize)[i]
  }

  /** One atomic step, exactly. */
  ghost predicate Next(src: Source, d: Dir, step: Step, d': Dir) {
    var c, a := d.contents, d.activity;
    match step
    case BeginSend(p, now) =>
      && a == Idle && c.manifest.None? && p.chunkSize > 0
      && (c.marker.Readable? ==> !c.marker.value.LeaseLive(now))
      && d' == d.(activity := Starting(p, c.Resumes(p)))
    case PurgeChunk(i) =>
      && a.Starting? && !a.resume && i in c.chunks
      && d' == d.(contents := c.(chunks := c.chunks - {i}))
    case PurgeMarker =>
      && a.Starting? && !a.resume
      && d' == d.(contents := c.(marker := Absent))
    case Mark(marker, feed, parallel) =>
      && a.Starting? && marker.params == a.p
      && feed <= StreamOf(src, a.p)
      && (!a.resume ==> c.chunks == map[] && c.marker.Absent?)
      && d' == Dir(c.(marker := Readable(marker)), Uploading(a.p, feed, parallel, Sizes(c.chunks), 0, {}, {}))
    case Skip =>
      && a.Uploading? && a.p.chunkSize > 0 && a.next < |Cut(a.feed, a.p.chunkSize)|
      && a.next in a.existing && a.existing[a.next] == |Piece(a, a.next)|
      && d' == d.(activity := a.(next := a.next + 1, uploaded := a.uploaded + {a.next}))
    case Spawn =>
      && a.Uploading? && a.p.chunkSize > 0 && a.next < |Cut(a.feed, a.p.chunkSize)|
      && !(a.next in a.existing && a.existing[a.next] == |Piece(a, a.next)|)
      && |a.inflight| < Max(a.parallel, 1)
      && d' == d.(activity := a.(next := a.next + 1, inflight := a.inflight + {a.next}))
    case Land(i) =>
      && a.Uploading? && a.p.chunkSize > 0 && i in a.inflight && i < |Cut(a.feed, a.p.chunkSize)|
      && d' == d.(contents := c.(chunks := c.chunks[i := Piece(a, i)]))
    case JoinUpload(i) =>
      && a.Uploading? && a.p.chunkSize > 0 && i in a.inflight && i < |Cut(a.feed, a.p.chunkSize)|
      && d' == Dir(c.(chunks := c.chunks[i := Piece(a, i)]),
                   a.(inflight := a.inflight - {i}, uploaded := a.uploaded + {i}))
    case Refresh(marker) =>
      && a.Uploading? && marker.params == a.p
      && d' == d.(contents := c.(marker := Readable(marker)))
    case Commit(m) =>
      && a.Uploading? && a.p.chunkSize > 0
      && a.feed == StreamOf(src, a.p)
      && a.next == |Cut(a.feed, a.p.chunkSize)| && a.inflight == {} && |a.uploaded| == a.next
      && m.from == a.p.from && m.flags == a.p.flags
      && DescribesStream(m, a.feed, a.p.chunkSize, src.digest)
      && d' == Dir(c.(manifest := Some(m)), Committed)
    case Unmark =>
      && a == Committed
      && d' == Dir(c.(marker := Absent), Idle)
    case BeginExpire =>
      && a == Idle && c.manifest.Some?
      && d' == Dir(c.(manifest := None), Expiring(c.manifest.value))
    case ExpireChunk(i) =>
      && a.Expiring? && i in Named(a.m)
      && d' == d.(contents := c.(chunks := c.chunks - {i}))
    case ExpireMarker =>
      && a.Expiring?
      && d' == d.(contents := c.(marker := Absent))
    case BeginClean(now) =>
      && a == Idle
      && (c.manifest.None? && c.marker.Readable? ==> !c.marker.value.LeaseLive(now))
      && d' == d.(activity := Cleaning(c.chunks.Keys - (if c.manifest.Some? then Named(c.manifest.value) else {})))
    case CleanChunk(i) =>
      && a.Cleaning? && i in a.doomed
      && d' == d.(contents := c.(chunks := c.chunks - {i}))
    case CleanMarker =>
      && a.Cleaning?
      && d' == d.(contents := c.(marker := Absent))
    case Garble => !c.marker.Absent? && d' == d.(contents := c.(marker := Unreadable))
    case Stop => d' == d.(activity := Idle)
  }

  // ---- The invariant -----------------------------------------------------------------

  /** Every stored chunk is the corresponding piece of the stream of `p`, or the beginning of it. */
  ghost predicate ChunksOf(src: Source, p: Params, chunks: map<nat, seq<Byte>>) {
    && p.chunkSize > 0
    && var pieces := Cut(StreamOf(src, p), p.chunkSize);
       forall i <- chunks :: i < |pieces| && chunks[i] <= pieces[i]
  }

  /** The committed backup: the manifest describes the stream, and every chunk is there. */
  ghost predicate CommittedWhole(src: Source, m: Manifest, chunks: map<nat, seq<Byte>>, size: nat) {
    && DescribesStream(m, (src.stream)(m.from, m.flags), size, src.digest)
    && Holds(chunks, (src.stream)(m.from, m.flags), size)
  }

  ghost predicate Backed(src: Source, m: Manifest, chunks: map<nat, seq<Byte>>) {
    exists size: nat :: CommittedWhole(src, m, chunks, size)
  }

  ghost predicate UploadInv(src: Source, c: Contents, a: Activity)
    requires a.Uploading?
  {
    && c.manifest.None? && (c.marker.Readable? ==> c.marker.value.params == a.p)
    && ChunksOf(src, a.p, c.chunks)
    && a.feed <= StreamOf(src, a.p)
    && Window(a.next, a.inflight, a.uploaded, a.parallel)
    && Arrivals(Cut(a.feed, a.p.chunkSize), c.chunks, a.next, a.uploaded)
    && Untouched(c.chunks, a.next, a.existing)
  }

  /** Finished and in-flight numbers partition 0..next, and no more are in flight than allowed. */
  ghost predicate Window(next: nat, inflight: set<nat>, uploaded: set<nat>, parallel: nat) {
    && inflight !! uploaded
    && (forall i: nat :: i < next ==> i in inflight || i in uploaded)
    && (forall i <- inflight :: i < next)
    && (forall i <- uploaded :: i < next)
    && |inflight| <= Max(parallel, 1)
  }

  /** What counts as uploaded is stored, byte for byte. */
  ghost predicate Arrivals(pieces: seq<seq<Byte>>, chunks: map<nat, seq<Byte>>, next: nat, uploaded: set<nat>) {
    && next <= |pieces|
    && forall i <- uploaded :: i < |pieces| && i in chunks && chunks[i] == pieces[i]
  }

  /** The listing taken at the start still holds for what lies ahead. */
  ghost predicate Untouched(chunks: map<nat, seq<Byte>>, next: nat, existing: map<nat, nat>) {
    forall i <- existing :: i >= next ==> i in chunks && |chunks[i]| == existing[i]
  }

  ghost predicate Inv(src: Source, d: Dir) {
    var c, a := d.contents, d.activity;
    && (c.manifest.Some? ==> Backed(src, c.manifest.value, c.chunks))
    && (c.marker.Readable? ==> ChunksOf(src, c.marker.value.params, c.chunks))
    && match a
       case Idle | Committed => true
       case Starting(p, resume) =>
         && c.manifest.None? && p.chunkSize > 0
         && (resume ==> ChunksOf(src, p, c.chunks) && (c.marker.Readable? ==> c.marker.value.params == p))
       case Uploading(_, _, _, _, _, _, _) => UploadInv(src, c, a)
       case Expiring(_) => c.manifest.None?
       case Cleaning(doomed) => c.manifest.Some? ==> doomed !! Named(c.manifest.value)
  }

  // ---- Each step keeps it ----------------------------------------------------------------

  lemma FewerChunks(src: Source, p: Params, chunks: map<nat, seq<Byte>>, i: nat)
    requires ChunksOf(src, p, chunks)
    ensures ChunksOf(src, p, chunks - {i})
  {
    hide Cut;
  }

  lemma UnnamedChunkSpared(src: Source, m: Manifest, chunks: map<nat, seq<Byte>>, size: nat, i: nat)
    requires CommittedWhole(src, m, chunks, size) && i !in Named(m)
    ensures CommittedWhole(src, m, chunks - {i}, size)
  {
    hide Cut;
    var pieces := Cut((src.stream)(m.from, m.flags), size);
    forall k: nat | k < |pieces|
      ensures k in chunks - {i} && (chunks - {i})[k] == pieces[k]
    {
      assert m.chunks[k] in m.chunks;
    }
  }

  lemma PieceFits(src: Source, c: Contents, a: Activity, i: nat)
    requires a.Uploading? && UploadInv(src, c, a) && i < |Cut(a.feed, a.p.chunkSize)|
    ensures ChunksOf(src, a.p, c.chunks[i := Piece(a, i)])
    ensures i in c.chunks && |c.chunks[i]| == |Piece(a, i)| ==> c.chunks[i] == Piece(a, i)
  {
    CutOfPrefix(a.feed, StreamOf(src, a.p), a.p.chunkSize);
    hide Cut;
  }

  lemma WindowSkips(next: nat, inflight: set<nat>, uploaded: set<nat>, parallel: nat)
    requires Window(next, inflight, uploaded, parallel)
    ensures Window(next + 1, inflight, uploaded + {next}, parallel)
  {
  }

  lemma WindowSpawns(next: nat, inflight: set<nat>, uploaded: set<nat>, parallel: nat)
    requires Window(next, inflight, uploaded, parallel) && |inflight| < Max(parallel, 1)
    ensures Window(next + 1, inflight + {next}, uploaded, parallel)
  {
  }

  lemma WindowJoins(next: nat, inflight: set<nat>, uploaded: set<nat>, parallel: nat, i: nat)
    requires Window(next, inflight, uploaded, parallel) && i in inflight
    ensures i < next && Window(next, inflight - {i}, uploaded + {i}, parallel)
  {
  }

  lemma LandKeeps(src: Source, d: Dir, i: nat, d': Dir)
    requires Inv(src, d) && Next(src, d, Land(i), d')
    ensures Inv(src, d')
  {
    var c, a := d.contents, d.activity;
    var c' := c.(chunks := c.chunks[i := Piece(a, i)]);
    assert d' == Dir(c', a);
    PieceFits(src, c, a, i);
    WindowJoins(a.next, a.inflight, a.uploaded, a.parallel, i);
    hide Next, Cut, Backed, ChunksOf, Window;
    assert UploadInv(src, c', a);
    hide UploadInv;
  }

  lemma JoinedInv(src: Source, c: Contents, a: Activity, i: nat)
    requires a.Uploading? && UploadInv(src, c, a)
    requires i in a.inflight && i < |Cut(a.feed, a.p.chunkSize)|
    ensures var c' := c.(chunks := c.chunks[i := Piece(a, i)]);
      && UploadInv(src, c', a.(inflight := a.inflight - {i}, uploaded := a.uploaded + {i}))
      && ChunksOf(src, a.p, c'.chunks)
  {
    PieceFits(src, c, a, i);
    WindowJoins(a.next, a.inflight, a.uploaded, a.parallel, i);
    hide Cut, ChunksOf, Window;
  }

  lemma JoinKeeps(src: Source, d: Dir, i: nat, d': Dir)
    requires Inv(src, d) && Next(src, d, JoinUpload(i), d')
    ensures Inv(src, d')
  {
    hide Cut, Backed, ChunksOf, Window, Arrivals, Untouched;
    JoinedInv(src, d.contents, d.activity, i);
  }

  lemma SkipKeeps(src: Source, d: Dir, d': Dir)
    requires Inv(src, d) && Next(src, d, Skip, d')
    ensures Inv(src, d')
  {
    var c, a := d.contents, d.activity;
    var a' := a.(next := a.next + 1, uploaded := a.uploaded + {a.next});
    assert d' == Dir(c, a');
    PieceFits(src, c, a, a.next);
    WindowSkips(a.next, a.inflight, a.uploaded, a.parallel);
    hide Next, Cut, Backed, ChunksOf, Window;
    assert UploadInv(src, c, a');
    hide UploadInv;
  }

  lemma SpawnKeeps(src: Source, d: Dir, d': Dir)
    requires Inv(src, d) && Next(src, d, Spawn, d')
    ensures Inv(src, d')
  {
    var c, a := d.contents, d.activity;
    var a' := a.(next := a.next + 1, inflight := a.inflight + {a.next});
    assert d' == Dir(c, a');
    WindowSpawns(a.next, a.inflight, a.uploaded, a.parallel);
    hide Next, Cut, Backed, ChunksOf, Window;
    assert UploadInv(src, c, a');
    hide UploadInv;
  }

  /** A manifest is written only once every chunk it names was uploaded or proved present. */
  lemma CommitKeeps(src: Source, d: Dir, m: Manifest, d': Dir)
    requires Inv(src, d) && Next(src, d, Commit(m), d')
    ensures Inv(src, d')
    ensures CommittedWhole(src, m, d'.contents.chunks, d.activity.p.chunkSize)
  {
    hide Cut, ChunksOf;
    var c, a := d.contents, d.activity;
    var pieces := Cut(a.feed, a.p.chunkSize);
    assert d' == Dir(c.(manifest := Some(m)), Committed);
    hide Next;
    forall i: nat | i < |pieces|
      ensures i in c.chunks && c.chunks[i] == pieces[i]
    {
      assert i in a.uploaded;
    }
    assert CommittedWhole(src, m, c.chunks, a.p.chunkSize);
  }

  lemma MarkKeeps(src: Source, d: Dir, marker: Pending, feed: seq<Byte>, parallel: nat, d': Dir)
    requires Inv(src, d) && Next(src, d, Mark(marker, feed, parallel), d')
    ensures Inv(src, d')
  {
    hide Cut, Backed;
  }

  lemma RemovalKeeps(src: Source, d: Dir, step: Step, d': Dir)
    requires Inv(src, d) && Next(src, d, step, d')
    requires step.PurgeChunk? || step.ExpireChunk? || step.CleanChunk?
    ensures Inv(src, d')
  {
    hide Cut, CommittedWhole, ChunksOf;
    var c := d.contents;
    if c.marker.Readable? {
      FewerChunks(src, c.marker.value.params, c.chunks, step.i);
    }
    if c.manifest.Some? {
      var size :| CommittedWhole(src, c.manifest.value, c.chunks, size);
      UnnamedChunkSpared(src, c.manifest.value, c.chunks, size, step.i);
    }
  }

  lemma NextKeepsInv(src: Source, d: Dir, step: Step, d': Dir)
    requires Inv(src, d) && Next(src, d, step, d')
    ensures Inv(src, d')
  {
    match step
    case Land(i) => LandKeeps(src, d, i, d');
    case JoinUpload(i) => JoinKeeps(src, d, i, d');
    case Skip => SkipKeeps(src, d, d');
    case Spawn => SpawnKeeps(src, d, d');
    case Commit(m) => CommitKeeps(src, d, m, d');
    case Mark(marker, feed, parallel) => MarkKeeps(src, d, marker, feed, parallel, d');
    case PurgeChunk(i) => RemovalKeeps(src, d, step, d');
    case ExpireChunk(i) => RemovalKeeps(src, d, step, d');
    case CleanChunk(i) => RemovalKeeps(src, d, step, d');
    case _ => hide Cut, Backed, Named, Sizes;
  }

  // ---- Runs of one directory ----------------------------------------------------------------

  ghost predicate IsPath(src: Source, dirs: seq<Dir>, steps: seq<Step>) {
    && |dirs| == |steps| + 1
    && forall k {:trigger steps[k]} :: 0 <= k < |steps| ==> Next(src, dirs[k], steps[k], dirs[k + 1])
  }

  lemma {:induction false} PathKeepsInv(src: Source, dirs: seq<Dir>, steps: seq<Step>, k: nat)
    requires IsPath(src, dirs, steps) && Inv(src, dirs[0]) && k < |dirs|
    ensures Inv(src, dirs[k])
  {
    hide Next, Inv;
    if k > 0 {
      PathKeepsInv(src, dirs, steps, k - 1);
      NextKeepsInv(src, dirs[k - 1], steps[k - 1], dirs[k]);
    }
  }

  /** Some steps lead from the one to the other. */
  ghost predicate Path(src: Source, from: Dir, to: Dir) {
    exists dirs, steps :: IsPath(src, dirs, steps) && dirs[0] == from && dirs[|dirs| - 1] == to
  }

  lemma NoStep(src: Source, d: Dir)
    ensures Path(src, d, d)
  {
    assert IsPath(src, [d], []);
  }

  lemma OneStep(src: Source, d: Dir, step: Step, d': Dir)
    requires Next(src, d, step, d')
    ensures Path(src, d, d')
  {
    hide Next;
    assert IsPath(src, [d, d'], [step]);
  }

  lemma Joined(src: Source, d: Dir, d': Dir, d'': Dir)
    requires Path(src, d, d') && Path(src, d', d'')
    ensures Path(src, d, d'')
  {
    hide Next;
    var dirs, steps :| IsPath(src, dirs, steps) && dirs[0] == d && dirs[|dirs| - 1] == d';
    var dirs', steps' :| IsPath(src, dirs', steps') && dirs'[0] == d' && dirs'[|dirs'| - 1] == d'';
    var all, both := dirs + dirs'[1..], steps + steps';
    forall k | 0 <= k < |both|
      ensures Next(src, all[k], both[k], all[k + 1])
    {
      if k < |steps| {
        assert both[k] == steps[k] && all[k] == dirs[k] && all[k + 1] == dirs[k + 1];
      } else {
        var i := k - |steps|;
        assert both[k] == steps'[i] && all[k] == dirs'[i] && all[k + 1] == dirs'[i + 1];
      }
    }
    assert IsPath(src, all, both) && all[0] == d && all[|all| - 1] == d'';
  }

  lemma EmptyDirInv(src: Source)
    ensures Inv(src, Dir(NOTHING, Idle))
  {
  }

  // ---- Runs of the whole bucket ---------------------------------------------------------------

  type DirId = (Guid, Guid)

  /** The directories that have ever been used; the others are empty. */
  type Bucket = map<DirId, Dir>

  ghost function At(b: Bucket, id: DirId): Dir {
    if id in b then b[id] else Dir(NOTHING, Idle)
  }

  datatype Action = Action(id: DirId, step: Step)

  /** Any directory may take its next step: commands on different snapshots interleave freely. */
  ghost predicate BucketNext(srcs: DirId -> Source, b: Bucket, act: Action, b': Bucket) {
    && Next(srcs(act.id), At(b, act.id), act.step, At(b', act.id))
    && b' == b[act.id := At(b', act.id)]
  }

  ghost predicate IsRun(srcs: DirId -> Source, states: seq<Bucket>, acts: seq<Action>) {
    && |states| == |acts| + 1
    && states[0] == map[]
    && forall k {:trigger acts[k]} :: 0 <= k < |acts| ==> BucketNext(srcs, states[k], acts[k], states[k + 1])
  }

  lemma {:induction false} RunKeepsInv(srcs: DirId -> Source, states: seq<Bucket>, acts: seq<Action>, k: nat, id: DirId)
    requires IsRun(srcs, states, acts) && k < |states|
    ensures Inv(srcs(id), At(states[k], id))
  {
    hide Next, Inv;
    if k == 0 {
      EmptyDirInv(srcs(id));
    } else {
      RunKeepsInv(srcs, states, acts, k - 1, id);
      if acts[k - 1].id == id {
        NextKeepsInv(srcs(id), At(states[k - 1], id), acts[k - 1].step, At(states[k], id));
      }
    }
  }

  /** In every state a bucket can be in, after any sends, expiries and cleans of any snapshots, each
      stopped at any step: a manifest means a whole backup, that verify accepts. */
  lemma ManifestMeansBackup(srcs: DirId -> Source, states: seq<Bucket>, acts: seq<Action>, k: nat, id: DirId)
    requires IsRun(srcs, states, acts) && k < |states|
    requires At(states[k], id).contents.manifest.Some?
    ensures var c := At(states[k], id).contents;
      var m := c.manifest.value;
      && (forall e <- m.chunks :: ChunkMatches(e, c.chunks, srcs(id).digest))
      && Intact(m, c.chunks, srcs(id).digest)
      && Gather(m.chunks, c.chunks) == (srcs(id).stream)(m.from, m.flags)
  {
    RunKeepsInv(srcs, states, acts, k, id);
    BackedIsIntact(srcs(id), At(states[k], id).contents);
  }

  lemma BackedIsIntact(src: Source, c: Contents)
    requires c.manifest.Some? && Backed(src, c.manifest.value, c.chunks)
    ensures var m := c.manifest.value;
      Intact(m, c.chunks, src.digest) && Gather(m.chunks, c.chunks) == (src.stream)(m.from, m.flags)
  {
    hide Cut, Describe, Gather;
    var m := c.manifest.value;
    var size: nat :| CommittedWhole(src, m, c.chunks, size);
    CommittedVerifies(m, c.chunks, (src.stream)(m.from, m.flags), size, src.digest);
  }

  /** In every interleaving of reads and completions: finished and in-flight uploads are exactly
      the chunks read so far, never more than `parallel` in flight, and what counts as finished
      is stored byte for byte. */
  lemma UploadWindow(srcs: DirId -> Source, states: seq<Bucket>, acts: seq<Action>, k: nat, id: DirId)
    requires IsRun(srcs, states, acts) && k < |states|
    requires At(states[k], id).activity.Uploading?
    ensures var a := At(states[k], id).activity;
      && a.p.chunkSize > 0
      && Window(a.next, a.inflight, a.uploaded, a.parallel)
      && Arrivals(Cut(a.feed, a.p.chunkSize), At(states[k], id).contents.chunks, a.next, a.uploaded)
  {
    RunKeepsInv(srcs, states, acts, k, id);
    hide Cut, Window, Arrivals;
  }

  /** Once the uploads are drained none is missing: the count that could refuse the manifest
      never does. */
  lemma {:induction false} NothingMissing(next: nat, uploaded: set<nat>, parallel: nat)
    requires Window(next, {}, uploaded, parallel)
    ensures |uploaded| == next
  {
    if next == 0 {
      assert uploaded == {};
    } else {
      NothingMissing(next - 1, uploaded - {next - 1}, parallel);
    }
  }

  /** Resuming by size alone is sound: under a marker, a stored chunk as long as the piece it stands
      for is that piece; and it is not that piece only if it is shorter. */
  lemma ResumeBySize(srcs: DirId -> Source, states: seq<Bucket>, acts: seq<Action>, k: nat, id: DirId, i: nat)
    requires IsRun(srcs, states, acts) && k < |states|
    requires var c := At(states[k], id).contents; c.marker.Readable? && i in c.chunks
    ensures var c := At(states[k], id).contents;
      var p := c.marker.value.params;
      && p.chunkSize > 0
      && i < |Cut(StreamOf(srcs(id), p), p.chunkSize)|
      && var piece := Cut(StreamOf(srcs(id), p), p.chunkSize)[i];
         c.chunks[i] <= piece && (c.chunks[i] == piece <==> |c.chunks[i]| == |piece|)
  {
    RunKeepsInv(srcs, states, acts, k, id);
    hide Cut;
  }

  /** A marker does not mean that every stored chunk is a whole piece: when `zfs send` dies in the
      middle of one, its beginning is uploaded under the piece's number before the run fails. */
  lemma ShortChunkHappens(src: Source, p: Params, marker: Pending) returns (dirs: seq<Dir>, steps: seq<Step>)
    requires p.chunkSize > 1 && |StreamOf(src, p)| > 1 && marker.params == p
    ensures IsPath(src, dirs, steps) && dirs[0] == Dir(NOTHING, Idle)
    ensures var c := dirs[|dirs| - 1].contents;
      && c.marker == Readable(marker)
      && 0 in c.chunks && c.chunks[0] != Cut(StreamOf(src, p), p.chunkSize)[0]
  {
    var s := StreamOf(src, p);
    var feed := s[..1];
    var d0 := Dir(NOTHING, Idle);
    var d1 := Dir(NOTHING, Starting(p, false));
    var c2 := NOTHING.(marker := Readable(marker));
    var a2 := Uploading(p, feed, 1, map[], 0, {}, {});
    var a3 := a2.(next := 1, inflight := {0});
    var d4 := Dir(c2.(chunks := map[0 := feed]), a3);
    steps := [BeginSend(p, 0), Mark(marker, feed, 1), Spawn, Land(0)];
    dirs := [d0, d1, Dir(c2, a2), Dir(c2, a3), d4];
    assert Cut(feed, p.chunkSize) == [feed];
    assert {} + {0} == {0};
    assert Next(src, d0, steps[0], d1);
    assert Sizes(map[]) == map[];
    assert Next(src, d1, steps[1], Dir(c2, a2));
    assert Next(src, Dir(c2, a2), steps[2], Dir(c2, a3));
    assert Next(src, Dir(c2, a3), steps[3], d4);
  }
}
