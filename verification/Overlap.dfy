/** Sends of one snapshot that do overlap, under the rules of `Lease`: together they do no more to the
    directory than one command after another, so what `Protocol` proves holds for them too. */
module Overlapping {
  import opened Bytes
  import opened Manifests
  import opened Chunking
  import opened Protocol
  import L = Lease

  datatype Run =
    | Looking
    | Sending(work: Activity, refreshed: Instant)
    | Closing
    | Ended

  datatype Joint = Joint(now: Instant, contents: Contents, runs: map<L.RunId, Run>)

  const START := Joint(0, NOTHING, map[])

  const RULES := L.Rules(L.Whole, true)

  function PhaseOf(run: Run): L.Phase {
    match run
    case Looking => L.Checked
    case Sending(_, refreshed) => L.Uploading(refreshed)
    case Closing => L.Committing
    case Ended => L.Over
  }

  function OwnerOf(marker: Marker): Option<L.Marker> {
    if marker.Readable? then Some(L.Marker(marker.value.runId, marker.value.refreshedAt)) else None
  }

  function Phases(runs: map<L.RunId, Run>): map<L.RunId, L.Phase> {
    map r | r in runs :: PhaseOf(runs[r])
  }

  /** What the lease protocol sees of it. */
  function WorldOf(j: Joint): L.World {
    L.World(j.now, j.contents.manifest.Some?, OwnerOf(j.contents.marker), Phases(j.runs))
  }

  datatype JointStep =
    | Look(r: L.RunId)
    | Claim(r: L.RunId, p: Params, feed: seq<Byte>, parallel: nat)
    | Work(r: L.RunId, step: Step)
    | Renew(r: L.RunId)
    | Finish(r: L.RunId, m: Manifest)
    | Close(r: L.RunId)
    | Perish(r: L.RunId)
    | Wait(time: nat)

  /** The chunks a send of `p` starts with. */
  function Left(c: Contents, p: Params): map<nat, seq<Byte>> {
    if c.Resumes(p) then c.chunks else map[]
  }

  ghost predicate IsSending(j: Joint, r: L.RunId) {
    r in j.runs && j.runs[r].Sending? && j.runs[r].work.Uploading?
  }

  ghost predicate UploadStep(step: Step) {
    step.Skip? || step.Spawn? || step.Land? || step.JoinUpload?
  }

  /** A claim is one indivisible step, from the look for a manifest to the writing of the marker. */
  ghost predicate Claims(src: Source, j: Joint, r: L.RunId, p: Params, feed: seq<Byte>, parallel: nat, j': Joint) {
    var c := j.contents;
    && r in j.runs && j.runs[r] == Looking
    && c.manifest.None? && (c.marker.Readable? ==> !c.marker.value.LeaseLive(j.now))
    && p.chunkSize > 0 && feed <= StreamOf(src, p)
    && var chunks := Left(c, p);
       j' == Joint(j.now, Contents(None, Readable(Pending(p, r, j.now)), chunks),
                   j.runs[r := Sending(Uploading(p, feed, parallel, Sizes(chunks), 0, {}, {}), j.now)])
  }

  ghost predicate Works(src: Source, j: Joint, r: L.RunId, step: Step, j': Joint) {
    && IsSending(j, r) && UploadStep(step) && IsSending(j', r)
    && Next(src, Dir(j.contents, j.runs[r].work), step, Dir(j'.contents, j'.runs[r].work))
    && j' == Joint(j.now, j'.contents, j.runs[r := Sending(j'.runs[r].work, j.runs[r].refreshed)])
  }

  ghost predicate JointNext(src: Source, j: Joint, s: JointStep, j': Joint) {
    var c := j.contents;
    match s
    case Look(r) =>
      r !in j.runs && c.manifest.None? && j' == j.(runs := j.runs[r := Looking])
    case Claim(r, p, feed, parallel) => Claims(src, j, r, p, feed, parallel, j')
    case Work(r, step) => Works(src, j, r, step, j')
    case Renew(r) =>
      && IsSending(j, r)
      && j' == Joint(j.now, c.(marker := Readable(Pending(j.runs[r].work.p, r, j.now))),
                     j.runs[r := Sending(j.runs[r].work, j.now)])
    case Finish(r, m) =>
      && IsSending(j, r)
      && Next(src, Dir(c, j.runs[r].work), Commit(m), Dir(j'.contents, Committed))
      && j' == Joint(j.now, j'.contents, j.runs[r := Closing])
    case Close(r) =>
      && r in j.runs && j.runs[r] == Closing
      && j' == Joint(j.now, c.(marker := Absent), j.runs[r := Ended])
    case Perish(r) =>
      r in j.runs && j' == j.(runs := j.runs[r := Ended])
    case Wait(time) =>
      && (forall r <- j.runs :: j.runs[r].Sending? ==> j.now + time - j.runs[r].refreshed < LEASE)
      && j' == j.(now := j.now + time)
  }

  // ---- It follows the rules of the lease ---------------------------------------------------------

  ghost predicate OneCloses(j: Joint) {
    forall r, r' :: r in j.runs && r' in j.runs && j.runs[r] == Closing && j.runs[r'] == Closing ==> r == r'
  }

  ghost predicate Disciplined(j: Joint) {
    && L.Owned(WorldOf(j)) && OneCloses(j)
    && forall r <- j.runs :: j.runs[r].Sending? ==> j.runs[r].work.Uploading?
  }

  lemma PhasesNext(runs: map<L.RunId, Run>, r: L.RunId, run: Run)
    ensures Phases(runs[r := run]) == Phases(runs)[r := PhaseOf(run)]
  {
  }

  lemma WorkSeenAs(src: Source, j: Joint, r: L.RunId, step: Step, j': Joint)
    requires Works(src, j, r, step, j')
    ensures WorldOf(j') == WorldOf(j)
  {
    PhasesNext(j.runs, r, j'.runs[r]);
    assert j'.contents.marker == j.contents.marker && j'.contents.manifest == j.contents.manifest by {
      hide Cut;
    }
    hide Next;
    assert Phases(j'.runs) == Phases(j.runs);
  }

  /** Every joint step is a move of the lease protocol, or none that it sees. */
  lemma SeenAs(src: Source, j: Joint, s: JointStep, j': Joint) returns (move: L.Move)
    requires JointNext(src, j, s, j')
    ensures L.Moves(RULES, WorldOf(j), move, WorldOf(j')) || WorldOf(j') == WorldOf(j)
  {
    hide Next, Cut;
    match s
    case Look(r) =>
      PhasesNext(j.runs, r, Looking);
      move := L.Check(r);
    case Claim(r, p, feed, parallel) =>
      PhasesNext(j.runs, r, j'.runs[r]);
      move := L.Write(r);
    case Work(r, step) =>
      WorkSeenAs(src, j, r, step, j');
      move := L.Pass(0);
    case Renew(r) =>
      PhasesNext(j.runs, r, j'.runs[r]);
      move := L.Refresh(r);
    case Finish(r, m) =>
      CommitKeepsMarker(src, j.contents, j.runs[r].work, m, j'.contents);
      PhasesNext(j.runs, r, Closing);
      move := L.Commit(r);
    case Close(r) =>
      PhasesNext(j.runs, r, Ended);
      move := L.Unmark(r);
    case Perish(r) =>
      PhasesNext(j.runs, r, Ended);
      move := L.Die(r);
    case Wait(time) =>
      move := L.Pass(time);
  }

  lemma CommitKeepsMarker(src: Source, c: Contents, a: Activity, m: Manifest, c': Contents)
    requires Next(src, Dir(c, a), Commit(m), Dir(c', Committed))
    ensures c' == c.(manifest := Some(m))
  {
    hide Cut;
  }

  lemma StaysDisciplined(src: Source, j: Joint, s: JointStep, j': Joint)
    requires Disciplined(j) && JointNext(src, j, s, j')
    ensures Disciplined(j')
  {
    var move := SeenAs(src, j, s, j');
    if WorldOf(j') != WorldOf(j) {
      L.MoveKeepsOwned(RULES, WorldOf(j), move, WorldOf(j'));
    }
    CloserNext(src, j, s, j');
    hide L.Owned, JointNext, WorldOf, OneCloses;
  }

  lemma CloserNext(src: Source, j: Joint, s: JointStep, j': Joint)
    requires Disciplined(j) && JointNext(src, j, s, j')
    ensures OneCloses(j') && forall r <- j'.runs :: j'.runs[r].Sending? ==> j'.runs[r].work.Uploading?
  {
    if s.Finish? {
      OnlyOneActive(j, s.r);
    }
    hide Next, L.Owned, WorldOf;
  }

  // ---- One command after another -------------------------------------------------------------------

  /** The directory as if the run at work, if any, were alone in it. */
  ghost predicate Solo(j: Joint, d: Dir) {
    && d.contents == j.contents
    && (forall r <- j.runs :: j.runs[r].Sending? ==> d.activity == j.runs[r].work)
    && (forall r <- j.runs :: j.runs[r] == Closing ==> d.activity == Committed)
    && ((forall r <- j.runs :: !AtWork(j.runs[r])) ==> d.activity == Idle)
  }

  lemma {:induction false} PurgePath(src: Source, c: Contents, p: Params)
    ensures Path(src, Dir(c, Starting(p, false)), Dir(c.(marker := Absent, chunks := map[]), Starting(p, false)))
    decreases c.chunks.Keys
  {
    var d := Dir(c, Starting(p, false));
    if c.chunks == map[] {
      var d' := Dir(c.(marker := Absent), Starting(p, false));
      assert Next(src, d, PurgeMarker, d');
      OneStep(src, d, PurgeMarker, d');
    } else {
      var i :| i in c.chunks;
      var c' := c.(chunks := c.chunks - {i});
      assert Next(src, d, PurgeChunk(i), Dir(c', Starting(p, false)));
      OneStep(src, d, PurgeChunk(i), Dir(c', Starting(p, false)));
      PurgePath(src, c', p);
      Joined(src, d, Dir(c', Starting(p, false)), Dir(c.(marker := Absent, chunks := map[]), Starting(p, false)));
    }
  }

  lemma ClaimPath(src: Source, c: Contents, now: Instant, p: Params, marker: Pending, feed: seq<Byte>, parallel: nat)
    requires c.manifest.None? && (c.marker.Readable? ==> !c.marker.value.LeaseLive(now))
    requires p.chunkSize > 0 && feed <= StreamOf(src, p) && marker.params == p
    ensures Path(src, Dir(c, Idle), Dir(Contents(None, Readable(marker), Left(c, p)),
                                        Uploading(p, feed, parallel, Sizes(Left(c, p)), 0, {}, {})))
  {
    var resume, chunks := c.Resumes(p), Left(c, p);
    var start, begun := Dir(c, Idle), Dir(c, Starting(p, resume));
    assert Next(src, start, BeginSend(p, now), begun);
    OneStep(src, start, BeginSend(p, now), begun);
    var clear := if resume then begun else Dir(c.(marker := Absent, chunks := map[]), Starting(p, false));
    if resume {
      NoStep(src, begun);
    } else {
      PurgePath(src, c, p);
    }
    var work := Uploading(p, feed, parallel, Sizes(chunks), 0, {}, {});
    var claimed := Dir(Contents(None, Readable(marker), chunks), work);
    assert Next(src, clear, Mark(marker, feed, parallel), claimed);
    OneStep(src, clear, Mark(marker, feed, parallel), claimed);
    hide Next, Path;
    Joined(src, start, begun, clear);
    Joined(src, start, clear, claimed);
  }

  function ActivityOf(run: Run): Activity {
    match run
    case Sending(work, _) => work
    case Closing => Committed
    case _ => Idle
  }

  predicate AtWork(run: Run) { run.Sending? || run == Closing }

  ghost predicate OnlyAtWork(j: Joint, r: L.RunId) {
    forall r' <- j.runs :: AtWork(j.runs[r']) ==> r' == r
  }

  lemma SoloAfter(j: Joint, r: L.RunId, now: Instant, c: Contents, run: Run)
    requires OnlyAtWork(j, r)
    ensures Solo(Joint(now, c, j.runs[r := run]), Dir(c, ActivityOf(run)))
  {
    assert r in j.runs[r := run];
  }

  /** Nothing that is at work starts, stops or changes. */
  lemma SoloStill(j: Joint, d: Dir, r: L.RunId, run: Run)
    requires Solo(j, d) && !AtWork(run) && (r in j.runs ==> !AtWork(j.runs[r]))
    ensures Solo(j.(runs := j.runs[r := run]), d)
  {
    var j' := j.(runs := j.runs[r := run]);
    if forall r' <- j'.runs :: !AtWork(j'.runs[r']) {
      forall r' <- j.runs
        ensures !AtWork(j.runs[r'])
      {
        assert r' in j'.runs;
      }
    }
  }

  lemma SoloIs(j: Joint, d: Dir, r: L.RunId)
    requires Solo(j, d)
    ensures r in j.runs && AtWork(j.runs[r]) ==> d == Dir(j.contents, ActivityOf(j.runs[r]))
    ensures (forall r' <- j.runs :: !AtWork(j.runs[r'])) ==> d == Dir(j.contents, Idle)
  {
  }

  lemma JointStepIsPath(src: Source, j: Joint, s: JointStep, j': Joint, d: Dir) returns (d': Dir)
    requires Disciplined(j) && JointNext(src, j, s, j') && Solo(j, d)
    ensures Path(src, d, d') && Solo(j', d')
  {
    if s.Look? {
      SoloStill(j, d, s.r, Looking);
      NoStep(src, d);
      d' := d;
    } else if s.Wait? {
      NoStep(src, d);
      d' := d;
    } else if s.Claim? {
      d' := ClaimIsPath(src, j, s.r, s.p, s.feed, s.parallel, j', d);
    } else {
      d' := ChangeIsPath(src, j, s, j', d);
    }
  }

  lemma ClaimIsPath(src: Source, j: Joint, r: L.RunId, p: Params, feed: seq<Byte>, parallel: nat, j': Joint, d: Dir)
    returns (d': Dir)
    requires Disciplined(j) && Claims(src, j, r, p, feed, parallel, j') && Solo(j, d)
    ensures Path(src, d, d') && Solo(j', d')
  {
    NobodyAtWork(src, j, r, p, feed, parallel, j');
    SoloIs(j, d, r);
    hide Disciplined, Solo, Path;
    SoloAfter(j, r, j.now, j'.contents, j'.runs[r]);
    ClaimPath(src, j.contents, j.now, p, Pending(p, r, j.now), feed, parallel);
    d' := Dir(j'.contents, j'.runs[r].work);
  }

  lemma ChangeIsPath(src: Source, j: Joint, s: JointStep, j': Joint, d: Dir) returns (d': Dir)
    requires Disciplined(j) && JointNext(src, j, s, j') && Solo(j, d)
    requires !s.Look? && !s.Wait? && !s.Claim?
    ensures Path(src, d, d') && Solo(j', d')
  {
    var r := s.r;
    hide Cut;
    if !AtWork(j.runs[r]) {
      SoloStill(j, d, r, Ended);
      NoStep(src, d);
      return d;
    }
    OnlyThisOne(j, r);
    SoloIs(j, d, r);
    hide Disciplined, Solo, Path;
    SoloAfter(j, r, j.now, j'.contents, j'.runs[r]);
    d' := Dir(j'.contents, ActivityOf(j'.runs[r]));
    var step := match s
      case Work(_, step) => step
      case Renew(_) => Refresh(Pending(j.runs[r].work.p, r, j.now))
      case Finish(_, m) => Commit(m)
      case Close(_) => Unmark
      case _ => Stop;
    OneStep(src, d, step, d');
  }

  lemma OnlyThisOne(j: Joint, r: L.RunId)
    requires Disciplined(j) && r in j.runs && AtWork(j.runs[r])
    ensures OnlyAtWork(j, r)
  {
    if IsSending(j, r) {
      OnlyOneActive(j, r);
    } else {
      NoneActive(j, r);
    }
  }

  lemma OnlyOneActive(j: Joint, r: L.RunId)
    requires Disciplined(j) && IsSending(j, r)
    ensures forall r' <- j.runs :: j.runs[r'].Sending? ==> r' == r
    ensures forall r' <- j.runs :: j.runs[r'] != Closing
  {
    assert L.Active(WorldOf(j), r);
    forall r' <- j.runs
      ensures j.runs[r'].Sending? ==> r' == r
      ensures j.runs[r'] != Closing
    {
      assert j.runs[r'].Sending? ==> L.Active(WorldOf(j), r');
      assert j.runs[r'] == Closing ==> L.InPhase(WorldOf(j), r', L.Committing);
    }
  }

  lemma NoneActive(j: Joint, r: L.RunId)
    requires Disciplined(j) && r in j.runs && j.runs[r] == Closing
    ensures forall r' <- j.runs :: !j.runs[r'].Sending? && (j.runs[r'] == Closing ==> r' == r)
  {
    assert L.InPhase(WorldOf(j), r, L.Committing);
    forall r' <- j.runs
      ensures !j.runs[r'].Sending?
    {
      assert j.runs[r'].Sending? ==> L.Active(WorldOf(j), r');
    }
  }

  lemma NobodyAtWork(src: Source, j: Joint, r: L.RunId, p: Params, feed: seq<Byte>, parallel: nat, j': Joint)
    requires Disciplined(j) && Claims(src, j, r, p, feed, parallel, j')
    ensures forall r' <- j.runs :: !AtWork(j.runs[r'])
  {
    forall r' <- j.runs
      ensures !AtWork(j.runs[r'])
    {
      assert j.runs[r'].Sending? ==> L.Active(WorldOf(j), r');
      assert j.runs[r'] == Closing ==> L.InPhase(WorldOf(j), r', L.Committing);
    }
  }

  // ---- Whole runs ----------------------------------------------------------------------------------------

  ghost predicate IsJointRun(src: Source, states: seq<Joint>, steps: seq<JointStep>) {
    && |states| == |steps| + 1
    && states[0] == START
    && forall k {:trigger steps[k]} :: 0 <= k < |steps| ==> JointNext(src, states[k], steps[k], states[k + 1])
  }

  /** Any number of sends, overlapping in any way the rules allow: what they did to the directory, one
      command after another could have done. */
  lemma {:induction false} OverlapIsSerial(src: Source, states: seq<Joint>, steps: seq<JointStep>, k: nat)
    returns (d: Dir)
    requires IsJointRun(src, states, steps) && k < |states|
    ensures Disciplined(states[k]) && Solo(states[k], d) && Path(src, Dir(NOTHING, Idle), d)
  {
    hide JointNext, Path;
    if k == 0 {
      d := Dir(NOTHING, Idle);
      NoStep(src, d);
    } else {
      var before := OverlapIsSerial(src, states, steps, k - 1);
      assert JointNext(src, states[k - 1], steps[k - 1], states[k]);
      hide *;
      StaysDisciplined(src, states[k - 1], steps[k - 1], states[k]);
      d := JointStepIsPath(src, states[k - 1], steps[k - 1], states[k], before);
      Joined(src, Dir(NOTHING, Idle), before, d);
    }
  }

  /** So a manifest means a whole backup for them as well. */
  lemma OverlapBacksUp(src: Source, states: seq<Joint>, steps: seq<JointStep>, k: nat)
    requires IsJointRun(src, states, steps) && k < |states|
    requires states[k].contents.manifest.Some?
    ensures var c := states[k].contents;
      && Intact(c.manifest.value, c.chunks, src.digest)
      && Gather(c.manifest.value.chunks, c.chunks) == (src.stream)(c.manifest.value.from, c.manifest.value.flags)
  {
    var d := OverlapIsSerial(src, states, steps, k);
    EmptyDirInv(src);
    var dirs, path :| IsPath(src, dirs, path) && dirs[0] == Dir(NOTHING, Idle) && dirs[|dirs| - 1] == d;
    PathKeepsInv(src, dirs, path, |dirs| - 1);
    hide Cut, Gather, Intact, IsPath;
    BackedIsIntact(src, d.contents);
  }
}
