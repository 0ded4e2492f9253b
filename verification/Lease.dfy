/** Several sends of one snapshot at once: what keeps them apart, and what it takes. */
module Lease {
  import opened Bytes
  import opened Manifests

  type RunId = nat

  datatype Phase =
    | Checked                     // found no manifest
    | Reading(stamp: Instant)     // found no live marker; `stamp` is the time its own will carry
    | Uploading(refreshed: Instant)
    | Committing                  // manifest written, marker not yet removed
    | Over

  datatype Marker = Marker(run: RunId, refreshedAt: Instant) {
    predicate Live(now: Instant) { now - refreshedAt < LEASE }
  }

  datatype World = World(now: Instant, committed: bool, marker: Option<Marker>, runs: map<RunId, Phase>)

  const START := World(0, false, None, map[])

  /** How much of the claim happens in one indivisible step. */
  datatype Claiming =
    | Piecemeal   // check for a manifest, read the marker, write the marker: three steps
    | MarkerOnly  // reading and writing the marker is one step, the check another
    | Whole       // all three at once

  /** `timely`: no uploading run lets its lease run out. */
  datatype Rules = Rules(claiming: Claiming, timely: bool)

  datatype Move =
    | Check(r: RunId) | Read(r: RunId) | Write(r: RunId)
    | Refresh(r: RunId) | Commit(r: RunId) | Unmark(r: RunId) | Die(r: RunId)
    | Pass(time: nat)

  ghost predicate Acquirable(w: World) {
    w.marker.Some? ==> !w.marker.value.Live(w.now)
  }

  function Taken(w: World, r: RunId, stamp: Instant): World {
    w.(marker := Some(Marker(r, stamp)), runs := w.runs[r := Uploading(stamp)])
  }

  function Advance(w: World, r: RunId, phase: Phase): World {
    w.(runs := w.runs[r := phase])
  }

  ghost predicate InPhase(w: World, r: RunId, phase: Phase) {
    r in w.runs && w.runs[r] == phase
  }

  ghost predicate Active(w: World, r: RunId) {
    r in w.runs && w.runs[r].Uploading?
  }

  /** One atomic step. A run that finds a manifest or a live marker takes no step: it gives up. */
  ghost predicate Moves(rules: Rules, w: World, move: Move, w': World) {
    match move
    case Check(r) =>
      && r !in w.runs && !w.committed
      && w' == Advance(w, r, Checked)
    case Read(r) =>
      && rules.claiming == Piecemeal && InPhase(w, r, Checked) && Acquirable(w)
      && w' == Advance(w, r, Reading(w.now))
    case Write(r) =>
      (match rules.claiming
       case Piecemeal => r in w.runs && w.runs[r].Reading? && w' == Taken(w, r, w.runs[r].stamp)
       case MarkerOnly => InPhase(w, r, Checked) && Acquirable(w) && w' == Taken(w, r, w.now)
       case Whole => InPhase(w, r, Checked) && !w.committed && Acquirable(w) && w' == Taken(w, r, w.now))
    case Refresh(r) =>
      Active(w, r) && w' == Taken(w, r, w.now)
    case Commit(r) =>
      Active(w, r) && w' == Advance(w, r, Committing).(committed := true)
    case Unmark(r) =>
      InPhase(w, r, Committing) && w' == Advance(w, r, Over).(marker := None)
    case Die(r) =>
      r in w.runs && w' == Advance(w, r, Over)
    case Pass(time) =>
      && (rules.timely ==> forall r <- w.runs :: w.runs[r].Uploading? ==> w.now + time - w.runs[r].refreshed < LEASE)
      && w' == w.(now := w.now + time)
  }

  ghost predicate IsHistory(rules: Rules, worlds: seq<World>, moves: seq<Move>) {
    && |worlds| == |moves| + 1
    && worlds[0] == START
    && forall k {:trigger moves[k]} :: 0 <= k < |moves| ==> Moves(rules, worlds[k], moves[k], worlds[k + 1])
  }

  /** At most one run uploads, and none into a directory that holds a finished backup. */
  ghost predicate Exclusive(w: World) {
    && (forall r, r' :: Active(w, r) && Active(w, r') ==> r == r')
    && (forall r :: Active(w, r) ==> !w.committed)
  }

  /** Whoever uploads owns the marker, and its lease is live. */
  ghost predicate Owned(w: World) {
    && (forall r :: Active(w, r) ==>
          !w.committed && w.marker == Some(Marker(r, w.runs[r].refreshed)) && w.marker.value.Live(w.now))
    && (forall r :: InPhase(w, r, Committing) ==> w.committed)
  }

  lemma MoveKeepsOwned(rules: Rules, w: World, move: Move, w': World)
    requires rules == Rules(Whole, true) && Owned(w) && Moves(rules, w, move, w')
    ensures Owned(w')
  {
    forall r | InPhase(w', r, Committing)
      ensures w'.committed
    {
      assert InPhase(w, r, Committing) || move == Commit(r);
    }
  }

  lemma {:induction false} HistoryOwned(rules: Rules, worlds: seq<World>, moves: seq<Move>, k: nat)
    requires rules == Rules(Whole, true) && IsHistory(rules, worlds, moves) && k < |worlds|
    ensures Owned(worlds[k])
  {
    if k > 0 {
      HistoryOwned(rules, worlds, moves, k - 1);
      MoveKeepsOwned(rules, worlds[k - 1], moves[k - 1], worlds[k]);
    }
  }

  ghost predicate AlwaysExclusive(rules: Rules) {
    forall worlds, moves, k: nat {:trigger IsHistory(rules, worlds, moves), worlds[k]} ::
      IsHistory(rules, worlds, moves) && k < |worlds| ==> Exclusive(worlds[k])
  }

  /** Run 1 stalls for the length of its lease; run 2 takes over; run 1 goes on. */
  lemma Overdue(rules: Rules) returns (worlds: seq<World>, moves: seq<Move>)
    requires !rules.timely && rules.claiming != Piecemeal
    ensures IsHistory(rules, worlds, moves) && |worlds| == 6 && !Exclusive(worlds[5])
  {
    var w1 := Advance(START, 1, Checked);
    var w2 := Advance(w1, 2, Checked);
    var w3 := Taken(w2, 1, 0);
    var w4 := w3.(now := LEASE);
    var w5 := Taken(w4, 2, LEASE);
    worlds, moves := [START, w1, w2, w3, w4, w5], [Check(1), Check(2), Write(1), Pass(LEASE), Write(2)];
    assert Active(w5, 1) && Active(w5, 2);
  }

  /** Both runs read the marker before either writes it. */
  lemma ReadTogether(rules: Rules) returns (worlds: seq<World>, moves: seq<Move>)
    requires rules.claiming == Piecemeal
    ensures IsHistory(rules, worlds, moves) && |worlds| == 7 && !Exclusive(worlds[6])
  {
    var w1 := Advance(START, 1, Checked);
    var w2 := Advance(w1, 2, Checked);
    var w3 := Advance(w2, 1, Reading(0));
    var w4 := Advance(w3, 2, Reading(0));
    var w5 := Taken(w4, 1, 0);
    var w6 := Taken(w5, 2, 0);
    worlds, moves := [START, w1, w2, w3, w4, w5, w6], [Check(1), Check(2), Read(1), Read(2), Write(1), Write(2)];
    assert Active(w6, 1) && Active(w6, 2);
  }

  /** Run 2 looks for a manifest before run 1 commits, and claims after run 1 removed its marker. */
  lemma LateClaim(rules: Rules) returns (worlds: seq<World>, moves: seq<Move>)
    requires rules.claiming == MarkerOnly
    ensures IsHistory(rules, worlds, moves) && |worlds| == 7 && !Exclusive(worlds[6])
  {
    var w1 := Advance(START, 1, Checked);
    var w2 := Advance(w1, 2, Checked);
    var w3 := Taken(w2, 1, 0);
    var w4 := Advance(w3, 1, Committing).(committed := true);
    var w5 := Advance(w4, 1, Over).(marker := None);
    var w6 := Taken(w5, 2, 0);
    worlds, moves := [START, w1, w2, w3, w4, w5, w6], [Check(1), Check(2), Write(1), Commit(1), Unmark(1), Write(2)];
    assert Active(w6, 2);
  }

  /** Exclusion needs both, and both are enough: a claim that is indivisible from the look for a
      manifest to the writing of the marker, and no run outliving its lease. */
  lemma ExclusionExactly(rules: Rules)
    ensures AlwaysExclusive(rules) <==> rules.claiming == Whole && rules.timely
  {
    if rules.claiming == Whole && rules.timely {
      forall worlds, moves, k: nat | IsHistory(rules, worlds, moves) && k < |worlds|
        ensures Exclusive(worlds[k])
      {
        HistoryOwned(rules, worlds, moves, k);
      }
    } else if rules.claiming == Piecemeal {
      var worlds, moves := ReadTogether(rules);
    } else if rules.claiming == MarkerOnly {
      var worlds, moves := LateClaim(rules);
    } else {
      var worlds, moves := Overdue(rules);
    }
  }
}
