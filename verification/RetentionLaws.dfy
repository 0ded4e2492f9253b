/** What a retention policy guarantees: about other policies, about running it again, and about
    the restore chains of what survives. */
module RetentionLaws {
  import opened Bytes
  import opened Manifests
  import opened Chains
  import opened Retention

  // ---- More generous policies keep more -------------------------------------------

  predicate AtLeastAsGenerous(q: Policy, p: Policy) {
    && p.keepLast <= q.keepLast
    && p.pinned <= q.pinned
    && (p.cutoff.Some? ==> q.cutoff.Some? && q.cutoff.value <= p.cutoff.value)
  }

  lemma KeepMonotone(all: seq<Manifest>, p: Policy, q: Policy, keep: set<Guid>, keep': set<Guid>)
    requires AtLeastAsGenerous(q, p)
    requires IsKeepSet(all, p, keep) && IsKeepSet(all, q, keep')
    ensures keep <= keep'
  {
    hide Rank, LastByGuid;
    forall g <- Seeds(all, p)
      ensures g in Seeds(all, q)
    {
      var i: nat :| i < |all| && IsSeed(all, p, i) && all[i].snapshotGuid == g;
      assert IsSeed(all, q, i);
    }
    assert Seeds(all, p) <= keep' && LinkClosed(LastByGuid(all), keep');
  }

  // ---- Running the same policy again ------------------------------------------------

  /** The list with everything outside `keep` deleted. */
  function Survivors(all: seq<Manifest>, keep: set<Guid>): (r: seq<Manifest>)
    ensures forall m <- r :: m.snapshotGuid in keep
  {
    if all == [] then [] else
    var r := Survivors(all[..|all| - 1], keep);
    if all[|all| - 1].snapshotGuid in keep then r + [all[|all| - 1]] else r
  }

  /** Where each survivor stood. */
  function Stood(all: seq<Manifest>, keep: set<Guid>): (r: seq<nat>)
    ensures |r| == |Survivors(all, keep)|
    ensures forall k :: 0 <= k < |r| ==> r[k] < |all| && all[r[k]] == Survivors(all, keep)[k]
    ensures forall k, l :: 0 <= k < l < |r| ==> r[k] < r[l]
    ensures forall i :: 0 <= i < |all| && all[i].snapshotGuid in keep ==> i in r
  {
    if all == [] then [] else
    var r := Stood(all[..|all| - 1], keep);
    if all[|all| - 1].snapshotGuid in keep then r + [|all| - 1] else r
  }

  /** Deleting others moves nobody down. */
  lemma RankDropsOnly(all: seq<Manifest>, keep: set<Guid>, k: nat)
    requires k < |Survivors(all, keep)|
    ensures Rank(Survivors(all, keep), k) <= Rank(all, Stood(all, keep)[k])
  {
    var r, s := Survivors(all, keep), Stood(all, keep);
    var ahead := AheadOf(r, k);
    var image := set j | j in ahead :: s[j];
    forall j | j in ahead
      ensures s[j] in AheadOf(all, s[k])
    {
      assert r[j] == all[s[j]] && r[k] == all[s[k]];
    }
    assert image <= AheadOf(all, s[k]);
    InjectionSize(s, ahead, image);
    SubsetSize(image, AheadOf(all, s[k]));
  }

  lemma {:induction false} InjectionSize(s: seq<nat>, from: set<nat>, image: set<nat>)
    requires forall j <- from :: j < |s|
    requires forall k, l :: 0 <= k < l < |s| ==> s[k] < s[l]
    requires image == set j | j in from :: s[j]
    ensures |image| == |from|
    decreases from
  {
    if from != {} {
      var j :| j in from;
      var from', image' := from - {j}, image - {s[j]};
      assert image' == set k | k in from' :: s[k];
      InjectionSize(s, from', image');
    }
  }

  lemma {:induction false} SubsetSize(a: set<nat>, b: set<nat>)
    requires a <= b
    ensures |a| <= |b|
    decreases a
  {
    if a != {} {
      var x :| x in a;
      SubsetSize(a - {x}, b - {x});
    }
  }

  lemma {:induction false} SurvivorsIndex(all: seq<Manifest>, keep: set<Guid>)
    ensures forall g :: g in LastByGuid(Survivors(all, keep)) <==> g in LastByGuid(all) && g in keep
    ensures forall g <- LastByGuid(Survivors(all, keep)) :: LastByGuid(Survivors(all, keep))[g] == LastByGuid(all)[g]
  {
    if all != [] {
      var front, last := all[..|all| - 1], all[|all| - 1];
      SurvivorsIndex(front, keep);
      if last.snapshotGuid in keep {
        var r := Survivors(front, keep);
        assert (r + [last])[..|r|] == r;
      }
    }
  }

  /** Running the same policy on what it left deletes nothing more. */
  lemma RetentionIdempotent(all: seq<Manifest>, p: Policy, keep: set<Guid>, again: set<Guid>)
    requires IsKeepSet(all, p, keep)
    requires IsKeepSet(Survivors(all, keep), p, again)
    ensures forall m <- Survivors(all, keep) :: m.snapshotGuid in again
    ensures Survivors(Survivors(all, keep), again) == Survivors(all, keep)
  {
    var left, s := Survivors(all, keep), Stood(all, keep);
    hide Rank, LastByGuid;
    forall g <- Seeds(all, p)
      ensures g in again
    {
      var i: nat :| i < |all| && IsSeed(all, p, i) && all[i].snapshotGuid == g;
      var k: nat :| k < |s| && s[k] == i;
      RankDropsOnly(all, keep, k);
      assert IsSeed(left, p, k);
    }
    SurvivorsIndex(all, keep);
    var a := LastByGuid(all);
    var both := keep * again;
    forall g <- both
      ensures Followed(a, both, g)
    {
      assert Followed(a, keep, g);
      assert Followed(LastByGuid(left), again, g);
    }
    assert Seeds(all, p) <= both && LinkClosed(a, both);
    KeepEverything(left, again);
  }

  lemma {:induction false} KeepEverything(all: seq<Manifest>, keep: set<Guid>)
    requires forall m <- all :: m.snapshotGuid in keep
    ensures Survivors(all, keep) == all
  {
    if all != [] {
      KeepEverything(all[..|all| - 1], keep);
      assert all == all[..|all| - 1] + [all[|all| - 1]];
    }
  }

  // ---- Restore chains -------------------------------------------------------------------

  /** A run sees the manifests its `--dataset` pattern selects, one per GUID. */
  ghost predicate Selected(all: seq<Manifest>, a: Index, scope: set<Guid>) {
    && Keyed(a) && scope <= a.Keys
    && LastByGuid(all) == map g | g in a && g in scope :: a[g]
  }

  /** The archive without the snapshots a run has deleted. */
  ghost function Without(a: Index, gone: set<Guid>): Index {
    map g | g in a && g !in gone :: a[g]
  }

  /** Whatever is left walks as it did. */
  ghost predicate WalksKept(left: Index, a: Index) {
    forall g <- left :: WalkFrom(left, left[g]) == WalkFrom(a, left[g])
  }

  /** No manifest outside the scope is based on a doomed one. */
  ghost predicate OutsideSpared(a: Index, scope: set<Guid>, keep: set<Guid>) {
    forall g <- a :: g !in scope && a[g].from.Some? ==> a[g].from.value !in scope - keep
  }

  /** At every point of the deletion loop, whatever has been deleted so far, and wherever it may be
      interrupted: the walk from a kept snapshot is the one before the run, link for link. For runs
      over the whole archive, and for scopes with nothing doomed that a manifest outside is based on. */
  lemma KeptChainsNeverBreak(all: seq<Manifest>, p: Policy, a: Index, scope: set<Guid>, keep: set<Guid>,
                             gone: set<Guid>, tip: Guid)
    requires Selected(all, a, scope) && IsKeepSet(all, p, keep)
    requires gone <= scope - keep
    requires OutsideSpared(a, scope, keep)
    requires tip in a && (tip !in scope || tip in keep)
    ensures WalkFrom(Without(a, gone), a[tip]) == WalkFrom(a, a[tip])
  {
    hide Seeds, LastByGuid;
    var safe := Without(a, scope - keep);
    var b := Without(a, gone);
    forall g <- safe | safe[g].from.Some? && safe[g].from.value in a
      ensures safe[g].from.value in safe
    {
      if g in scope {
        assert Followed(LastByGuid(all), keep, g);
      }
    }
    SameWalkOn(safe, a, a[tip], {a[tip].snapshotGuid}, [a[tip]]);
    SameWalkOn(safe, b, a[tip], {a[tip].snapshotGuid}, [a[tip]]);
  }

  /** Every base in the scope of a manifest outside it is needed within the scope. */
  ghost predicate OutsideNeeds(a: Index, scope: set<Guid>, all: seq<Manifest>, p: Policy) {
    forall g <- a :: g !in scope && a[g].from.Some? && a[g].from.value in scope ==> Needed(all, p, a[g].from.value)
  }

  /** Both say the same of the outside: nothing it depends on is deleted. */
  lemma OutsideCondition(all: seq<Manifest>, p: Policy, a: Index, scope: set<Guid>, keep: set<Guid>)
    requires IsKeepSet(all, p, keep)
    ensures OutsideSpared(a, scope, keep) <==> OutsideNeeds(a, scope, all, p)
  {
    KeptExactly(all, p, keep);
    hide IsKeepSet, Needed;
  }

  /** For any scope, after the whole run: what survives walks as it did, exactly when every base in
      the scope of a manifest outside it is a seed, or lies behind one, within the scope. */
  lemma ScopedRunExactly(all: seq<Manifest>, p: Policy, a: Index, scope: set<Guid>, keep: set<Guid>)
    requires Selected(all, a, scope) && IsKeepSet(all, p, keep)
    ensures WalksKept(Without(a, scope - keep), a)
      <==> OutsideNeeds(a, scope, all, p)
  {
    var left := Without(a, scope - keep);
    OutsideCondition(all, p, a, scope, keep);
    WalksUnchanged(left, a);
    hide Seeds, LastByGuid, OutsideNeeds, Least, WalkFrom;
    if OutsideSpared(a, scope, keep) {
      forall g <- left | left[g].from.Some? && left[g].from.value in a
        ensures left[g].from.value in left
      {
        if g in scope {
          assert Followed(LastByGuid(all), keep, g);
        }
      }
    } else {
      var g :| g in a && g !in scope && a[g].from.Some? && a[g].from.value in scope - keep;
      assert g in left && left[g].from.value in a && left[g].from.value !in left;
    }
  }

  // ---- The order of deletion ------------------------------------------------------------

  /** What is gone when the deletion, in listing order, has reached position `i`. */
  ghost function GoneBefore(all: seq<Manifest>, keep: set<Guid>, i: nat): set<Guid>
    requires i <= |all|
  {
    set j | 0 <= j < i && all[j].snapshotGuid !in keep :: all[j].snapshotGuid
  }

  /** No doomed backup is listed after a doomed one that it is based on. */
  ghost predicate DependentsFirst(all: seq<Manifest>, keep: set<Guid>) {
    forall j, k :: 0 <= j < k < |all| && all[j].snapshotGuid !in keep && all[k].snapshotGuid !in keep ==>
      all[k].from != Some(all[j].snapshotGuid)
  }

  /** `all[k]` is based on `all[j]`, and neither is needed. */
  ghost predicate DoomedPair(all: seq<Manifest>, p: Policy, j: nat, k: nat) {
    && j < |all| && k < |all| && all[k].from == Some(all[j].snapshotGuid)
    && !Needed(all, p, all[j].snapshotGuid) && !Needed(all, p, all[k].snapshotGuid)
  }

  /** No unneeded backup is listed after an unneeded one that it is based on: known before the run. */
  ghost predicate ListedDependentsFirst(all: seq<Manifest>, p: Policy) {
    forall j: nat, k: nat :: DoomedPair(all, p, j, k) ==> k <= j
  }

  lemma PairIsDoomed(all: seq<Manifest>, p: Policy, keep: set<Guid>, j: nat, k: nat)
    requires IsKeepSet(all, p, keep)
    ensures DoomedPair(all, p, j, k) <==>
      && j < |all| && k < |all| && all[k].from == Some(all[j].snapshotGuid)
      && all[j].snapshotGuid !in keep && all[k].snapshotGuid !in keep
  {
    KeptExactly(all, p, keep);
    hide IsKeepSet, Needed;
  }

  lemma OrderCondition(all: seq<Manifest>, p: Policy, keep: set<Guid>)
    requires IsKeepSet(all, p, keep)
    ensures DependentsFirst(all, keep) <==> ListedDependentsFirst(all, p)
  {
    hide IsKeepSet, Needed, DoomedPair;
    if DependentsFirst(all, keep) {
      forall j: nat, k: nat | DoomedPair(all, p, j, k)
        ensures k <= j
      {
        PairIsDoomed(all, p, keep, j, k);
      }
    } else {
      var j, k :| 0 <= j < k < |all| && all[j].snapshotGuid !in keep && all[k].snapshotGuid !in keep
        && all[k].from == Some(all[j].snapshotGuid);
      PairIsDoomed(all, p, keep, j, k);
    }
  }

  /** At every point of the deletion, whatever is still listed walks as it did before the run,
      exactly when no doomed backup comes before one based on it, and none outside depends on any. */
  lemma ListingOrderExactly(all: seq<Manifest>, p: Policy, a: Index, scope: set<Guid>, keep: set<Guid>)
    requires Selected(all, a, scope) && IsKeepSet(all, p, keep) && Unique(all)
    ensures (forall i: nat :: i <= |all| ==> WalksKept(Without(a, GoneBefore(all, keep, i)), a))
      <==> ListedDependentsFirst(all, p) && OutsideNeeds(a, scope, all, p)
  {
    OrderCondition(all, p, keep);
    OutsideCondition(all, p, a, scope, keep);
    hide IsKeepSet, WalkFrom, Needed, ListedDependentsFirst, OutsideNeeds;
    if DependentsFirst(all, keep) && OutsideSpared(a, scope, keep) {
      forall i: nat | i <= |all|
        ensures WalksKept(Without(a, GoneBefore(all, keep, i)), a)
      {
        LinksKeptAt(all, p, a, scope, keep, i);
        WalksUnchanged(Without(a, GoneBefore(all, keep, i)), a);
      }
    } else if !DependentsFirst(all, keep) {
      var i := BrokenAtPair(all, a, scope, keep);
      WalksUnchanged(Without(a, GoneBefore(all, keep, i)), a);
    } else {
      BrokenOutside(all, a, scope, keep);
      WalksUnchanged(Without(a, GoneBefore(all, keep, |all|)), a);
    }
  }

  lemma ListedAt(all: seq<Manifest>, a: Index, scope: set<Guid>, g: Guid) returns (k: nat)
    requires Selected(all, a, scope) && g in scope
    ensures k < |all| && all[k] == a[g] && all[k].snapshotGuid == g
  {
    assert LastByGuid(all)[g] in all;
    k :| k < |all| && all[k] == LastByGuid(all)[g];
  }

  lemma ListedIsArchived(all: seq<Manifest>, a: Index, scope: set<Guid>, k: nat)
    requires Selected(all, a, scope) && Unique(all) && k < |all|
    ensures all[k].snapshotGuid in scope && a[all[k].snapshotGuid] == all[k]
  {
    UniqueIndex(all, k);
    assert all[k].snapshotGuid in LastByGuid(all);
  }

  lemma LinksKeptAt(all: seq<Manifest>, p: Policy, a: Index, scope: set<Guid>, keep: set<Guid>, i: nat)
    requires Selected(all, a, scope) && IsKeepSet(all, p, keep) && Unique(all) && i <= |all|
    requires DependentsFirst(all, keep) && OutsideSpared(a, scope, keep)
    ensures LinksKept(Without(a, GoneBefore(all, keep, i)), a)
  {
    hide Seeds, Least, LastByGuid;
    var left := Without(a, GoneBefore(all, keep, i));
    forall g <- left | left[g].from.Some? && left[g].from.value in a
      ensures left[g].from.value in left
    {
      var f := left[g].from.value;
      forall j | 0 <= j < i && all[j].snapshotGuid !in keep
        ensures all[j].snapshotGuid != f
      {
        ListedIsArchived(all, a, scope, j);
        if g in keep {
          assert Followed(LastByGuid(all), keep, g);
        } else if g in scope {
          var k := ListedAt(all, a, scope, g);
        }
      }
    }
  }

  lemma BrokenAtPair(all: seq<Manifest>, a: Index, scope: set<Guid>, keep: set<Guid>) returns (i: nat)
    requires Selected(all, a, scope) && Unique(all) && !DependentsFirst(all, keep)
    ensures i <= |all| && !LinksKept(Without(a, GoneBefore(all, keep, i)), a)
  {
    hide LastByGuid;
    var j, k :| 0 <= j < k < |all| && all[j].snapshotGuid !in keep && all[k].snapshotGuid !in keep
      && all[k].from == Some(all[j].snapshotGuid);
    i := j + 1;
    ListedIsArchived(all, a, scope, j);
    ListedIsArchived(all, a, scope, k);
    var g, f, gone := all[k].snapshotGuid, all[j].snapshotGuid, GoneBefore(all, keep, i);
    assert f in gone;
    forall x | 0 <= x < i
      ensures all[x].snapshotGuid != g
    {
    }
    hide GoneBefore, Unique, DependentsFirst, Selected;
    assert g in Without(a, gone) && f in a && f !in Without(a, gone);
  }

  lemma BrokenOutside(all: seq<Manifest>, a: Index, scope: set<Guid>, keep: set<Guid>)
    requires Selected(all, a, scope) && Unique(all) && !OutsideSpared(a, scope, keep)
    ensures !LinksKept(Without(a, GoneBefore(all, keep, |all|)), a)
  {
    hide LastByGuid;
    var g :| g in a && g !in scope && a[g].from.Some? && a[g].from.value in scope - keep;
    var j := ListedAt(all, a, scope, a[g].from.value);
    assert a[g].from.value in GoneBefore(all, keep, |all|);
    forall k: nat | k < |all|
      ensures all[k].snapshotGuid != g
    {
      ListedIsArchived(all, a, scope, k);
    }
    assert g in Without(a, GoneBefore(all, keep, |all|));
  }

  // ---- A small run ------------------------------------------------------------------

  lemma NothingKept(all: seq<Manifest>, p: Policy)
    requires p.keepLast == 0 && p.pinned == {} && forall m <- all :: !WithinAge(m, p.cutoff)
    ensures IsKeepSet(all, p, {})
  {
    forall i: nat | i < |all|
      ensures !IsSeed(all, p, i)
    {
      assert all[i] in all;
    }
  }

  lemma TwoIndexed(m: Manifest, n: Manifest)
    requires m.snapshotGuid != n.snapshotGuid
    ensures LastByGuid([m, n]) == map[m.snapshotGuid := m, n.snapshotGuid := n]
  {
    assert [m, n][..1] == [m] && [m][..0] == [];
    assert LastByGuid([m]) == map[m.snapshotGuid := m];
  }

  /** Of two backups of one dataset, keeping one keeps the newer. */
  lemma NewestKept(older: Manifest, newer: Manifest, p: Policy)
    requires older.datasetGuid == newer.datasetGuid && older.createdAt < newer.createdAt
    requires older.snapshotGuid != newer.snapshotGuid && newer.from.None?
    requires p == Policy({}, None, 1)
    ensures IsKeepSet([older, newer], p, {newer.snapshotGuid})
  {
    var all := [older, newer];
    assert AheadOf(all, 0) == {1};
    assert AheadOf(all, 1) == {};
    assert IsSeed(all, p, 1) && !IsSeed(all, p, 0);
    assert Seeds(all, p) == {newer.snapshotGuid} by {
      hide Rank;
      forall g <- Seeds(all, p)
        ensures g == newer.snapshotGuid
      {
        var i: nat :| i < |all| && IsSeed(all, p, i) && all[i].snapshotGuid == g;
      }
    }
    TwoIndexed(older, newer);
  }
}
