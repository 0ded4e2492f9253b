/** Which snapshots a retention policy keeps, and what that keeps restorable. */
module Retention {
  import opened Bytes
  import opened Manifests
  import opened Chains

  datatype Policy = Policy(pinned: set<Guid>, cutoff: Option<Instant>, keepLast: nat)

  // ---- What has to be kept -----------------------------------------------------

  /** The manifest a hash map built from the list holds for each GUID: the last in the list. */
  ghost function LastByGuid(all: seq<Manifest>): (a: Index)
    ensures Keyed(a)
    ensures forall m <- all :: m.snapshotGuid in a
    ensures forall g <- a :: a[g] in all
  {
    if all == [] then map[] else
    LastByGuid(all[..|all| - 1])[all[|all| - 1].snapshotGuid := all[|all| - 1]]
  }

  /** No GUID is listed twice. */
  ghost predicate Unique(all: seq<Manifest>) {
    forall i, j :: 0 <= i < j < |all| ==> all[i].snapshotGuid != all[j].snapshotGuid
  }

  lemma {:induction false} UniqueIndex(all: seq<Manifest>, i: nat)
    requires Unique(all) && i < |all|
    ensures LastByGuid(all)[all[i].snapshotGuid] == all[i]
  {
    var n := |all| - 1;
    if i < n {
      UniqueIndex(all[..n], i);
    }
  }

  /** `all[j]` ranks ahead of `all[i]`: archived later, or at the same instant and listed earlier. */
  predicate Ahead(all: seq<Manifest>, j: nat, i: nat)
    requires i < |all| && j < |all|
  {
    all[j].createdAt > all[i].createdAt || (all[j].createdAt == all[i].createdAt && j < i)
  }

  ghost function AheadOf(all: seq<Manifest>, i: nat): set<nat>
    requires i < |all|
  {
    set j: nat | j < |all| && all[j].datasetGuid == all[i].datasetGuid && Ahead(all, j, i)
  }

  /** How many backups of the same dataset rank ahead of `all[i]`. */
  ghost function Rank(all: seq<Manifest>, i: nat): nat
    requires i < |all|
  {
    |AheadOf(all, i)|
  }

  predicate WithinAge(m: Manifest, cutoff: Option<Instant>) {
    cutoff.Some? && m.createdAt > cutoff.value
  }

  /** Kept for its age, or by a pin. */
  predicate Picked(m: Manifest, p: Policy) {
    WithinAge(m, p.cutoff) || m.snapshotGuid in p.pinned
  }

  ghost predicate IsSeed(all: seq<Manifest>, p: Policy, i: nat)
    requires i < |all|
  {
    Rank(all, i) < p.keepLast || Picked(all[i], p)
  }

  /** What the policy names directly: the newest of each dataset, the recent, the pinned. */
  ghost function Seeds(all: seq<Manifest>, p: Policy): set<Guid> {
    set i: nat | i < |all| && IsSeed(all, p, i) :: all[i].snapshotGuid
  }

  ghost predicate Followed(a: Index, keep: set<Guid>, g: Guid) {
    g in a && a[g].from.Some? && a[g].from.value in a ==> a[g].from.value in keep
  }

  ghost predicate LinkClosed(a: Index, keep: set<Guid>) {
    forall g <- keep :: Followed(a, keep, g)
  }

  /** The least set with every seed in it that is closed under archived links. */
  ghost predicate IsKeepSet(all: seq<Manifest>, p: Policy, keep: set<Guid>) {
    && Seeds(all, p) <= keep
    && LinkClosed(LastByGuid(all), keep)
    && Least(all, p, keep)
  }

  ghost predicate Least(all: seq<Manifest>, p: Policy, keep: set<Guid>) {
    forall k: set<Guid> :: Seeds(all, p) <= k && LinkClosed(LastByGuid(all), k) ==> keep <= k
  }

  // ---- Newest first --------------------------------------------------------------

  predicate InRange(all: seq<Manifest>, s: seq<nat>) {
    forall k :: 0 <= k < |s| ==> s[k] < |all|
  }

  /** The stable sort by descending archive time, on positions in the list. */
  function SortNewest(all: seq<Manifest>, s: seq<nat>): (r: seq<nat>)
    requires InRange(all, s)
    ensures InRange(all, r)
    ensures forall i :: i in r <==> i in s
    ensures |r| == |s|
  {
    if s == [] then [] else Insert(all, s[0], SortNewest(all, s[1..]))
  }

  function Insert(all: seq<Manifest>, x: nat, s: seq<nat>): (r: seq<nat>)
    requires x < |all| && InRange(all, s)
    ensures InRange(all, r)
    ensures forall i :: i in r <==> i == x || i in s
    ensures |r| == |s| + 1
  {
    if s == [] then [x]
    else if Ahead(all, x, s[0]) then [x] + s
    else [s[0]] + Insert(all, x, s[1..])
  }

  ghost predicate Ordered(all: seq<Manifest>, s: seq<nat>)
    requires InRange(all, s)
  {
    forall p, q :: 0 <= p < q < |s| ==> Ahead(all, s[p], s[q])
  }

  lemma {:induction false} InsertOrdered(all: seq<Manifest>, x: nat, s: seq<nat>)
    requires x < |all| && InRange(all, s) && Ordered(all, s) && x !in s
    ensures Ordered(all, Insert(all, x, s))
  {
    if s != [] {
      if Ahead(all, x, s[0]) {
      } else {
        var r := Insert(all, x, s[1..]);
        InsertOrdered(all, x, s[1..]);
        forall q | 0 <= q < |r|
          ensures Ahead(all, s[0], r[q])
        {
          assert r[q] in r;
          if r[q] != x {
            var k :| 0 <= k < |s[1..]| && s[1..][k] == r[q];
            assert s[k + 1] == r[q];
          } else {
            assert s[0] in s;
          }
        }
      }
    }
  }

  lemma {:induction false} SortOrdered(all: seq<Manifest>, s: seq<nat>)
    requires InRange(all, s)
    requires forall p, q :: 0 <= p < q < |s| ==> s[p] != s[q]
    ensures Ordered(all, SortNewest(all, s))
  {
    if s != [] {
      SortOrdered(all, s[1..]);
      assert s[0] !in s[1..];
      InsertOrdered(all, s[0], SortNewest(all, s[1..]));
    }
  }

  ghost function Elements(s: seq<nat>): set<nat> {
    set i | i in s
  }

  lemma {:induction false} DistinctSize(s: seq<nat>)
    requires forall p, q :: 0 <= p < q < |s| ==> s[p] != s[q]
    ensures |Elements(s)| == |s|
  {
    if s == [] {
    } else {
      var front, x := s[..|s| - 1], s[|s| - 1];
      DistinctSize(front);
      assert s == front + [x] && x !in front;
      assert Elements(s) == Elements(front) + {x};
    }
  }

  /** In a sorted list of a whole dataset, position is rank. */
  lemma PositionIsRank(all: seq<Manifest>, s: seq<nat>, ds: Guid, p: nat)
    requires InRange(all, s) && Ordered(all, s) && p < |s|
    requires forall i: nat :: i in s <==> i < |all| && all[i].datasetGuid == ds
    ensures Rank(all, s[p]) == p
  {
    forall j | j in AheadOf(all, s[p])
      ensures j in s[..p]
    {
      var q :| 0 <= q < |s| && s[q] == j;
      assert q < p;
      assert s[..p][q] == j;
    }
    assert AheadOf(all, s[p]) == Elements(s[..p]);
    DistinctSize(s[..p]);
  }

  // ---- The worklist ----------------------------------------------------------------

  /** Positions of one dataset, in list order. */
  function Positions(all: seq<Manifest>, ds: Guid): (r: seq<nat>)
    ensures forall i: nat :: i in r <==> i < |all| && all[i].datasetGuid == ds
    ensures InRange(all, r)
    ensures forall p, q :: 0 <= p < q < |r| ==> r[p] < r[q]
  {
    if all == [] then [] else
    var n := |all| - 1;
    var r := Positions(all[..n], ds);
    if all[n].datasetGuid == ds then r + [n] else r
  }

  /** The GUIDs of the newest `k` of each of the datasets `done`. */
  ghost function NewestOf(all: seq<Manifest>, k: nat, done: set<Guid>): set<Guid> {
    set i: nat | i < |all| && all[i].datasetGuid in done && Rank(all, i) < k :: all[i].snapshotGuid
  }

  lemma NewestByPosition(all: seq<Manifest>, k: nat, ds: Guid, s: seq<nat>, newest: set<Guid>)
    requires InRange(all, s) && Ordered(all, s)
    requires forall i: nat :: i in s <==> i < |all| && all[i].datasetGuid == ds
    requires newest == set p: nat | p < |s| && p < k :: all[s[p]].snapshotGuid
    ensures NewestOf(all, k, {ds}) == newest
  {
    forall p: nat | p < |s|
      ensures Rank(all, s[p]) == p
    {
      PositionIsRank(all, s, ds, p);
    }
    hide Rank;
    forall i: nat | i < |all| && all[i].datasetGuid == ds && Rank(all, i) < k
      ensures all[i].snapshotGuid in newest
    {
      var p: nat :| p < |s| && s[p] == i;
    }
    forall g <- newest
      ensures g in NewestOf(all, k, {ds})
    {
      var p: nat :| p < |s| && p < k && all[s[p]].snapshotGuid == g;
      assert s[p] < |all| && all[s[p]].datasetGuid == ds;
    }
  }

  method IndexByGuid(all: seq<Manifest>) returns (byGuid: Index)
    ensures byGuid == LastByGuid(all)
  {
    hide LastByGuid;
    byGuid := map[];
    NoneIndexed(all);
    for i := 0 to |all|
      invariant byGuid == LastByGuid(all[..i])
    {
      IndexedNext(all, i);
      byGuid := byGuid[all[i].snapshotGuid := all[i]];
    }
    assert all[..|all|] == all;
  }

  lemma NoneIndexed(all: seq<Manifest>)
    ensures LastByGuid(all[..0]) == map[]
  {
  }

  lemma IndexedNext(all: seq<Manifest>, i: nat)
    requires i < |all|
    ensures LastByGuid(all[..i + 1]) == LastByGuid(all[..i])[all[i].snapshotGuid := all[i]]
  {
    assert all[..i + 1][..i] == all[..i];
  }

  /** Each dataset, with the positions of its manifests. */
  ghost predicate Grouped(all: seq<Manifest>, groups: map<Guid, seq<nat>>) {
    && groups.Keys == Datasets(all)
    && forall ds <- groups :: groups[ds] == Positions(all, ds)
  }

  ghost function Datasets(all: seq<Manifest>): set<Guid> {
    set m | m in all :: m.datasetGuid
  }

  method GroupByDataset(all: seq<Manifest>) returns (groups: map<Guid, seq<nat>>)
    ensures Grouped(all, groups)
  {
    hide Grouped;
    groups := map[];
    NoneGrouped();
    assert all[..0] == [];
    for i := 0 to |all|
      invariant Grouped(all[..i], groups)
    {
      var ds := all[i].datasetGuid;
      GroupedNext(all[..i], groups, all[i]);
      assert all[..i + 1] == all[..i] + [all[i]];
      groups := groups[ds := (if ds in groups then groups[ds] else []) + [i]];
    }
    assert all[..|all|] == all;
  }

  lemma NoneGrouped()
    ensures Grouped([], map[])
  {
  }

  lemma GroupedNext(all: seq<Manifest>, groups: map<Guid, seq<nat>>, m: Manifest)
    requires Grouped(all, groups)
    ensures var ds := m.datasetGuid;
      Grouped(all + [m], groups[ds := (if ds in groups then groups[ds] else []) + [|all|]])
  {
    var ds := m.datasetGuid;
    var next := groups[ds := (if ds in groups then groups[ds] else []) + [|all|]];
    DatasetsSnoc(all, m);
    if ds !in groups {
      assert forall i :: 0 <= i < |all| ==> all[i] in all;
      NoPositions(all, ds);
    }
    hide Positions, Datasets;
    forall g <- next
      ensures next[g] == Positions(all + [m], g)
    {
      PositionsSnoc(all, m, g);
    }
  }

  lemma DatasetsSnoc(all: seq<Manifest>, m: Manifest)
    ensures Datasets(all + [m]) == Datasets(all) + {m.datasetGuid}
  {
  }

  lemma PositionsSnoc(all: seq<Manifest>, m: Manifest, ds: Guid)
    ensures Positions(all + [m], ds) == Positions(all, ds) + (if ds == m.datasetGuid then [|all|] else [])
  {
    assert (all + [m])[..|all|] == all;
  }

  lemma {:induction false} NoPositions(all: seq<Manifest>, ds: Guid)
    requires forall i :: 0 <= i < |all| ==> all[i].datasetGuid != ds
    ensures Positions(all, ds) == []
  {
    if all != [] {
      NoPositions(all[..|all| - 1], ds);
    }
  }

  /** The newest `k` of every dataset. */
  method KeepNewest(all: seq<Manifest>, k: nat) returns (keep: set<Guid>)
    ensures keep == NewestOf(all, k, Datasets(all))
  {
    hide *;
    var groups := GroupByDataset(all);
    NewestOfNone(all, k);
    keep := {};
    var todo := groups.Keys;
    ghost var datasets := todo;
    assert datasets - todo == {};
    while todo != {}
      invariant todo <= datasets
      invariant keep == NewestOf(all, k, datasets - todo)
      decreases todo
    {
      var ds :| ds in todo;
      GroupOf(all, groups, ds);
      var newest := NewestIn(all, ds, groups[ds], k);
      NewestOfBoth(all, k, datasets - todo, ds);
      assert datasets - (todo - {ds}) == (datasets - todo) + {ds};
      keep := keep + newest;
      todo := todo - {ds};
    }
    AllDatasets(all, groups);
    assert datasets - todo == datasets;
  }

  /** The newest `k` of one dataset. */
  method NewestIn(all: seq<Manifest>, ds: Guid, positions: seq<nat>, k: nat) returns (newest: set<Guid>)
    requires positions == Positions(all, ds)
    ensures newest == NewestOf(all, k, {ds})
  {
    var list := SortNewest(all, positions);
    SortOrdered(all, positions);
    newest := Take(all, list, k);
    NewestByPosition(all, k, ds, list, newest);
  }

  lemma NewestOfBoth(all: seq<Manifest>, k: nat, done: set<Guid>, ds: Guid)
    ensures NewestOf(all, k, done + {ds}) == NewestOf(all, k, done) + NewestOf(all, k, {ds})
  {
    hide Rank;
  }

  lemma AllDatasets(all: seq<Manifest>, groups: map<Guid, seq<nat>>)
    requires Grouped(all, groups)
    ensures groups.Keys == Datasets(all)
  {
  }

  lemma GroupOf(all: seq<Manifest>, groups: map<Guid, seq<nat>>, ds: Guid)
    requires Grouped(all, groups) && ds in groups
    ensures groups[ds] == Positions(all, ds)
  {
  }

  lemma NewestOfNone(all: seq<Manifest>, k: nat)
    ensures NewestOf(all, k, {}) == {}
  {
  }

  method Take(all: seq<Manifest>, list: seq<nat>, k: nat) returns (taken: set<Guid>)
    requires InRange(all, list)
    ensures taken == set p: nat | p < |list| && p < k :: all[list[p]].snapshotGuid
  {
    taken := {};
    var n := 0;
    while n < |list| && n < k
      invariant n <= |list| && n <= k
      invariant taken == set p: nat | p < n :: all[list[p]].snapshotGuid
    {
      taken := taken + {all[list[n]].snapshotGuid};
      n := n + 1;
    }
  }

  /** The newest of every dataset, the recent and the pinned. */
  method CollectSeeds(all: seq<Manifest>, p: Policy) returns (keep: set<Guid>)
    ensures keep == Seeds(all, p)
  {
    hide Rank;
    keep := KeepNewest(all, p.keepLast);
    ghost var newest := keep;
    for i := 0 to |all|
      invariant keep == newest + Named(all, p, i)
    {
      NamedNext(all, p, i);
      if Picked(all[i], p) {
        keep := keep + {all[i].snapshotGuid};
      }
    }
    SeedsAre(all, p, keep);
  }

  /** Those of the first `n` that are recent or pinned. */
  ghost function Named(all: seq<Manifest>, p: Policy, n: nat): set<Guid>
    requires n <= |all|
  {
    set k: nat | k < n && Picked(all[k], p) :: all[k].snapshotGuid
  }

  lemma NamedNext(all: seq<Manifest>, p: Policy, n: nat)
    requires n < |all|
    ensures Named(all, p, 0) == {}
    ensures Named(all, p, n + 1) == Named(all, p, n) +
      (if Picked(all[n], p) then {all[n].snapshotGuid} else {})
  {
    forall g | g in Named(all, p, n) || (Picked(all[n], p) && g == all[n].snapshotGuid)
      ensures g in Named(all, p, n + 1)
    {
      if g in Named(all, p, n) {
        var k: nat :| k < n && all[k].snapshotGuid == g && Picked(all[k], p);
        assert k < n + 1;
      } else {
        assert n < n + 1;
      }
    }
  }

  lemma SeedsAre(all: seq<Manifest>, p: Policy, keep: set<Guid>)
    requires keep == NewestOf(all, p.keepLast, Datasets(all)) + Named(all, p, |all|)
    ensures keep == Seeds(all, p)
  {
    hide Rank;
    forall g <- Seeds(all, p)
      ensures g in keep
    {
      var i: nat :| i < |all| && IsSeed(all, p, i) && all[i].snapshotGuid == g;
    }
    forall g <- keep
      ensures g in Seeds(all, p)
    {
      var i: nat :| i < |all| && all[i].snapshotGuid == g && IsSeed(all, p, i);
    }
  }

  /** `g` is a seed, or lies behind one: known before the run. */
  ghost predicate Needed(all: seq<Manifest>, p: Policy, g: Guid) {
    exists s: Guid, n: nat :: s in Seeds(all, p) && Reaches(LastByGuid(all), s, n, g)
  }

  ghost predicate Reaches(a: Index, s: Guid, n: nat, g: Guid) {
    s in a && Behind(a, a[s], n).Some? && Behind(a, a[s], n).value.snapshotGuid == g
  }

  /** What is kept is what is needed. */
  lemma KeptExactly(all: seq<Manifest>, p: Policy, keep: set<Guid>)
    requires IsKeepSet(all, p, keep)
    ensures forall g :: g in keep <==> Needed(all, p, g)
  {
    forall g | Needed(all, p, g)
      ensures g in keep
    {
      var s, n: nat :| s in Seeds(all, p) && Reaches(LastByGuid(all), s, n, g);
      BehindKept(all, p, keep, s, n);
    }
    var needed := set g | g in keep && Needed(all, p, g);
    NeededClosed(all, p, keep, needed);
  }

  lemma {:induction false} BehindKept(all: seq<Manifest>, p: Policy, keep: set<Guid>, s: Guid, n: nat)
    requires IsKeepSet(all, p, keep) && s in Seeds(all, p) && s in LastByGuid(all)
    requires Behind(LastByGuid(all), LastByGuid(all)[s], n).Some?
    ensures var m := Behind(LastByGuid(all), LastByGuid(all)[s], n).value;
      m.snapshotGuid in keep && m.snapshotGuid in LastByGuid(all) && LastByGuid(all)[m.snapshotGuid] == m
  {
    hide Seeds, LastByGuid, Least;
    if n > 0 {
      BehindKept(all, p, keep, s, n - 1);
      var m := Behind(LastByGuid(all), LastByGuid(all)[s], n - 1).value;
      assert Followed(LastByGuid(all), keep, m.snapshotGuid);
    }
  }

  lemma NeededClosed(all: seq<Manifest>, p: Policy, keep: set<Guid>, needed: set<Guid>)
    requires IsKeepSet(all, p, keep)
    requires needed == set g | g in keep && Needed(all, p, g)
    ensures needed == keep
  {
    var a := LastByGuid(all);
    SeedsListed(all, p);
    hide Seeds, LastByGuid;
    forall s <- Seeds(all, p)
      ensures s in needed
    {
      assert Reaches(a, s, 0, s);
    }
    forall g <- needed
      ensures Followed(a, needed, g)
    {
      NeededFollowed(all, p, keep, g);
    }
    hide Needed;
    assert Seeds(all, p) <= needed && LinkClosed(a, needed);
  }

  lemma NeededFollowed(all: seq<Manifest>, p: Policy, keep: set<Guid>, g: Guid)
    requires IsKeepSet(all, p, keep) && g in keep && Needed(all, p, g)
    ensures var a := LastByGuid(all);
      g in a && a[g].from.Some? && a[g].from.value in a ==>
        a[g].from.value in keep && Needed(all, p, a[g].from.value)
  {
    var a := LastByGuid(all);
    hide Seeds, LastByGuid, Least;
    if g in a && a[g].from.Some? && a[g].from.value in a {
      var s, n: nat :| s in Seeds(all, p) && Reaches(a, s, n, g);
      BehindKept(all, p, keep, s, n);
      assert Followed(a, keep, g);
      assert Reaches(a, s, n + 1, a[g].from.value);
    }
  }

  lemma SeedsListed(all: seq<Manifest>, p: Policy)
    ensures forall g <- Seeds(all, p) :: g in LastByGuid(all)
  {
    hide Rank;
    forall g <- Seeds(all, p)
      ensures g in LastByGuid(all)
    {
      var i: nat :| i < |all| && IsSeed(all, p, i) && all[i].snapshotGuid == g;
      assert all[i] in all;
    }
  }

  // ---- The same in plain terms -----------------------------------------------------------------

  /** Pinned, or archived after the cutoff, or with fewer than `keepLast` backups of its dataset
      archived after it; of those archived at the same instant, the one listed first counts as later. */
  ghost predicate Wanted(all: seq<Manifest>, pinned: set<Guid>, cutoff: Option<Instant>, keepLast: nat, i: nat)
    requires i < |all|
  {
    || all[i].snapshotGuid in pinned
    || (cutoff.Some? && cutoff.value < all[i].createdAt)
    || |set j: nat | j < |all| && all[j].datasetGuid == all[i].datasetGuid
         && (all[i].createdAt < all[j].createdAt || (all[i].createdAt == all[j].createdAt && j < i))| < keepLast
  }

  /** `g` is wanted, or something wanted needs it for its restore. */
  ghost predicate WantedOrBehind(all: seq<Manifest>, pinned: set<Guid>, cutoff: Option<Instant>, keepLast: nat,
                                 g: Guid) {
    exists i: nat, n: nat :: i < |all| && Wanted(all, pinned, cutoff, keepLast, i)
      && Reaches(LastByGuid(all), all[i].snapshotGuid, n, g)
  }

  lemma SeedsWanted(all: seq<Manifest>, p: Policy, i: nat)
    requires i < |all|
    ensures IsSeed(all, p, i) <==> Wanted(all, p.pinned, p.cutoff, p.keepLast, i)
  {
    assert AheadOf(all, i) == set j: nat | j < |all| && all[j].datasetGuid == all[i].datasetGuid
      && (all[i].createdAt < all[j].createdAt || (all[i].createdAt == all[j].createdAt && j < i));
  }

  /** What is kept is what is wanted, and whatever that needs. */
  lemma KeepSetPlainly(all: seq<Manifest>, p: Policy, keep: set<Guid>)
    requires IsKeepSet(all, p, keep)
    ensures forall g :: g in keep <==> WantedOrBehind(all, p.pinned, p.cutoff, p.keepLast, g)
  {
    KeptExactly(all, p, keep);
    hide IsKeepSet, LastByGuid, Reaches, Wanted, IsSeed;
    forall g
      ensures Needed(all, p, g) <==> WantedOrBehind(all, p.pinned, p.cutoff, p.keepLast, g)
    {
      if Needed(all, p, g) {
        var s, n: nat :| s in Seeds(all, p) && Reaches(LastByGuid(all), s, n, g);
        var i: nat :| i < |all| && IsSeed(all, p, i) && all[i].snapshotGuid == s;
        SeedsWanted(all, p, i);
      }
      if WantedOrBehind(all, p.pinned, p.cutoff, p.keepLast, g) {
        var i: nat, n: nat :| i < |all| && Wanted(all, p.pinned, p.cutoff, p.keepLast, i)
          && Reaches(LastByGuid(all), all[i].snapshotGuid, n, g);
        SeedsWanted(all, p, i);
        assert all[i].snapshotGuid in Seeds(all, p);
      }
    }
  }

  /** `keep_set`: from the seeds back along archived links, each GUID entering the worklist once. */
  method KeepSet(all: seq<Manifest>, p: Policy) returns (keep: set<Guid>)
    ensures IsKeepSet(all, p, keep)
    ensures forall g :: g in keep <==> WantedOrBehind(all, p.pinned, p.cutoff, p.keepLast, g)
  {
    var byGuid := IndexByGuid(all);
    keep := CollectSeeds(all, p);
    SeedsLeast(all, p);
    hide Seeds, LastByGuid, Least;
    var work := SomeOrder(keep);
    while work != []
      invariant Seeds(all, p) <= keep && Least(all, p, keep)
      invariant forall g <- work :: g in keep
      invariant forall g <- keep :: g in work || Followed(byGuid, keep, g)
      decreases byGuid.Keys - keep, |work|
    {
      var g := work[|work| - 1];
      work := work[..|work| - 1];
      if g in byGuid && byGuid[g].from.Some? {
        var from := byGuid[g].from.value;
        if from in byGuid && from !in keep {
          StaysLeast(all, p, keep, g);
          keep := keep + {from};
          work := work + [from];
        }
      }
    }
    KeepSetPlainly(all, p, keep);
  }

  lemma SeedsLeast(all: seq<Manifest>, p: Policy)
    ensures Least(all, p, Seeds(all, p))
  {
    hide Seeds;
  }

  lemma StaysLeast(all: seq<Manifest>, p: Policy, keep: set<Guid>, g: Guid)
    requires Least(all, p, keep) && g in keep
    requires var a := LastByGuid(all); g in a && a[g].from.Some? && a[g].from.value in a
    ensures Least(all, p, keep + {LastByGuid(all)[g].from.value})
  {
    hide Seeds, LastByGuid;
    var a := LastByGuid(all);
    forall k: set<Guid> | Seeds(all, p) <= k && LinkClosed(a, k)
      ensures keep + {a[g].from.value} <= k
    {
      assert Followed(a, k, g);
    }
  }

  method SomeOrder(s: set<Guid>) returns (r: seq<Guid>)
    ensures forall g :: g in r <==> g in s
  {
    r := [];
    var left := s;
    while left != {}
      invariant left <= s
      invariant forall g :: g in r <==> g in s - left
      decreases left
    {
      var g :| g in left;
      r := r + [g];
      left := left - {g};
    }
  }
}
