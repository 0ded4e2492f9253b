/** The restore chain: `from` links walked back from a snapshot to a full. */
module Chains {
  import opened Bytes
  import opened Manifests

  /** Manifests by snapshot GUID. */
  type Index = map<Guid, Manifest>

  ghost predicate Keyed(a: Index) {
    forall g <- a :: a[g].snapshotGuid == g
  }

  /** The manifest `find` returns for each GUID: the first in the list. */
  ghost function FirstByGuid(all: seq<Manifest>): (a: Index)
    ensures Keyed(a)
    ensures forall m <- all :: m.snapshotGuid in a
    ensures forall g <- a :: a[g] in all
  {
    if all == [] then map[] else FirstByGuid(all[1..])[all[0].snapshotGuid := all[0]]
  }

  method Find(all: seq<Manifest>, g: Guid) returns (r: Option<Manifest>)
    ensures r == if g in FirstByGuid(all) then Some(FirstByGuid(all)[g]) else None
  {
    for i := 0 to |all|
      invariant forall k :: 0 <= k < i ==> all[k].snapshotGuid != g
    {
      if all[i].snapshotGuid == g {
        FirstIs(all, i);
        return Some(all[i]);
      }
    }
    assert forall m <- all :: m.snapshotGuid != g;
    return None;
  }

  lemma {:induction false} FirstIs(all: seq<Manifest>, i: nat)
    requires i < |all| && forall k :: 0 <= k < i ==> all[k].snapshotGuid != all[i].snapshotGuid
    ensures FirstByGuid(all)[all[i].snapshotGuid] == all[i]
  {
    if i > 0 {
      assert all[1..][i - 1] == all[i];
      FirstIs(all[1..], i - 1);
    }
  }

  // ---- The walk --------------------------------------------------------------

  datatype Walk =
    | Complete(chain: seq<Manifest>)
    | Broken(at: Manifest, missing: Guid)
    | Circular(at: Manifest, again: Guid)

  function Reversed(s: seq<Manifest>): (r: seq<Manifest>)
    ensures |r| == |s| && forall i :: 0 <= i < |s| ==> r[i] == s[|s| - 1 - i]
  {
    if s == [] then [] else Reversed(s[1..]) + [s[0]]
  }

  /** `chain` runs from the tip to `cur`; `seen` holds its GUIDs. */
  ghost function WalkOn(a: Index, cur: Manifest, seen: set<Guid>, chain: seq<Manifest>): Walk
    decreases a.Keys - seen
  {
    match cur.from
    case None => Complete(Reversed(chain))
    case Some(from) =>
      if from !in a then Broken(cur, from)
      else if from in seen then Circular(cur, from)
      else WalkOn(a, a[from], seen + {from}, chain + [a[from]])
  }

  ghost function WalkFrom(a: Index, tip: Manifest): Walk {
    WalkOn(a, tip, {tip.snapshotGuid}, [tip])
  }

  /** The loop of `receive`: at most one turn per archived GUID not yet seen. */
  method WalkChain(all: seq<Manifest>, tip: Manifest) returns (r: Walk)
    ensures r == WalkFrom(FirstByGuid(all), tip)
  {
    ghost var a := FirstByGuid(all);
    var chain := [tip];
    var seen := {tip.snapshotGuid};
    var cur := tip;
    while cur.from.Some?
      invariant WalkOn(a, cur, seen, chain) == WalkFrom(a, tip)
      decreases a.Keys - seen
    {
      var from := cur.from.value;
      var base := Find(all, from);
      if base.None? {
        return Broken(cur, from);
      }
      if from in seen {
        return Circular(cur, from);
      }
      seen := seen + {from};
      chain := chain + [base.value];
      cur := base.value;
    }
    return Complete(Reversed(chain));
  }

  // ---- What its outcome means --------------------------------------------------

  /** The snapshot `k` links behind `tip`, if the links stay in the archive that far. */
  ghost function Behind(a: Index, tip: Manifest, k: nat): Option<Manifest> {
    if k == 0 then Some(tip) else
    var m := Behind(a, tip, k - 1);
    if m.Some? && m.value.from.Some? && m.value.from.value in a then Some(a[m.value.from.value]) else None
  }

  ghost predicate ReachesFull(a: Index, tip: Manifest) {
    exists k: nat :: Behind(a, tip, k).Some? && Behind(a, tip, k).value.IsFull()
  }

  ghost predicate LeavesArchive(a: Index, tip: Manifest) {
    exists k: nat :: Behind(a, tip, k).Some?
      && Behind(a, tip, k).value.from.Some? && Behind(a, tip, k).value.from.value !in a
  }

  ghost predicate Revisits(a: Index, tip: Manifest) {
    exists j: nat, k: nat :: j < k && Behind(a, tip, j).Some? && Behind(a, tip, k) == Behind(a, tip, j)
  }

  /** A chain that can be restored: a full first, each stream based on the one before it, each
      snapshot once, the wanted one last. */
  ghost predicate Restorable(a: Index, chain: seq<Manifest>, tip: Manifest) {
    && chain != [] && chain[0].IsFull() && chain[|chain| - 1] == tip
    && (forall i :: 0 <= i < |chain| - 1 ==>
          chain[i + 1].from == Some(chain[i].snapshotGuid)
          && chain[i].snapshotGuid in a && a[chain[i].snapshotGuid] == chain[i])
    && (forall i, j :: 0 <= i < j < |chain| ==> chain[i].snapshotGuid != chain[j].snapshotGuid)
  }

  /** `chain[i]` is `i` links behind the tip. */
  ghost predicate Linked(a: Index, tip: Manifest, chain: seq<Manifest>) {
    && (forall i :: 0 <= i < |chain| ==> Behind(a, tip, i) == Some(chain[i]))
    && (forall i :: 0 < i < |chain| ==>
          chain[i].snapshotGuid in a && a[chain[i].snapshotGuid] == chain[i]
          && chain[i - 1].from == Some(chain[i].snapshotGuid))
  }

  /** `seen` holds the GUIDs on the chain, and no others. */
  ghost predicate Covered(seen: set<Guid>, chain: seq<Manifest>) {
    && (forall i :: 0 <= i < |chain| ==> chain[i].snapshotGuid in seen)
    && (forall g <- seen :: exists i :: 0 <= i < |chain| && chain[i].snapshotGuid == g)
  }

  ghost predicate Distinct(chain: seq<Manifest>) {
    forall i, j :: 0 <= i < j < |chain| ==> chain[i].snapshotGuid != chain[j].snapshotGuid
  }

  /** The invariant of the walk: the chain so far follows the links, and nothing repeats. */
  ghost predicate Walked(a: Index, tip: Manifest, cur: Manifest, seen: set<Guid>, chain: seq<Manifest>) {
    && Keyed(a)
    && chain != [] && chain[0] == tip && chain[|chain| - 1] == cur
    && Linked(a, tip, chain) && Covered(seen, chain) && Distinct(chain)
  }

  lemma LinkedNext(a: Index, tip: Manifest, chain: seq<Manifest>, from: Guid)
    requires Linked(a, tip, chain) && chain != []
    requires chain[|chain| - 1].from == Some(from) && from in a && a[from].snapshotGuid == from
    ensures Linked(a, tip, chain + [a[from]])
  {
    assert Behind(a, tip, |chain| - 1) == Some(chain[|chain| - 1]);
    assert Behind(a, tip, |chain|) == Some(a[from]);
  }

  lemma CoveredNext(seen: set<Guid>, chain: seq<Manifest>, m: Manifest)
    requires Covered(seen, chain)
    ensures Covered(seen + {m.snapshotGuid}, chain + [m])
  {
    var next := chain + [m];
    forall g <- seen + {m.snapshotGuid}
      ensures exists i :: 0 <= i < |next| && next[i].snapshotGuid == g
    {
      if g == m.snapshotGuid {
        assert next[|chain|].snapshotGuid == g;
      } else {
        var i :| 0 <= i < |chain| && chain[i].snapshotGuid == g;
        assert next[i].snapshotGuid == g;
      }
    }
  }

  lemma DistinctNext(seen: set<Guid>, chain: seq<Manifest>, m: Manifest)
    requires Covered(seen, chain) && Distinct(chain) && m.snapshotGuid !in seen
    ensures Distinct(chain + [m])
  {
  }

  lemma WalkedNext(a: Index, tip: Manifest, cur: Manifest, seen: set<Guid>, chain: seq<Manifest>, from: Guid)
    requires Walked(a, tip, cur, seen, chain)
    requires cur.from == Some(from) && from in a && from !in seen
    ensures Walked(a, tip, a[from], seen + {from}, chain + [a[from]])
  {
    hide Linked, Covered, Distinct;
    LinkedNext(a, tip, chain, from);
    CoveredNext(seen, chain, a[from]);
    DistinctNext(seen, chain, a[from]);
  }

  lemma ReversedDistinct(chain: seq<Manifest>)
    requires Distinct(chain)
    ensures forall i, j :: 0 <= i < j < |chain| ==> Reversed(chain)[i].snapshotGuid != Reversed(chain)[j].snapshotGuid
  {
  }

  lemma WalkedToFull(a: Index, tip: Manifest, cur: Manifest, seen: set<Guid>, chain: seq<Manifest>)
    requires Walked(a, tip, cur, seen, chain) && cur.from.None?
    requires tip.snapshotGuid in a && a[tip.snapshotGuid] == tip
    ensures Restorable(a, Reversed(chain), tip) && ReachesFull(a, tip)
  {
    assert Behind(a, tip, |chain| - 1) == Some(cur);
    ReversedDistinct(chain);
    hide Covered, Distinct, Behind;
    var c, n := Reversed(chain), |chain|;
    forall i | 0 <= i < n - 1
      ensures c[i + 1].from == Some(c[i].snapshotGuid) && c[i].snapshotGuid in a && a[c[i].snapshotGuid] == c[i]
    {
      var k := n - 1 - i;
      assert c[i] == chain[k] && c[i + 1] == chain[k - 1];
    }
  }

  lemma WalkedBack(a: Index, tip: Manifest, cur: Manifest, seen: set<Guid>, chain: seq<Manifest>, from: Guid)
    requires Walked(a, tip, cur, seen, chain)
    requires tip.snapshotGuid in a && a[tip.snapshotGuid] == tip
    requires cur.from == Some(from) && from in a && from in seen
    ensures Revisits(a, tip)
  {
    var n := |chain| - 1;
    var j: nat :| j < |chain| && chain[j].snapshotGuid == from;
    assert Behind(a, tip, n) == Some(cur);
    assert Behind(a, tip, n + 1) == Some(a[from]);
    assert chain[j] == a[from];
    assert Behind(a, tip, j) == Some(chain[j]);
  }

  lemma {:induction false} WalkOnMeaning(a: Index, tip: Manifest, cur: Manifest, seen: set<Guid>, chain: seq<Manifest>)
    requires Walked(a, tip, cur, seen, chain)
    requires tip.snapshotGuid in a && a[tip.snapshotGuid] == tip
    ensures match WalkOn(a, cur, seen, chain)
      case Complete(c) => Restorable(a, c, tip) && ReachesFull(a, tip)
      case Broken(at, missing) => LeavesArchive(a, tip) && at.from == Some(missing) && missing !in a
      case Circular(at, again) => Revisits(a, tip) && at.from == Some(again)
    decreases a.Keys - seen
  {
    assert Behind(a, tip, |chain| - 1) == Some(cur);
    hide Walked, Restorable, Revisits, ReachesFull, Behind;
    if cur.from.None? {
      WalkedToFull(a, tip, cur, seen, chain);
    } else if cur.from.value in a {
      var from := cur.from.value;
      if from in seen {
        WalkedBack(a, tip, cur, seen, chain, from);
      } else {
        WalkedNext(a, tip, cur, seen, chain, from);
        WalkOnMeaning(a, tip, a[from], seen + {from}, chain + [a[from]]);
      }
    }
  }

  /** The three outcomes, exactly: the walk completes when the links reach a full, breaks when they
      leave the archive, and is called circular when they come back to a snapshot already passed. */
  lemma WalkOutcome(a: Index, tip: Manifest)
    requires Keyed(a) && tip.snapshotGuid in a && a[tip.snapshotGuid] == tip
    ensures var r := WalkFrom(a, tip);
      && (r.Complete? <==> ReachesFull(a, tip))
      && (r.Broken? <==> LeavesArchive(a, tip))
      && (r.Circular? <==> Revisits(a, tip))
      && (r.Complete? ==> Restorable(a, r.chain, tip))
  {
    StartsWalked(a, tip);
    WalkOnMeaning(a, tip, tip, {tip.snapshotGuid}, [tip]);
    FullOrLeaves(a, tip);
    EndsOrRevisits(a, tip);
    hide ReachesFull, LeavesArchive, Revisits, Restorable, WalkOn;
  }

  lemma StartsWalked(a: Index, tip: Manifest)
    requires Keyed(a)
    ensures Walked(a, tip, tip, {tip.snapshotGuid}, [tip])
  {
    assert Behind(a, tip, 0) == Some(tip);
    assert [tip][0].snapshotGuid == tip.snapshotGuid;
  }

  lemma FullOrLeaves(a: Index, tip: Manifest)
    ensures !(ReachesFull(a, tip) && LeavesArchive(a, tip))
  {
    if ReachesFull(a, tip) && LeavesArchive(a, tip) {
      var p: nat :| Behind(a, tip, p).Some? && Behind(a, tip, p).value.from.None?;
      var q: nat :| Behind(a, tip, q).Some?
        && Behind(a, tip, q).value.from.Some? && Behind(a, tip, q).value.from.value !in a;
      assert Behind(a, tip, p + 1).None? && Behind(a, tip, q + 1).None?;
      if p < q { StaysNone(a, tip, p + 1, q); } else if q < p { StaysNone(a, tip, q + 1, p); }
    }
  }

  lemma EndsOrRevisits(a: Index, tip: Manifest)
    ensures !((ReachesFull(a, tip) || LeavesArchive(a, tip)) && Revisits(a, tip))
  {
    if (ReachesFull(a, tip) || LeavesArchive(a, tip)) && Revisits(a, tip) {
      var k := LastBehind(a, tip);
      var i: nat, j: nat :| i < j && Behind(a, tip, i).Some? && Behind(a, tip, j) == Behind(a, tip, i);
      EndsOnce(a, tip, k, i, j);
    }
  }

  lemma LastBehind(a: Index, tip: Manifest) returns (k: nat)
    requires ReachesFull(a, tip) || LeavesArchive(a, tip)
    ensures Behind(a, tip, k).Some? && Behind(a, tip, k + 1).None?
  {
    if ReachesFull(a, tip) {
      k :| Behind(a, tip, k).Some? && Behind(a, tip, k).value.from.None?;
    } else {
      k :| Behind(a, tip, k).Some? && Behind(a, tip, k).value.from.Some? && Behind(a, tip, k).value.from.value !in a;
    }
  }

  lemma {:induction false} StaysNone(a: Index, tip: Manifest, j: nat, k: nat)
    requires j <= k && Behind(a, tip, j).None?
    ensures Behind(a, tip, k).None?
  {
    if j < k {
      StaysNone(a, tip, j, k - 1);
    }
  }

  lemma {:induction false} Periodic(a: Index, tip: Manifest, i: nat, j: nat, d: nat)
    requires Behind(a, tip, i) == Behind(a, tip, j)
    ensures Behind(a, tip, i + d) == Behind(a, tip, j + d)
  {
    if d > 0 {
      Periodic(a, tip, i, j, d - 1);
    }
  }

  /** A path that ends does not repeat. */
  lemma EndsOnce(a: Index, tip: Manifest, k: nat, i: nat, j: nat)
    requires Behind(a, tip, k).Some? && Behind(a, tip, k + 1).None?
    requires i < j && Behind(a, tip, i).Some?
    ensures Behind(a, tip, i) != Behind(a, tip, j)
  {
    if Behind(a, tip, i) == Behind(a, tip, j) {
      if j > k {
        StaysNone(a, tip, k + 1, j);
      } else {
        Periodic(a, tip, i, j, k + 1 - j);
        StaysNone(a, tip, i + (k + 1 - j), k);
      }
    }
  }

  // ---- Walking in a smaller archive ----------------------------------------------

  ghost predicate Within(b: Index, a: Index) {
    forall g <- b :: g in a && a[g] == b[g]
  }

  /** Every base that `a` still has for a snapshot of `b`, `b` has too. */
  ghost predicate LinksKept(b: Index, a: Index) {
    forall g <- b :: b[g].from.Some? && b[g].from.value in a ==> b[g].from.value in b
  }

  lemma {:induction false} SameWalkOn(b: Index, a: Index, cur: Manifest, seen: set<Guid>, chain: seq<Manifest>)
    requires Within(b, a) && LinksKept(b, a)
    requires cur.snapshotGuid in b && b[cur.snapshotGuid] == cur && Keyed(b)
    ensures WalkOn(b, cur, seen, chain) == WalkOn(a, cur, seen, chain)
    decreases a.Keys - seen
  {
    if cur.from.Some? && cur.from.value in a && cur.from.value !in seen {
      var from := cur.from.value;
      SameWalkOn(b, a, b[from], seen + {from}, chain + [b[from]]);
    }
  }

  /** Shrinking the archive changes no walk of a survivor exactly when no survivor loses its base. */
  lemma WalksUnchanged(b: Index, a: Index)
    requires Within(b, a) && Keyed(b)
    ensures (forall g <- b :: WalkFrom(b, b[g]) == WalkFrom(a, b[g])) <==> LinksKept(b, a)
  {
    if LinksKept(b, a) {
      forall g <- b
        ensures WalkFrom(b, b[g]) == WalkFrom(a, b[g])
      {
        SameWalkOn(b, a, b[g], {b[g].snapshotGuid}, [b[g]]);
      }
    } else {
      var g :| g in b && b[g].from.Some? && b[g].from.value in a && b[g].from.value !in b;
      var from := b[g].from.value;
      assert WalkFrom(b, b[g]) == Broken(b[g], from);
      if WalkFrom(a, b[g]) == Broken(b[g], from) {
        BrokenMissing(a, b[g], {b[g].snapshotGuid}, [b[g]]);
      }
    }
  }

  lemma {:induction false} BrokenMissing(a: Index, cur: Manifest, seen: set<Guid>, chain: seq<Manifest>)
    requires WalkOn(a, cur, seen, chain).Broken?
    ensures WalkOn(a, cur, seen, chain).missing !in a
    decreases a.Keys - seen
  {
    if cur.from.Some? && cur.from.value in a && cur.from.value !in seen {
      var from := cur.from.value;
      BrokenMissing(a, a[from], seen + {from}, chain + [a[from]]);
    }
  }
}
