/** The listing every command starts from, and what its order means for a retention run. */
module Listing {
  import opened Bytes
  import opened Manifests
  import opened Retention
  import opened RetentionLaws

  /** What a fetch of one manifest key brings. */
  datatype Found = Present(m: Manifest) | Missing | Unusable

  /** By dataset, then `createtxg`, then GUID. */
  predicate Before(m: Manifest, n: Manifest) {
    || m.datasetGuid < n.datasetGuid
    || (m.datasetGuid == n.datasetGuid && m.createtxg < n.createtxg)
    || (m.datasetGuid == n.datasetGuid && m.createtxg == n.createtxg && m.snapshotGuid < n.snapshotGuid)
  }

  /** Datasets together; within one the older first; of the same age the one with the smaller GUID. */
  predicate InOrder(m: Manifest, n: Manifest) {
    && m.datasetGuid <= n.datasetGuid
    && (m.datasetGuid == n.datasetGuid ==> m.createtxg <= n.createtxg)
    && (m.datasetGuid == n.datasetGuid && m.createtxg == n.createtxg ==> m.snapshotGuid <= n.snapshotGuid)
  }

  ghost predicate InListingOrder(all: seq<Manifest>) {
    forall i, j :: 0 <= i < j < |all| ==> !Before(all[j], all[i])
  }

  function Presents(found: seq<Found>): seq<Manifest> {
    if found == [] then [] else
    Presents(found[..|found| - 1]) + (if found[|found| - 1].Present? then [found[|found| - 1].m] else [])
  }

  /** Put `m` in its place. */
  function Placed(all: seq<Manifest>, m: Manifest): (r: seq<Manifest>)
    ensures multiset(r) == multiset(all) + multiset{m}
  {
    if all == [] then [m]
    else if Before(m, all[|all| - 1]) then
      assert all == all[..|all| - 1] + [all[|all| - 1]];
      Placed(all[..|all| - 1], m) + [all[|all| - 1]]
    else all + [m]
  }

  lemma {:induction false} PlacedInOrder(all: seq<Manifest>, m: Manifest)
    requires InListingOrder(all)
    ensures InListingOrder(Placed(all, m))
  {
    if all != [] && Before(m, all[|all| - 1]) {
      var front, last := all[..|all| - 1], all[|all| - 1];
      PlacedInOrder(front, m);
      forall x <- Placed(front, m)
        ensures !Before(last, x)
      {
        assert x in multiset(Placed(front, m));
        assert x in multiset(front) + multiset{m};
        if x != m {
          assert x in front;
        }
      }
    }
  }

  /** The manifests there are, in order; none at all if one of them cannot be used. */
  method List(found: seq<Found>) returns (r: Option<seq<Manifest>>)
    ensures r.None? <==> Unusable in found
    ensures r.Some? ==> InListingOrder(r.value) && multiset(r.value) == multiset(Presents(found))
    ensures r.Some? ==> forall i, j :: 0 <= i < j < |r.value| ==> InOrder(r.value[i], r.value[j])
  {
    var all: seq<Manifest> := [];
    for i := 0 to |found|
      invariant Unusable !in found[..i]
      invariant InListingOrder(all) && multiset(all) == multiset(Presents(found[..i]))
    {
      assert found[..i + 1] == found[..i] + [found[i]];
      match found[i] {
        case Present(m) =>
          PlacedInOrder(all, m);
          all := Placed(all, m);
        case Missing =>
        case Unusable =>
          return None;
      }
    }
    assert found[..|found|] == found;
    return Some(all);
  }

  // ---- What the order means -----------------------------------------------------------------

  lemma OrderedByKey(all: seq<Manifest>, i: nat, j: nat)
    requires InListingOrder(all) && Unique(all) && i < |all| && j < |all| && i != j
    ensures i < j <==> Before(all[i], all[j])
  {
  }

  /** From the keys alone: in a listing, no unneeded backup comes before an unneeded one based on it,
      exactly if each such dependent sorts before its base. */
  lemma OrderFromKeys(all: seq<Manifest>, p: Policy)
    requires InListingOrder(all) && Unique(all)
    ensures ListedDependentsFirst(all, p)
      <==> forall j: nat, k: nat :: DoomedPair(all, p, j, k) && j != k ==> Before(all[k], all[j])
  {
    hide Needed, InListingOrder, Unique, Before;
    forall j: nat, k: nat | j < |all| && k < |all| && j != k
      ensures k < j <==> Before(all[k], all[j])
    {
      OrderedByKey(all, k, j);
    }
    if forall j: nat, k: nat :: DoomedPair(all, p, j, k) && j != k ==> Before(all[k], all[j]) {
      forall j: nat, k: nat | DoomedPair(all, p, j, k)
        ensures !(j < k)
      {
      }
    } else {
      var j: nat, k: nat :| DoomedPair(all, p, j, k) && j != k && !Before(all[k], all[j]);
      assert j < k;
    }
  }

  /** Where every backup is younger than its base, as it is within one pool, the order is always the
      wrong one: a run leaves every listed backup restorable throughout exactly if it dooms no backup
      together with its base. */
  lemma OldestFirst(all: seq<Manifest>, p: Policy)
    requires InListingOrder(all) && Unique(all)
    requires forall j, k :: 0 <= j < |all| && 0 <= k < |all| && all[k].from == Some(all[j].snapshotGuid) ==>
      all[j].datasetGuid == all[k].datasetGuid && all[j].createtxg < all[k].createtxg
    ensures ListedDependentsFirst(all, p)
      <==> forall j: nat, k: nat :: !DoomedPair(all, p, j, k)
  {
    OrderFromKeys(all, p);
    hide Needed, InListingOrder, Unique, ListedDependentsFirst;
  }
}
