/** The history of one archive: committed sends, retention runs, cleans and pins, in any order. */
module Archive {
  import opened Bytes
  import opened Manifests
  import opened Chains
  import opened Retention
  import opened RetentionLaws
  import opened Keys
  import opened Storage
  import C = Cleaning

  // ---- Choosing a base ------------------------------------------------------------

  /** A snapshot or bookmark that exists on the sending host. */
  datatype Local = Local(name: string, guid: Guid, createtxg: nat)

  datatype Choice = Full | Incremental(name: string, base: Guid) | NotArchived {
    function Base(): Option<Guid> { if Incremental? then Some(base) else None }
  }

  /** `locals[i]` is the first to have this GUID and to be older than `txg`. */
  ghost predicate FirstLocal(locals: seq<Local>, g: Guid, txg: nat, i: nat) {
    && i < |locals| && locals[i].guid == g && locals[i].createtxg < txg
    && forall k :: 0 <= k < i ==> !(locals[k].guid == g && locals[k].createtxg < txg)
  }

  /** The base goes by the name of the first snapshot that stands for it, or if there is none, of
      the first such bookmark. */
  ghost predicate NamedAfter(snaps: seq<Local>, marks: seq<Local>, txg: nat, name: string, g: Guid) {
    || (exists i: nat :: FirstLocal(snaps, g, txg, i) && snaps[i].name == name)
    || (!Present(snaps, g, txg)
        && exists i: nat :: FirstLocal(marks, g, txg, i) && marks[i].name == name)
  }

  /** One of `locals` stands for `g` and is older than `txg`. */
  predicate Present(locals: seq<Local>, g: Guid, txg: nat) {
    exists l <- locals :: l.guid == g && l.createtxg < txg
  }

  /** `m` can serve as the base of a snapshot created at `txg`. */
  predicate Usable(m: Manifest, locals: seq<Local>, txg: nat) {
    Present(locals, m.snapshotGuid, txg)
  }

  /** `all[i]` is usable, and nothing of its dataset that ranks ahead of it is. */
  ghost predicate NewestUsable(all: seq<Manifest>, ds: Guid, snaps: seq<Local>, marks: seq<Local>, txg: nat, i: nat)
    requires i < |all|
  {
    && all[i].datasetGuid == ds
    && (Usable(all[i], snaps, txg) || Usable(all[i], marks, txg))
    && forall j: nat :: j < |all| && all[j].datasetGuid == ds && Ahead(all, j, i) ==>
         !Usable(all[j], snaps, txg) && !Usable(all[j], marks, txg)
  }

  method FindLocal(locals: seq<Local>, g: Guid, txg: nat) returns (r: Option<Local>)
    ensures r.Some? <==> Present(locals, g, txg)
    ensures r.Some? ==> exists i: nat :: FirstLocal(locals, g, txg, i) && locals[i] == r.value
  {
    for i := 0 to |locals|
      invariant forall k :: 0 <= k < i ==> !(locals[k].guid == g && locals[k].createtxg < txg)
    {
      if locals[i].guid == g && locals[i].createtxg < txg {
        assert FirstLocal(locals, g, txg, i);
        return Some(locals[i]);
      }
    }
    return None;
  }

  method LocalName(snaps: seq<Local>, marks: seq<Local>, g: Guid, txg: nat) returns (r: Option<string>)
    ensures r.Some? <==> Present(snaps, g, txg) || Present(marks, g, txg)
    ensures r.Some? ==> NamedAfter(snaps, marks, txg, r.value, g)
  {
    var local := FindLocal(snaps, g, txg);
    if local.None? {
      local := FindLocal(marks, g, txg);
    }
    return if local.Some? then Some(local.value.name) else None;
  }

  /** `Incremental` on the highest-ranked usable manifest of the dataset, by its local name;
      `Full` when none is usable. */
  method AutoBase(all: seq<Manifest>, ds: Guid, snaps: seq<Local>, marks: seq<Local>, txg: nat) returns (r: Choice)
    ensures !r.NotArchived?
    ensures r.Full? ==> forall m <- all :: m.datasetGuid == ds ==> !Usable(m, snaps, txg) && !Usable(m, marks, txg)
    ensures r.Incremental? ==>
      exists i: nat :: i < |all| && NewestUsable(all, ds, snaps, marks, txg, i) && all[i].snapshotGuid == r.base
    ensures r.Incremental? ==> NamedAfter(snaps, marks, txg, r.name, r.base)
    ensures Unique(all) ==> BaseIn(LastByGuid(all), r.Base(), ds)
  {
    hide LastByGuid, Present, NamedAfter;
    var candidates := SortNewest(all, Positions(all, ds));
    SortOrdered(all, Positions(all, ds));
    var n := 0;
    while n < |candidates|
      invariant n <= |candidates|
      invariant forall k :: 0 <= k < n ==>
        !Usable(all[candidates[k]], snaps, txg) && !Usable(all[candidates[k]], marks, txg)
    {
      var i := candidates[n];
      assert i in candidates;
      var name := LocalName(snaps, marks, all[i].snapshotGuid, txg);
      if name.Some? {
        AheadCameBefore(all, candidates, n);
        assert NewestUsable(all, ds, snaps, marks, txg, i);
        if Unique(all) {
          UniqueIndex(all, i);
        }
        return Incremental(name.value, all[i].snapshotGuid);
      }
      n := n + 1;
    }
    forall m <- all | m.datasetGuid == ds
      ensures !Usable(m, snaps, txg) && !Usable(m, marks, txg)
    {
      var i: nat :| i < |all| && all[i] == m;
      assert i in candidates;
    }
    return Full;
  }

  lemma AheadCameBefore(all: seq<Manifest>, s: seq<nat>, n: nat)
    requires InRange(all, s) && Ordered(all, s) && n < |s|
    ensures forall j: nat :: j < |all| && j in s && Ahead(all, j, s[n]) ==> exists k :: 0 <= k < n && s[k] == j
  {
    forall j: nat | j < |all| && j in s && Ahead(all, j, s[n])
      ensures exists k :: 0 <= k < n && s[k] == j
    {
      var k :| 0 <= k < |s| && s[k] == j;
      assert k < n;
    }
  }

  /** Refused exactly when no manifest of the dataset is about `from`. */
  method ExplicitBase(all: seq<Manifest>, ds: Guid, from: Local) returns (r: Choice)
    ensures r.NotArchived? <==> forall m <- all :: !(m.datasetGuid == ds && m.snapshotGuid == from.guid)
    ensures !r.NotArchived? ==> r == Incremental(from.name, from.guid)
    ensures Unique(all) ==> BaseIn(LastByGuid(all), r.Base(), ds)
  {
    for i := 0 to |all|
      invariant forall k :: 0 <= k < i ==> !(all[k].datasetGuid == ds && all[k].snapshotGuid == from.guid)
    {
      if all[i].datasetGuid == ds && all[i].snapshotGuid == from.guid {
        if Unique(all) {
          UniqueIndex(all, i);
        }
        return Incremental(from.name, from.guid);
      }
    }
    return NotArchived;
  }

  /** The highest-ranked usable manifest is the base; or none is usable, and it is a full. */
  ghost predicate IsAutoBase(all: seq<Manifest>, ds: Guid, snaps: seq<Local>, marks: seq<Local>, txg: nat, r: Choice) {
    match r
    case Full => forall m <- all :: m.datasetGuid == ds ==> !Usable(m, snaps, txg) && !Usable(m, marks, txg)
    case Incremental(name, base) =>
      && NamedAfter(snaps, marks, txg, name, base)
      && exists i: nat :: i < |all| && NewestUsable(all, ds, snaps, marks, txg, i) && all[i].snapshotGuid == base
    case NotArchived => false
  }

  /** A full on request, the base asked for, or the one found. */
  method ChooseBase(all: seq<Manifest>, ds: Guid, full: bool, from: Option<Local>, snaps: seq<Local>,
                    marks: seq<Local>, txg: nat)
    returns (r: Choice)
    ensures Unique(all) ==> BaseIn(LastByGuid(all), r.Base(), ds)
    ensures full ==> r.Full?
    ensures !full && from.Some? ==>
      r == if exists m :: m in all && m.datasetGuid == ds && m.snapshotGuid == from.value.guid
           then Incremental(from.value.name, from.value.guid) else NotArchived
    ensures !full && from.None? ==> IsAutoBase(all, ds, snaps, marks, txg, r)
  {
    if full {
      return Full;
    }
    if from.Some? {
      r := ExplicitBase(all, ds, from.value);
    } else {
      r := AutoBase(all, ds, snaps, marks, txg);
    }
  }

  /** The base, if any, is archived, in the dataset. */
  ghost predicate BaseIn(a: Index, base: Option<Guid>, ds: Guid) {
    base.Some? ==> base.value in a && a[base.value].datasetGuid == ds
  }

  // ---- Histories ----------------------------------------------------------------------

  datatype State = State(manifests: Index, pins: set<Guid>)

  datatype Event =
    | Commit(m: Manifest)
    | Retain(all: seq<Manifest>, cutoff: Option<Instant>, keepLast: nat, keep: set<Guid>)
    | Clean(before: Objects, now: Instant, lost: set<Key>, after: Objects)
    | Pin(g: Guid)
    | Unpin(g: Guid)

  /** The snapshot is not yet archived, and its base, if any, is: in the same dataset. */
  ghost predicate MayCommit(a: Index, m: Manifest) {
    && m.snapshotGuid !in a
    && BaseArchived(a, m)
  }

  ghost predicate BaseArchived(a: Index, m: Manifest) {
    BaseIn(a, m.from, m.datasetGuid)
  }

  /** The manifests stored under their own GUIDs are those of `a`. */
  ghost predicate Stores(objects: Objects, a: Index) {
    && Keyed(a)
    && (forall g <- a :: Filed(objects, a[g]))
    && (forall m: Manifest :: Filed(objects, m) ==> m.snapshotGuid in a && a[m.snapshotGuid] == m)
  }

  /** Cleaning leaves the archive as it is. */
  lemma CleanKeepsArchive(before: Objects, now: Instant, lost: set<Key>, after: Objects, a: Index, a': Index)
    requires C.CleanedFrom(before, now, lost, after)
    requires Stores(before, a) && Stores(after, a')
    ensures a' == a
  {
    forall m: Manifest
      ensures Filed(after, m) <==> Filed(before, m)
    {
      ManifestStays(before, now, lost, after, m);
    }
    hide Filed;
    assert forall g <- a :: Filed(after, a[g]);
    assert forall g <- a' :: Filed(before, a'[g]);
  }

  lemma ManifestStays(before: Objects, now: Instant, lost: set<Key>, after: Objects, m: Manifest)
    requires C.CleanedFrom(before, now, lost, after)
    ensures Filed(after, m) <==> Filed(before, m)
  {
    hide C.Garbage, C.InDir, ManifestKey;
    C.ManifestAtHome(m);
    var k := ManifestKey(m.datasetGuid, m.snapshotGuid);
    if C.Garbage(before, now, lost, k) {
      C.ManifestSpared(before, now, lost, C.HomeOf(m), k);
    }
  }

  ghost predicate Next(s: State, e: Event, s': State) {
    match e
    case Commit(m) => MayCommit(s.manifests, m) && s' == s.(manifests := s.manifests[m.snapshotGuid := m])
    case Retain(all, cutoff, keepLast, keep) =>
      && Selected(all, s.manifests, s.manifests.Keys)
      && IsKeepSet(all, Policy(s.pins, cutoff, keepLast), keep)
      && s' == s.(manifests := Without(s.manifests, s.manifests.Keys - keep))
    case Clean(before, now, lost, after) =>
      && C.AllReadable(before, lost) && C.CleanedFrom(before, now, lost, after)
      && Stores(before, s.manifests) && Stores(after, s'.manifests) && s'.pins == s.pins
    case Pin(g) => s' == s.(pins := s.pins + {g})
    case Unpin(g) => s' == s.(pins := s.pins - {g})
  }

  /** Every link stays in the archive and in its dataset, and leads to a full. */
  ghost predicate Sound(a: Index) {
    && Keyed(a)
    && (forall g <- a :: BaseArchived(a, a[g]))
    && (forall g <- a :: ReachesFull(a, a[g]))
  }

  ghost predicate IsHistory(states: seq<State>, events: seq<Event>) {
    && |states| == |events| + 1
    && states[0].manifests == map[]
    && forall i {:trigger events[i]} :: 0 <= i < |events| ==> Next(states[i], events[i], states[i + 1])
  }

  /** What soundness buys: each listed snapshot has a complete restore chain, without repetition,
      from a full to itself, all in its own dataset. */
  ghost predicate Restores(a: Index, tip: Manifest) {
    var r := WalkFrom(a, tip);
    r.Complete? && Restorable(a, r.chain, tip) && forall m <- r.chain :: m.datasetGuid == tip.datasetGuid
  }

  lemma SoundRestores(a: Index, g: Guid)
    requires Sound(a) && g in a
    ensures Restores(a, a[g])
  {
    WalkOutcome(a, a[g]);
    OneDataset(a, WalkFrom(a, a[g]).chain, a[g]);
  }

  lemma {:induction false} OneDataset(a: Index, chain: seq<Manifest>, tip: Manifest)
    requires Sound(a) && Restorable(a, chain, tip) && tip.snapshotGuid in a && a[tip.snapshotGuid] == tip
    ensures forall m <- chain :: m.datasetGuid == tip.datasetGuid
  {
    hide ReachesFull;
    var n := |chain| - 1;
    var i := n;
    while i > 0
      invariant 0 <= i <= n
      invariant forall k :: i <= k <= n ==> chain[k].datasetGuid == tip.datasetGuid
    {
      assert chain[i].from == Some(chain[i - 1].snapshotGuid);
      assert BaseArchived(a, a[chain[i].snapshotGuid]);
      i := i - 1;
    }
  }

  lemma {:induction false} BehindInLarger(a: Index, b: Index, tip: Manifest, k: nat)
    requires Within(a, b) && Behind(a, tip, k).Some?
    ensures Behind(b, tip, k) == Behind(a, tip, k)
  {
    if k > 0 {
      BehindInLarger(a, b, tip, k - 1);
    }
  }

  lemma {:induction false} BehindOneMore(a: Index, tip: Manifest, k: nat)
    requires tip.from.Some? && tip.from.value in a
    ensures Behind(a, tip, k + 1) == Behind(a, a[tip.from.value], k)
  {
    if k > 0 {
      BehindOneMore(a, tip, k - 1);
    }
  }

  lemma ReachesInLarger(a: Index, b: Index, tip: Manifest)
    requires Within(a, b) && ReachesFull(a, tip)
    ensures ReachesFull(b, tip)
  {
    var k: nat :| Behind(a, tip, k).Some? && Behind(a, tip, k).value.from.None?;
    BehindInLarger(a, b, tip, k);
  }

  /** A commit keeps a sound archive sound exactly when its base, if any, is still archived in the
      same dataset: a base expired between its choice and the commit would leave a broken chain. */
  lemma CommitSoundExactly(a: Index, m: Manifest)
    requires Sound(a) && m.snapshotGuid !in a
    ensures Sound(a[m.snapshotGuid := m]) <==> BaseArchived(a, m)
  {
    var b := a[m.snapshotGuid := m];
    if BaseArchived(a, m) {
      forall g <- b
        ensures ReachesFull(b, b[g])
      {
        if g != m.snapshotGuid {
          ReachesInLarger(a, b, a[g]);
        } else {
          NewReaches(a, b, m);
        }
      }
    } else if Sound(b) {
      assert BaseArchived(b, b[m.snapshotGuid]);
      assert m.from == Some(m.snapshotGuid);
      OwnBaseNeverEnds(b, m);
    }
  }

  lemma NewReaches(a: Index, b: Index, m: Manifest)
    requires Sound(a) && BaseArchived(a, m) && Within(a, b)
    ensures ReachesFull(b, m)
  {
    if m.from.None? {
      assert Behind(b, m, 0) == Some(m);
    } else {
      var base := a[m.from.value];
      ReachesInLarger(a, b, base);
      var k: nat :| Behind(b, base, k).Some? && Behind(b, base, k).value.from.None?;
      BehindOneMore(b, m, k);
    }
  }

  /** For any archive, sound or not: what is committed can be restored exactly if it is a full, or its
      base is archived and can itself be restored. That the base is archived, which is all a send
      looks at, is not enough. */
  lemma CommitReachesExactly(a: Index, m: Manifest)
    requires Keyed(a) && m.snapshotGuid !in a
    ensures ReachesFull(a[m.snapshotGuid := m], m)
      <==> m.IsFull() || (m.from.value in a && ReachesFull(a, a[m.from.value]))
  {
    var b := a[m.snapshotGuid := m];
    if m.IsFull() {
      assert Behind(b, m, 0) == Some(m);
    } else if m.from.value in a && ReachesFull(a, a[m.from.value]) {
      ReachesInLarger(a, b, a[m.from.value]);
      var k: nat :| Behind(b, a[m.from.value], k).Some? && Behind(b, a[m.from.value], k).value.IsFull();
      BehindOneMore(b, m, k);
    } else if ReachesFull(b, m) {
      BaseReaches(a, b, m);
    }
  }

  lemma BaseReaches(a: Index, b: Index, m: Manifest)
    requires Keyed(a) && m.snapshotGuid !in a && b == a[m.snapshotGuid := m]
    requires ReachesFull(b, m) && m.from.Some?
    ensures m.from.value in a && ReachesFull(a, a[m.from.value])
  {
    var f := m.from.value;
    var k: nat :| Behind(b, m, k).Some? && Behind(b, m, k).value.IsFull();
    if f == m.snapshotGuid {
      OwnBaseNeverEnds(b, m);
    }
    assert k > 0;
    if f !in a {
      assert Behind(b, m, 1).None?;
      StaysNone(b, m, 1, k);
    }
    BehindOneMore(b, m, k - 1);
    AvoidsNew(a, b, m, k - 1);
    assert Behind(a, a[f], k - 1).value.IsFull();
  }

  /** A path from its base that ends never comes back to the new backup. */
  lemma {:induction false} AvoidsNew(a: Index, b: Index, m: Manifest, k: nat)
    requires Keyed(a) && m.snapshotGuid !in a && b == a[m.snapshotGuid := m]
    requires ReachesFull(b, m) && m.from.Some? && m.from.value in a
    requires Behind(b, a[m.from.value], k).Some?
    ensures Behind(a, a[m.from.value], k) == Behind(b, a[m.from.value], k)
  {
    hide ReachesFull;
    var base := a[m.from.value];
    if k > 0 {
      AvoidsNew(a, b, m, k - 1);
      BehindOneMore(b, m, k);
      if Behind(b, base, k) == Some(m) {
        assert Behind(b, m, 0) == Some(m) && Behind(b, m, k + 1) == Some(m);
        assert Revisits(b, m);
        WalkOutcome(b, m);
      }
    }
  }

  lemma OwnBaseNeverEnds(b: Index, m: Manifest)
    requires m.snapshotGuid in b && b[m.snapshotGuid] == m && m.from == Some(m.snapshotGuid)
    ensures !ReachesFull(b, m)
  {
    if ReachesFull(b, m) {
      var k: nat :| Behind(b, m, k).Some? && Behind(b, m, k).value.from.None?;
      AlwaysItself(b, m, k);
    }
  }

  lemma {:induction false} AlwaysItself(b: Index, m: Manifest, k: nat)
    requires m.snapshotGuid in b && b[m.snapshotGuid] == m && m.from == Some(m.snapshotGuid)
    ensures Behind(b, m, k) == Some(m)
  {
    if k > 0 {
      AlwaysItself(b, m, k - 1);
    }
  }

  /** No link leads out of `keep`. */
  ghost predicate ClosedIn(a: Index, keep: set<Guid>) {
    forall g <- a :: g in keep && a[g].from.Some? ==> a[g].from.value in keep
  }

  lemma {:induction false} KeptBehind(a: Index, keep: set<Guid>, tip: Guid, k: nat)
    requires Sound(a) && ClosedIn(a, keep) && tip in a && tip in keep
    requires Behind(a, a[tip], k).Some?
    ensures var m := Behind(a, a[tip], k).value;
      m.snapshotGuid in keep && m.snapshotGuid in a && a[m.snapshotGuid] == m
    ensures Behind(Without(a, a.Keys - keep), a[tip], k) == Behind(a, a[tip], k)
  {
    hide ReachesFull;
    if k > 0 {
      KeptBehind(a, keep, tip, k - 1);
    }
  }

  /** A sound archive stays sound without what a closed set leaves out. */
  lemma ClosedSound(a: Index, keep: set<Guid>)
    requires Sound(a) && ClosedIn(a, keep)
    ensures Sound(Without(a, a.Keys - keep))
  {
    var b := Without(a, a.Keys - keep);
    forall g <- b
      ensures BaseArchived(b, b[g]) && ReachesFull(b, b[g])
    {
      assert BaseArchived(a, a[g]);
      var k: nat :| Behind(a, a[g], k).Some? && Behind(a, a[g], k).value.IsFull();
      KeptBehind(a, keep, g, k);
    }
  }

  lemma KeepSetClosed(a: Index, all: seq<Manifest>, p: Policy, keep: set<Guid>, part: Index)
    requires Selected(all, a, a.Keys) && IsKeepSet(all, p, keep) && Within(part, a)
    requires forall g <- part :: BaseArchived(part, part[g])
    ensures ClosedIn(part, keep)
  {
    hide Seeds, LastByGuid, Least;
    forall g <- part | g in keep && part[g].from.Some?
      ensures part[g].from.value in keep
    {
      assert BaseArchived(part, part[g]);
      assert Followed(LastByGuid(all), keep, g);
    }
  }

  lemma RetainSound(a: Index, all: seq<Manifest>, p: Policy, keep: set<Guid>)
    requires Sound(a) && Selected(all, a, a.Keys) && IsKeepSet(all, p, keep)
    ensures Sound(Without(a, a.Keys - keep))
  {
    KeepSetClosed(a, all, p, keep, a);
    ClosedSound(a, keep);
  }

  lemma NextSound(s: State, e: Event, s': State)
    requires Sound(s.manifests) && Next(s, e, s')
    ensures Sound(s'.manifests)
  {
    hide IsKeepSet, Selected, ReachesFull;
    match e
    case Commit(m) => CommitSoundExactly(s.manifests, m);
    case Clean(before, now, lost, after) =>
      CleanKeepsArchive(before, now, lost, after, s.manifests, s'.manifests);
    case Retain(all, cutoff, keepLast, keep) => RetainSound(s.manifests, all, Policy(s.pins, cutoff, keepLast), keep);
    case _ =>
  }

  /** In every state of every history, every listed snapshot restores. */
  lemma {:induction false} HistoryRestores(states: seq<State>, events: seq<Event>, i: nat)
    requires IsHistory(states, events) && i < |states|
    ensures Sound(states[i].manifests)
    ensures forall g <- states[i].manifests :: Restores(states[i].manifests, states[i].manifests[g])
  {
    if i > 0 {
      HistoryRestores(states, events, i - 1);
      NextSound(states[i - 1], events[i - 1], states[i]);
    }
    forall g <- states[i].manifests
      ensures Restores(states[i].manifests, states[i].manifests[g])
    {
      SoundRestores(states[i].manifests, g);
    }
  }

  // ---- From the choice of a base to the commit ------------------------------------------------

  /** Every retention run between `i` and `j` needs `g`, by what it lists and its policy. */
  ghost predicate KeptBetween(states: seq<State>, events: seq<Event>, i: nat, j: nat, g: Guid) {
    forall k: nat :: i <= k < j && k < |events| && k < |states| && events[k].Retain? ==>
      NeededBy(states[k], events[k], g)
  }

  ghost predicate NeededBy(s: State, e: Event, g: Guid)
    requires e.Retain?
  {
    Needed(e.all, Policy(s.pins, e.cutoff, e.keepLast), g)
  }

  ghost predicate CommittedBetween(events: seq<Event>, i: nat, j: nat, g: Guid) {
    exists k: nat :: i <= k < j && k < |events| && events[k].Commit? && events[k].m.snapshotGuid == g
  }

  /** A base archived when it was chosen is archived in the same dataset when the incremental commits,
      exactly if every retention run between needs it, unless it was archived again. */
  lemma {:induction false} BaseSurvivesExactly(states: seq<State>, events: seq<Event>, i: nat, j: nat, base: Guid,
                                               ds: Guid)
    requires IsHistory(states, events) && i <= j < |states|
    requires BaseIn(states[i].manifests, Some(base), ds)
    requires !CommittedBetween(events, i, j, base)
    ensures base in states[j].manifests <==> KeptBetween(states, events, i, j, base)
    ensures base in states[j].manifests ==> states[j].manifests[base] == states[i].manifests[base]
  {
    assert base in states[i].manifests;
    if i == j {
      assert KeptBetween(states, events, i, j, base);
    } else {
      assert Next(states[j - 1], events[j - 1], states[j]);
      assert |events| < |states|;
      hide *;
      BetweenNext(states, events, i, j, base);
      BaseSurvivesExactly(states, events, i, j - 1, base, ds);
      BaseStep(states[j - 1], events[j - 1], states[j], base);
    }
  }

  lemma BetweenNext(states: seq<State>, events: seq<Event>, i: nat, j: nat, g: Guid)
    requires i < j <= |events| < |states|
    ensures var e := events[j - 1];
      && (CommittedBetween(events, i, j, g) <==>
            CommittedBetween(events, i, j - 1, g) || (e.Commit? && e.m.snapshotGuid == g))
      && (KeptBetween(states, events, i, j, g) <==>
            KeptBetween(states, events, i, j - 1, g) && (e.Retain? ==> NeededBy(states[j - 1], e, g)))
  {
    hide Needed;
    var e := events[j - 1];
    if CommittedBetween(events, i, j - 1, g) {
      var k: nat :| i <= k < j - 1 && k < |events| && events[k].Commit? && events[k].m.snapshotGuid == g;
    }
  }

  lemma BaseStep(s: State, e: Event, s': State, g: Guid)
    requires Next(s, e, s') && (e.Commit? ==> e.m.snapshotGuid != g)
    ensures g in s'.manifests <==> g in s.manifests && (e.Retain? ==> NeededBy(s, e, g))
    ensures g in s'.manifests ==> s'.manifests[g] == s.manifests[g]
  {
    if e.Retain? {
      KeptExactly(e.all, Policy(s.pins, e.cutoff, e.keepLast), e.keep);
    }
    hide IsKeepSet, Selected, Stores, C.CleanedFrom, C.AllReadable, Needed;
    match e
    case Clean(before, now, lost, after) => CleanKeepsArchive(before, now, lost, after, s.manifests, s'.manifests);
    case _ =>
  }

  /** A send composed with a history: whatever base was chosen from the listing of one state, the
      commit in a later state keeps every listed snapshot restorable exactly when every retention
      run between needs the base. */
  lemma SendSoundExactly(states: seq<State>, events: seq<Event>, i: nat, j: nat, m: Manifest)
    requires IsHistory(states, events) && i <= j < |states|
    requires BaseIn(states[i].manifests, m.from, m.datasetGuid)
    requires m.snapshotGuid !in states[j].manifests
    requires m.from.Some? ==> !CommittedBetween(events, i, j, m.from.value)
    ensures Sound(states[j].manifests[m.snapshotGuid := m])
      <==> m.from.None? || KeptBetween(states, events, i, j, m.from.value)
  {
    HistoryRestores(states, events, j);
    CommitSoundExactly(states[j].manifests, m);
    if m.from.Some? {
      BaseSurvivesExactly(states, events, i, j, m.from.value, m.datasetGuid);
    }
  }

  /** It can be left out: a full, a newer full of the same dataset, and a run that keeps one. Whoever
      chose the older as its base before the run must not commit after it. */
  lemma BaseExpiredBetween(full: Manifest, newer: Manifest, m: Manifest)
    returns (states: seq<State>, events: seq<Event>)
    requires full.from.None? && newer.from.None? && m.from == Some(full.snapshotGuid)
    requires full.datasetGuid == newer.datasetGuid == m.datasetGuid && full.createdAt < newer.createdAt
    requires full.snapshotGuid != newer.snapshotGuid && m.snapshotGuid != newer.snapshotGuid
    requires m.snapshotGuid != full.snapshotGuid
    ensures IsHistory(states, events) && |states| == 4
    ensures BaseIn(states[1].manifests, m.from, m.datasetGuid)
    ensures !Sound(states[3].manifests[m.snapshotGuid := m])
  {
    var f, n := full.snapshotGuid, newer.snapshotGuid;
    var a1, a2, a3 := map[f := full], map[f := full, n := newer], map[n := newer];
    events := [Commit(full), Commit(newer), Retain([full, newer], None, 1, {n})];
    states := [State(map[], {}), State(a1, {}), State(a2, {}), State(a3, {})];
    assert Next(states[0], events[0], states[1]);
    assert Next(states[1], events[1], states[2]);
    KeepsTheNewer(full, newer);
    BrokenBase(a3, m);
    assert BaseIn(a1, m.from, m.datasetGuid);
    hide Next, Sound;
  }

  lemma KeepsTheNewer(full: Manifest, newer: Manifest)
    requires newer.from.None? && full.datasetGuid == newer.datasetGuid && full.createdAt < newer.createdAt
    requires full.snapshotGuid != newer.snapshotGuid
    ensures var n := newer.snapshotGuid;
      var a := map[full.snapshotGuid := full, n := newer];
      Next(State(a, {}), Retain([full, newer], None, 1, {n}), State(map[n := newer], {}))
  {
    NewestKept(full, newer, Policy({}, None, 1));
    TwoIndexed(full, newer);
    hide IsKeepSet, LastByGuid;
    var f, n := full.snapshotGuid, newer.snapshotGuid;
    var a := map[f := full, n := newer];
    assert a == map g | g in a && g in a.Keys :: a[g];
    assert Without(a, a.Keys - {n}) == map[n := newer];
  }

  lemma BrokenBase(a: Index, m: Manifest)
    requires m.from.Some? && m.from.value !in a && m.from.value != m.snapshotGuid
    ensures !Sound(a[m.snapshotGuid := m])
  {
    var b := a[m.snapshotGuid := m];
    assert m.snapshotGuid in b && !BaseArchived(b, b[m.snapshotGuid]);
  }
}
