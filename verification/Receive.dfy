/** `receive`: the prefetch window, one stream, and the replay of a whole chain. */
module Receiving {
  import opened Bytes
  import opened Manifests
  import opened Chains
  import opened Chunking
  import P = Protocol

  // ---- How far ahead to fetch ----------------------------------------------------------------

  const PREFETCH_BUDGET := 0x2000_0000 // 512 MiB
  const MIN_INFLIGHT := 2

  /** The most fetches in flight, for a stream cut into chunks of `chunk` bytes. */
  function PrefetchCeiling(window: nat, chunk: nat): nat {
    var byBytes := if chunk == 0 then window else Max(PREFETCH_BUDGET / chunk, 1);
    Max(Min(Max(window, 1), byBytes), Floor(window))
  }

  function Floor(window: nat): nat { Min(MIN_INFLIGHT, Max(window, 1)) }

  /** The ceiling is the largest depth the window and the byte budget allow, or the floor of two
      (one, for a window of one) where not even that fits; so it breaks the budget exactly when
      the floor does. */
  lemma CeilingExactly(window: nat, chunk: nat)
    ensures var r := PrefetchCeiling(window, chunk);
      && Floor(window) <= r <= Max(window, 1)
      && (r * chunk > PREFETCH_BUDGET <==> Floor(window) * chunk > PREFETCH_BUDGET)
      && (r * chunk <= PREFETCH_BUDGET ==> forall n: nat :: r < n <= Max(window, 1) ==> n * chunk > PREFETCH_BUDGET)
      && (r * chunk > PREFETCH_BUDGET ==> r == Floor(window))
  {
    if chunk > 0 {
      var q := PREFETCH_BUDGET / chunk;
      QuotientFits(chunk);
      CeilingAround(Floor(window), Max(window, 1), q, chunk);
    }
  }

  lemma SomeCeiling(window: nat, chunk: nat)
    ensures PrefetchCeiling(window, chunk) > 0
  {
  }

  lemma QuotientFits(chunk: nat)
    requires chunk > 0
    ensures PREFETCH_BUDGET / chunk * chunk <= PREFETCH_BUDGET < (PREFETCH_BUDGET / chunk + 1) * chunk
  {
  }

  /** `q` is the greatest multiple that fits; `r` is the nearest to it between the bounds. */
  lemma CeilingAround(floor: nat, most: nat, q: nat, chunk: nat)
    requires 0 < floor <= most && q * chunk <= PREFETCH_BUDGET < (q + 1) * chunk
    ensures var r := Max(Min(most, Max(q, 1)), floor);
      && floor <= r <= most
      && (r * chunk > PREFETCH_BUDGET <==> floor * chunk > PREFETCH_BUDGET)
      && (r * chunk <= PREFETCH_BUDGET ==> forall n: nat :: r < n <= most ==> n * chunk > PREFETCH_BUDGET)
      && (r * chunk > PREFETCH_BUDGET ==> r == floor)
  {
    var r := Max(Min(most, Max(q, 1)), floor);
    if q < floor {
      assert r == floor;
      TimesMonotone(q + 1, r, chunk);
    } else {
      TimesMonotone(r, q, chunk);
      TimesMonotone(floor, r, chunk);
      forall n: nat | r < n <= most
        ensures n * chunk > PREFETCH_BUDGET
      {
        TimesMonotone(q + 1, n, chunk);
      }
    }
  }

  lemma TimesMonotone(a: nat, b: nat, c: nat)
    requires a <= b
    ensures a * c <= b * c
  {
  }

  /** In numbers: two fetches at least, one if only one is asked for; never more than asked for; and
      512 MiB at most unless two chunks are more than that. */
  lemma CeilingInNumbers(window: nat, chunk: nat)
    ensures var r := PrefetchCeiling(window, chunk);
      && (window <= 1 ==> r == 1)
      && (window >= 2 ==> 2 <= r <= window)
      && (r > 2 ==> r * chunk <= 512 * 1024 * 1024)
      && (2 <= r < window ==> (r + 1) * chunk > 512 * 1024 * 1024)
  {
    CeilingExactly(window, chunk);
    var r := PrefetchCeiling(window, chunk);
    if 2 <= r < window {
      TimesMonotone(r, r + 1, chunk);
    }
  }

  /** The next target: one less after a fetch that was `ready`, one more after one that was not. */
  function Adapt(target: nat, ready: bool, floor: nat, ceiling: nat): nat {
    if ready then Max(if target == 0 then 0 else target - 1, floor) else Min(target + 1, ceiling)
  }

  /** The depth aimed for after these chunks were taken. */
  function TargetAfter(ready: seq<bool>, floor: nat, ceiling: nat): nat {
    if ready == [] then floor
    else Adapt(TargetAfter(ready[..|ready| - 1], floor, ceiling), ready[|ready| - 1], floor, ceiling)
  }

  /** Fetches in flight once `taken` of `n` chunks were taken and the window was filled up. */
  function InFlight(ready: seq<bool>, taken: nat, n: nat, floor: nat, ceiling: nat): nat
    requires taken <= n && taken <= |ready|
  {
    Min(TargetAfter(ready[..taken], floor, ceiling), n - taken)
  }

  /** Whatever the timing: the target stays in its bounds and moves by at most one; the chunk being
      written and the fetches in flight beside it never exceed the ceiling; and the moment the
      window is filled again, with that chunk still held, they do exactly when the target has
      reached the ceiling and at least that many chunks are left. */
  lemma {:induction false} PrefetchBounds(ready: seq<bool>, taken: nat, n: nat, floor: nat, ceiling: nat)
    requires 0 < floor <= ceiling && taken <= n && taken <= |ready|
    ensures var t := TargetAfter(ready[..taken], floor, ceiling);
      && floor <= t <= ceiling
      && InFlight(ready, taken, n, floor, ceiling) <= ceiling
      && (0 < taken ==> -1 <= t - TargetAfter(ready[..taken - 1], floor, ceiling) <= 1)
      && (1 + InFlight(ready, taken, n, floor, ceiling) > ceiling <==> t == ceiling && n - taken >= ceiling)
  {
    if taken > 0 {
      assert ready[..taken][..taken - 1] == ready[..taken - 1];
      PrefetchBounds(ready, taken - 1, n, floor, ceiling);
    }
  }

  /** After `taken` chunks the window is filled while the last of them is still held, and there are
      more chunks in memory than the ceiling. */
  ghost predicate Exceeds(ready: seq<bool>, taken: nat, n: nat, floor: nat, ceiling: nat) {
    0 < taken <= n && |ready| == n && 1 + InFlight(ready, taken, n, floor, ceiling) > ceiling
  }

  /** For a stream of `n` chunks some timing makes that happen exactly when the target has the chunks
      to climb to the ceiling, and as many as the ceiling are left then. */
  lemma ExceedsExactly(n: nat, floor: nat, ceiling: nat)
    requires 0 < floor <= ceiling
    ensures (exists ready: seq<bool>, taken: nat :: Exceeds(ready, taken, n, floor, ceiling))
      <==> n >= ceiling + Max(1, ceiling - floor)
  {
    if n >= ceiling + Max(1, ceiling - floor) {
      var ready, taken := seq(n, i => false), Max(1, ceiling - floor);
      TargetClimbs(ready[..taken], floor, ceiling);
      assert Exceeds(ready, taken, n, floor, ceiling);
    }
    forall ready: seq<bool>, taken: nat | Exceeds(ready, taken, n, floor, ceiling)
      ensures n >= ceiling + Max(1, ceiling - floor)
    {
      ClimbsOneByOne(ready[..taken], floor, ceiling);
    }
  }

  lemma {:induction false} ClimbsOneByOne(ready: seq<bool>, floor: nat, ceiling: nat)
    requires 0 < floor <= ceiling
    ensures floor <= TargetAfter(ready, floor, ceiling) <= Min(floor + |ready|, ceiling)
  {
    if ready != [] {
      ClimbsOneByOne(ready[..|ready| - 1], floor, ceiling);
    }
  }

  /** If every chunk has to be waited for, the target climbs one by one to the ceiling. */
  lemma {:induction false} TargetClimbs(ready: seq<bool>, floor: nat, ceiling: nat)
    requires floor <= ceiling && forall i :: 0 <= i < |ready| ==> !ready[i]
    ensures TargetAfter(ready, floor, ceiling) == Min(floor + |ready|, ceiling)
  {
    if ready != [] {
      TargetClimbs(ready[..|ready| - 1], floor, ceiling);
    }
  }

  /** If every chunk is already there, it falls back to the floor. */
  lemma {:induction false} TargetSettles(slow: seq<bool>, fast: seq<bool>, floor: nat, ceiling: nat)
    requires floor <= ceiling && forall i :: 0 <= i < |fast| ==> fast[i]
    requires floor <= TargetAfter(slow, floor, ceiling) <= ceiling
    ensures TargetAfter(slow + fast, floor, ceiling)
         == var t := TargetAfter(slow, floor, ceiling); Max(floor, if |fast| <= t then t - |fast| else 0)
  {
    if fast == [] {
      assert slow + fast == slow;
    } else {
      var front := fast[..|fast| - 1];
      assert (slow + fast)[..|slow + fast| - 1] == slow + front;
      TargetSettles(slow, front, floor, ceiling);
    }
  }

  // ---- Fetching and writing one stream ---------------------------------------------------------

  /** What a fetch yields: the store's answer, if it is what the manifest says. */
  function Fetched(c: Chunk, answer: Option<seq<Byte>>, digest: Digest): Option<seq<Byte>> {
    if answer.Some? && |answer.value| == c.bytes && digest(answer.value) == c.digest then answer else None
  }

  ghost predicate Good(m: Manifest, answers: seq<Option<seq<Byte>>>, digest: Digest, k: nat)
    requires |answers| == |m.chunks|
  {
    forall i: nat :: i < k && i < |answers| ==> Fetched(m.chunks[i], answers[i], digest).Some?
  }

  /** The answers' bytes, in order. */
  function Delivered(answers: seq<Option<seq<Byte>>>): seq<Byte> {
    if answers == [] then []
    else Delivered(answers[..|answers| - 1]) + (match answers[|answers| - 1] case Some(d) => d case None => [])
  }

  /** `zfs receive` on the target dataset: the streams applied in full, and what it has of the
      next one. */
  class Target {
    var applied: seq<seq<Byte>>
    var partial: Option<seq<Byte>>
    /** What it had of the present stream after each write. */
    ghost var sent: seq<seq<Byte>>
    ghost var faults: nat // how often it, or the pipe to it, failed
    ghost var kept: nat // how often it could not be made to forget a partial stream

    /** What has been written cannot be taken back. */
    ghost predicate Valid()
      reads this
    {
      partial.Some? ==> sent != [] && Growing(sent) && sent[|sent| - 1] == partial.value
    }

    method Begin()
      modifies this
      ensures Valid() && applied == old(applied) && partial == Some([])
      ensures faults == old(faults) && kept == old(kept)
    {
      partial, sent := Some([]), [[]];
    }

    /** Write it all, or break off somewhere. */
    method WriteAll(data: seq<Byte>) returns (ok: bool)
      requires Valid() && partial.Some?
      modifies this`partial, this`sent, this`faults
      ensures Valid() && partial.Some? && old(sent) <= sent
      ensures faults == old(faults) + if ok then 0 else 1
      ensures ok ==> partial.value == old(partial).value + data
      ensures !ok ==> old(partial).value <= partial.value <= old(partial).value + data
    {
      ok := *;
      var n: nat :| n <= |data|;
      if ok {
        n := |data|;
        assert data[..n] == data;
      }
      partial := Some(partial.value + data[..n]);
      sent := sent + [partial.value];
      faults := faults + if ok then 0 else 1;
    }

    method Finish() returns (ok: bool)
      requires partial.Some?
      modifies this`applied, this`partial, this`faults
      ensures faults == old(faults) + if ok then 0 else 1
      ensures ok ==> applied == old(applied) + [old(partial).value] && partial.None?
      ensures !ok ==> applied == old(applied) && partial == old(partial)
    {
      ok := *;
      faults := faults + if ok then 0 else 1;
      if ok {
        applied, partial := applied + [partial.value], None;
      }
    }

    /** Forget what it has of a stream that will not be completed. */
    method Abort()
      modifies this`partial, this`kept
      ensures kept == old(kept) + if partial.None? then 0 else 1
    {
      var cleared: bool := *;
      if cleared {
        partial := None;
      }
      kept := kept + if partial.None? then 0 else 1;
    }
  }

  ghost predicate Growing(sent: seq<seq<Byte>>) {
    forall i, j :: 0 <= i <= j < |sent| ==> sent[i] <= sent[j]
  }

  /** At no time was anything sent that is not a beginning of `out`. */
  ghost predicate AlwaysWithin(sent: seq<seq<Byte>>, out: seq<Byte>) {
    forall x <- sent :: x <= out
  }

  lemma GrewInto(sent: seq<seq<Byte>>, out: seq<Byte>)
    requires Growing(sent) && sent != [] && sent[|sent| - 1] == out
    ensures AlwaysWithin(sent, out)
  {
  }

  /** `BrokenPipe`: writing chunk `k` failed. `Rejected`: all was written, and `zfs receive` failed. */
  datatype Applying = Applied | BadChunk(k: nat) | BrokenPipe(k: nat) | Rejected

  /** `inflight` are the fetches of consecutive chunks, from chunk `taken` on. */
  ghost predicate Fetching(m: Manifest, answers: seq<Option<seq<Byte>>>, digest: Digest, taken: nat,
                           inflight: seq<Option<seq<Byte>>>)
    requires |answers| == |m.chunks|
  {
    && taken + |inflight| <= |m.chunks|
    && forall i :: 0 <= i < |inflight| ==> inflight[i] == Fetched(m.chunks[taken + i], answers[taken + i], digest)
  }

  /** Start fetches until `target` are in flight or none is left to start. */
  method SpawnUpTo(m: Manifest, answers: seq<Option<seq<Byte>>>, digest: Digest, target: nat,
                   inflight: seq<Option<seq<Byte>>>, next: nat)
    returns (inflight': seq<Option<seq<Byte>>>, next': nat)
    requires |answers| == |m.chunks| && |inflight| <= next <= |m.chunks|
    requires Fetching(m, answers, digest, next - |inflight|, inflight) && |inflight| <= target
    ensures next <= next' <= |m.chunks| && next' - |inflight'| == next - |inflight|
    ensures |inflight'| == Min(target, |m.chunks| - (next - |inflight|))
    ensures Fetching(m, answers, digest, next - |inflight|, inflight')
  {
    inflight', next' := inflight, next;
    while |inflight'| < target && next' < |m.chunks|
      invariant next <= next' <= |m.chunks| && next' - |inflight'| == next - |inflight|
      invariant |inflight'| <= target
      invariant Fetching(m, answers, digest, next - |inflight|, inflight')
    {
      inflight' := inflight' + [Fetched(m.chunks[next'], answers[next'], digest)];
      next' := next' + 1;
    }
  }

  /** Every time the window was filled, it held what the timing so far calls for. */
  ghost predicate Depths(ready: seq<bool>, n: nat, floor: nat, ceiling: nat, depth: seq<nat>) {
    && |depth| <= n + 1 && n <= |ready|
    && forall k :: 0 <= k < |depth| ==> depth[k] == InFlight(ready, k, n, floor, ceiling)
  }

  /** What has been written is what the first `taken` fetches brought. */
  ghost predicate Written(m: Manifest, answers: seq<Option<seq<Byte>>>, digest: Digest, taken: nat,
                          out: Option<seq<Byte>>, bytes: nat)
    requires |answers| == |m.chunks|
  {
    && taken <= |answers| && Good(m, answers, digest, taken)
    && out == Some(Delivered(answers[..taken])) && bytes == |out.value|
  }

  lemma WrittenNext(m: Manifest, answers: seq<Option<seq<Byte>>>, digest: Digest, taken: nat, out: seq<Byte>,
                    bytes: nat, d: seq<Byte>)
    requires |answers| == |m.chunks| && taken < |answers|
    requires Written(m, answers, digest, taken, Some(out), bytes)
    requires Fetched(m.chunks[taken], answers[taken], digest) == Some(d)
    ensures Written(m, answers, digest, taken + 1, Some(out + d), bytes + |d|)
  {
    assert answers[..taken + 1][..taken] == answers[..taken];
  }

  /** `r` is how it ends, after which `zfs receive` has `out` of the stream. */
  ghost predicate EndsAs(r: Applying, m: Manifest, answers: seq<Option<seq<Byte>>>, digest: Digest, out: seq<Byte>)
    requires |answers| == |m.chunks|
  {
    match r
    case Applied => Good(m, answers, digest, |answers|) && out == Delivered(answers)
    case BadChunk(k) =>
      && k < |answers| && Good(m, answers, digest, k)
      && Fetched(m.chunks[k], answers[k], digest).None?
      && out == Delivered(answers[..k])
    case BrokenPipe(k) =>
      && k < |answers| && Good(m, answers, digest, k + 1)
      && Delivered(answers[..k]) <= out <= Delivered(answers[..k + 1])
    case Rejected => Good(m, answers, digest, |answers|) && out == Delivered(answers)
  }

  /** How many chunks were written in full. */
  function Completed(r: Applying, n: nat): nat {
    match r
    case BadChunk(k) => k
    case BrokenPipe(k) => k
    case _ => n
  }

  function ChunkBytes(m: Manifest): nat {
    if m.chunks == [] then 0 else m.chunks[0].bytes
  }

  /** Apply one stream. `answers` is what the store returns for each chunk, `ready` whether it has
      arrived when the writer wants it: both arbitrary. `depth` records how many fetches were in
      flight each time the window was filled. */
  method Apply(m: Manifest, window: nat, answers: seq<Option<seq<Byte>>>, ready: seq<bool>, digest: Digest, zfs: Target)
    returns (r: Applying, bytes: nat, ghost depth: seq<nat>)
    requires |answers| == |m.chunks| && |ready| == |m.chunks|
    modifies zfs
    ensures r.Applied? ==>
      && zfs.applied == old(zfs.applied) + [Delivered(answers)] && zfs.partial.None?
      && EndsAs(r, m, answers, digest, Delivered(answers)) && bytes == |Delivered(answers)|
      && AlwaysWithin(zfs.sent, Delivered(answers))
    ensures !r.Applied? ==>
      && zfs.applied == old(zfs.applied) && zfs.partial.Some?
      && EndsAs(r, m, answers, digest, zfs.partial.value)
      && AlwaysWithin(zfs.sent, zfs.partial.value)
    ensures var ceiling := PrefetchCeiling(window, ChunkBytes(m));
      Depths(ready, |m.chunks|, Min(MIN_INFLIGHT, ceiling), ceiling, depth)
    ensures |depth| == 1 + Completed(r, |m.chunks|)
    ensures zfs.faults >= old(zfs.faults) && (r.BrokenPipe? || r.Rejected? ==> zfs.faults > old(zfs.faults))
    ensures zfs.kept == old(zfs.kept)
  {
    hide Good, Fetched, PrefetchCeiling, InFlight, Depths, Delivered, Fetching, TargetAfter;
    hide Growing, AlwaysWithin, Written, EndsAs;
    var ceiling := PrefetchCeiling(window, ChunkBytes(m));
    var floor := Min(MIN_INFLIGHT, ceiling);
    var n := |m.chunks|;
    SomeCeiling(window, ChunkBytes(m));
    zfs.Begin();
    Starts(m, answers, digest, ready, floor, ceiling);
    var target, next, inflight := floor, 0, [];
    bytes := 0;
    ghost var taken := 0;
    inflight, next := SpawnUpTo(m, answers, digest, target, inflight, next);
    depth := [|inflight|];
    while inflight != []
      invariant zfs.applied == old(zfs.applied) && zfs.Valid() && zfs.faults == old(zfs.faults)
      invariant zfs.kept == old(zfs.kept)
      invariant |depth| == taken + 1 && next == taken + |inflight| <= n
      invariant floor <= target <= ceiling && target == TargetAfter(ready[..taken], floor, ceiling)
      invariant |inflight| == Min(target, n - taken)
      invariant Fetching(m, answers, digest, taken, inflight)
      invariant zfs.partial.Some? && Written(m, answers, digest, taken, zfs.partial, bytes)
      invariant Depths(ready, n, floor, ceiling, depth)
      decreases n - taken
    {
      FrontAndRest(m, answers, digest, taken, inflight);
      var front, wasReady := inflight[0], ready[next - |inflight|];
      inflight := inflight[1..];
      if front.None? {
        GrewInto(zfs.sent, zfs.partial.value);
        EndsBad(m, answers, digest, taken, zfs.partial.value, bytes);
        return BadChunk(next - |inflight| - 1), bytes, depth;
      }
      NextTarget(ready, taken, floor, ceiling);
      target := Adapt(target, wasReady, floor, ceiling);
      WrittenNext(m, answers, digest, taken, zfs.partial.value, bytes, front.value);
      ghost var before := zfs.partial.value;
      var ok := zfs.WriteAll(front.value);
      if !ok {
        GrewInto(zfs.sent, zfs.partial.value);
        EndsBroken(m, answers, digest, taken, before, bytes, front.value, zfs.partial.value);
        return BrokenPipe(next - |inflight| - 1), bytes, depth;
      }
      bytes := bytes + |front.value|;
      taken := taken + 1;
      inflight, next := SpawnUpTo(m, answers, digest, target, inflight, next);
      Filled(ready, n, floor, ceiling, depth, |inflight|);
      depth := depth + [|inflight|];
    }
    GrewInto(zfs.sent, zfs.partial.value);
    EndsWhole(m, answers, digest, zfs.partial.value, bytes);
    var ok := zfs.Finish();
    r := if ok then Applied else Rejected;
  }

  lemma EndsBad(m: Manifest, answers: seq<Option<seq<Byte>>>, digest: Digest, k: nat, out: seq<Byte>, bytes: nat)
    requires |answers| == |m.chunks| && k < |answers| && Written(m, answers, digest, k, Some(out), bytes)
    requires Fetched(m.chunks[k], answers[k], digest).None?
    ensures EndsAs(BadChunk(k), m, answers, digest, out)
  {
  }

  lemma EndsBroken(m: Manifest, answers: seq<Option<seq<Byte>>>, digest: Digest, k: nat, before: seq<Byte>, bytes: nat,
                   d: seq<Byte>, out: seq<Byte>)
    requires |answers| == |m.chunks| && k < |answers| && Written(m, answers, digest, k, Some(before), bytes)
    requires Fetched(m.chunks[k], answers[k], digest) == Some(d) && before <= out <= before + d
    ensures EndsAs(BrokenPipe(k), m, answers, digest, out)
  {
    WrittenNext(m, answers, digest, k, before, bytes, d);
    hide Delivered, Good;
  }

  lemma EndsWhole(m: Manifest, answers: seq<Option<seq<Byte>>>, digest: Digest, out: seq<Byte>, bytes: nat)
    requires |answers| == |m.chunks| && Written(m, answers, digest, |answers|, Some(out), bytes)
    ensures out == Delivered(answers) && bytes == |out|
    ensures EndsAs(Applied, m, answers, digest, out) && EndsAs(Rejected, m, answers, digest, out)
  {
    assert answers[..|answers|] == answers;
  }

  lemma Starts(m: Manifest, answers: seq<Option<seq<Byte>>>, digest: Digest, ready: seq<bool>, floor: nat, ceiling: nat)
    requires |answers| == |m.chunks| == |ready|
    ensures Written(m, answers, digest, 0, Some([]), 0) && Fetching(m, answers, digest, 0, [])
    ensures Depths(ready, |m.chunks|, floor, ceiling, [Min(floor, |m.chunks|)])
    ensures TargetAfter(ready[..0], floor, ceiling) == floor
  {
  }

  lemma Filled(ready: seq<bool>, n: nat, floor: nat, ceiling: nat, depth: seq<nat>, inflight: nat)
    requires Depths(ready, n, floor, ceiling, depth) && |depth| <= n
    requires inflight == Min(TargetAfter(ready[..|depth|], floor, ceiling), n - |depth|)
    ensures Depths(ready, n, floor, ceiling, depth + [inflight])
  {
    hide TargetAfter;
  }

  lemma FrontAndRest(m: Manifest, answers: seq<Option<seq<Byte>>>, digest: Digest, taken: nat,
                     inflight: seq<Option<seq<Byte>>>)
    requires |answers| == |m.chunks| && Fetching(m, answers, digest, taken, inflight) && inflight != []
    ensures inflight[0] == Fetched(m.chunks[taken], answers[taken], digest)
    ensures Fetching(m, answers, digest, taken + 1, inflight[1..])
  {
  }

  lemma NextTarget(ready: seq<bool>, taken: nat, floor: nat, ceiling: nat)
    requires taken < |ready|
    ensures TargetAfter(ready[..taken + 1], floor, ceiling)
         == Adapt(TargetAfter(ready[..taken], floor, ceiling), ready[taken], floor, ceiling)
  {
    assert ready[..taken + 1][..taken] == ready[..taken];
  }

  // ---- What the buffers hold -------------------------------------------------------------------

  lemma FirstChunkLargest(m: Manifest, s: seq<Byte>, size: nat, digest: Digest, k: nat)
    requires DescribesStream(m, s, size, digest) && k < |m.chunks|
    ensures m.chunks[k].bytes <= ChunkBytes(m)
  {
    CutIsPartition(s, size);
  }

  lemma {:induction false} RunOfChunks(m: Manifest, s: seq<Byte>, size: nat, digest: Digest, k: nat, n: nat)
    requires DescribesStream(m, s, size, digest) && k + n <= |m.chunks|
    ensures TotalBytes(m.chunks[k..k + n]) <= n * ChunkBytes(m)
  {
    hide Cut, Describe;
    if n > 0 {
      var run := m.chunks[k..k + n];
      assert run[..n - 1] == m.chunks[k..k + (n - 1)];
      RunOfChunks(m, s, size, digest, k, n - 1);
      FirstChunkLargest(m, s, size, digest, k + n - 1);
      assert n * ChunkBytes(m) == (n - 1) * ChunkBytes(m) + ChunkBytes(m);
    }
  }

  /** While a chunk is being written, it and the fetches in flight stay within the byte budget, for
      every timing, unless the floor alone breaks it. */
  lemma WithinBudget(m: Manifest, s: seq<Byte>, size: nat, digest: Digest, window: nat, ready: seq<bool>, taken: nat)
    requires DescribesStream(m, s, size, digest) && taken <= |ready| == |m.chunks|
    ensures var ceiling := PrefetchCeiling(window, ChunkBytes(m));
      var n := InFlight(ready, taken, |m.chunks|, Min(MIN_INFLIGHT, ceiling), ceiling);
      && taken + n <= |m.chunks|
      && TotalBytes(m.chunks[taken..taken + n]) <= Max(PREFETCH_BUDGET, Floor(window) * ChunkBytes(m))
  {
    hide Cut, Describe, PrefetchCeiling;
    var chunk := ChunkBytes(m);
    var ceiling := PrefetchCeiling(window, chunk);
    CeilingExactly(window, chunk);
    PrefetchBounds(ready, taken, |m.chunks|, Min(MIN_INFLIGHT, ceiling), ceiling);
    var n := InFlight(ready, taken, |m.chunks|, Min(MIN_INFLIGHT, ceiling), ceiling);
    RunOfChunks(m, s, size, digest, taken, n);
    TimesMonotone(n, ceiling, chunk);
  }

  // ---- What arrives is the stream -----------------------------------------------------------------

  lemma {:induction false} DeliveredPieces(answers: seq<Option<seq<Byte>>>, pieces: seq<seq<Byte>>)
    requires |answers| == |pieces| && forall i :: 0 <= i < |pieces| ==> answers[i] == Some(pieces[i])
    ensures Delivered(answers) == Join(pieces)
  {
    if pieces != [] {
      var front, last := pieces[..|pieces| - 1], pieces[|pieces| - 1];
      DeliveredPieces(answers[..|pieces| - 1], front);
      JoinSnoc(front, last);
      assert pieces == front + [last];
    }
  }

  lemma {:induction false} JoinPrefix(pieces: seq<seq<Byte>>, k: nat)
    requires k <= |pieces|
    ensures Join(pieces[..k]) <= Join(pieces)
  {
    if k > 0 {
      assert pieces[..k][1..] == pieces[1..][..k - 1];
      JoinPrefix(pieces[1..], k - 1);
    }
  }

  /** A restore takes from an honest store exactly what verify passes. */
  lemma TakesWhatVerifies(m: Manifest, chunks: map<nat, seq<Byte>>, answers: seq<Option<seq<Byte>>>, digest: Digest)
    requires Honest(m, chunks, answers)
    requires forall i :: 0 <= i < |answers| && m.chunks[i].index !in chunks ==> answers[i] == None
    ensures Good(m, answers, digest, |m.chunks|) <==> forall c <- m.chunks :: ChunkMatches(c, chunks, digest)
  {
    if Good(m, answers, digest, |m.chunks|) {
      forall c <- m.chunks
        ensures ChunkMatches(c, chunks, digest)
      {
        var i: nat :| i < |m.chunks| && m.chunks[i] == c;
        assert Fetched(m.chunks[i], answers[i], digest).Some?;
      }
    }
    if forall c <- m.chunks :: ChunkMatches(c, chunks, digest) {
      forall i: nat | i < |answers|
        ensures Fetched(m.chunks[i], answers[i], digest).Some?
      {
        assert m.chunks[i] in m.chunks;
      }
    }
  }

  lemma OnlyThePiece(c: Chunk, piece: seq<Byte>, answer: Option<seq<Byte>>, digest: Digest)
    requires Injective(digest) && c.digest == digest(piece) && Fetched(c, answer, digest).Some?
    ensures answer == Some(piece)
  {
    assert digest(answer.value) == digest(piece);
  }

  /** With a collision-free digest, whatever the store answers, the chunks that pass their checks
      are the beginning of the stream the manifest describes, and all of them are all of it. */
  lemma DeliveredIsTheStream(m: Manifest, s: seq<Byte>, size: nat, digest: Digest, answers: seq<Option<seq<Byte>>>,
                             k: nat)
    requires DescribesStream(m, s, size, digest) && Injective(digest)
    requires k <= |answers| == |m.chunks| && Good(m, answers, digest, k)
    ensures Delivered(answers[..k]) <= s
    ensures k == |answers| ==> Delivered(answers) == s
  {
    var pieces := Cut(s, size);
    CutIsPartition(s, size);
    hide Cut, Delivered, Join, Injective;
    forall i | 0 <= i < k
      ensures answers[i] == Some(pieces[i])
    {
      OnlyThePiece(m.chunks[i], pieces[i], answers[i], digest);
    }
    DeliveredPieces(answers[..k], pieces[..k]);
    JoinPrefix(pieces, k);
    assert k == |answers| ==> answers[..k] == answers && pieces[..k] == pieces;
  }

  // ---- The whole restore ----------------------------------------------------------------------------

  datatype Picked = One(m: Manifest) | NotArchived | Ambiguous

  /** A name stands for a manifest if no other has it. */
  method Pick(all: seq<Manifest>, name: string) returns (r: Picked)
    ensures r.One? ==> exists i :: 0 <= i < |all| && r.m == all[i] && OnlyOneNamed(all, name, i)
    ensures r.NotArchived? <==> forall m <- all :: m.snapshot != name
    ensures r.Ambiguous? ==> exists i, j :: 0 <= i < j < |all| && all[i].snapshot == name && all[j].snapshot == name
  {
    var hits: seq<nat> := [];
    for i := 0 to |all|
      invariant forall k :: 0 <= k < |hits| ==> hits[k] < i && all[hits[k]].snapshot == name
      invariant forall k, k' :: 0 <= k < k' < |hits| ==> hits[k] < hits[k']
      invariant forall j :: 0 <= j < i && all[j].snapshot == name ==> j in hits
    {
      if all[i].snapshot == name {
        hits := hits + [i];
      }
    }
    match |hits|
    case 0 =>
      assert forall m <- all :: m.snapshot != name;
      return NotArchived;
    case 1 =>
      assert OnlyOneNamed(all, name, hits[0]);
      return One(all[hits[0]]);
    case _ =>
      assert hits[0] < hits[1];
      return Ambiguous;
  }

  ghost predicate OnlyOneNamed(all: seq<Manifest>, name: string, i: nat)
    requires i < |all|
  {
    forall j :: 0 <= j < |all| ==> (all[j].snapshot == name <==> j == i)
  }

  /** The store as the restore finds it: its answer to a fetch of a numbered chunk of a snapshot, and
      whether it is there when it is wanted. */
  datatype Fetches = Fetches(answer: (Guid, nat) -> Option<seq<Byte>>, ready: (Guid, nat) -> bool)

  function Answers(f: Fetches, m: Manifest): (r: seq<Option<seq<Byte>>>)
    ensures |r| == |m.chunks|
  {
    seq(|m.chunks|, k requires 0 <= k < |m.chunks| => (f.answer)(m.snapshotGuid, m.chunks[k].index))
  }

  function Readiness(f: Fetches, m: Manifest): (r: seq<bool>)
    ensures |r| == |m.chunks|
  {
    seq(|m.chunks|, k requires 0 <= k < |m.chunks| => (f.ready)(m.snapshotGuid, m.chunks[k].index))
  }

  function Streams(f: Fetches, chain: seq<Manifest>): seq<seq<Byte>> {
    seq(|chain|, i requires 0 <= i < |chain| => Delivered(Answers(f, chain[i])))
  }

  /** Every chunk of these manifests passed its checks. */
  ghost predicate AllGood(f: Fetches, chain: seq<Manifest>, digest: Digest) {
    forall m <- chain :: Good(m, Answers(f, m), digest, |m.chunks|)
  }

  datatype Restoring = Restored(chain: seq<Manifest>, bytes: nat) | Unpicked | Unchained(walk: Walk)
    | Interrupted(chain: seq<Manifest>, at: nat)

  /** Apply a chain in order; stop at the first failure and clear what it left half-received. */
  method Replay(chain: seq<Manifest>, window: nat, f: Fetches, digest: Digest, zfs: Target)
    returns (done: nat, bytes: nat)
    modifies zfs
    ensures done <= |chain|
    ensures zfs.applied == old(zfs.applied) + Streams(f, chain[..done])
    ensures AllGood(f, chain[..done], digest)
    ensures done == |chain| ==> bytes == |Join(Streams(f, chain))|
    ensures done < |chain| ==> zfs.faults > old(zfs.faults) || !AllGood(f, [chain[done]], digest)
    ensures done < |chain| ==> zfs.partial.None? || zfs.kept > old(zfs.kept)
  {
    hide *;
    done, bytes := 0, 0;
    NothingYet(f, chain, digest);
    assert zfs.applied == old(zfs.applied) + [];
    while done < |chain|
      invariant done <= |chain| && bytes == |Join(Streams(f, chain[..done]))|
      invariant zfs.applied == old(zfs.applied) + Streams(f, chain[..done])
      invariant AllGood(f, chain[..done], digest) && zfs.faults >= old(zfs.faults) && zfs.kept == old(zfs.kept)
    {
      var m := chain[done];
      var r, n, depth := Apply(m, window, Answers(f, m), Readiness(f, m), digest, zfs);
      if !r.Applied? {
        if r.BadChunk? {
          NotGood(f, m, digest, r, zfs.partial.value);
        }
        zfs.Abort();
        return;
      }
      OneMore(f, chain, done, digest, r);
      assert (old(zfs.applied) + Streams(f, chain[..done])) + [Delivered(Answers(f, m))]
          == old(zfs.applied) + (Streams(f, chain[..done]) + [Delivered(Answers(f, m))]);
      done, bytes := done + 1, bytes + n;
    }
    assert chain[..done] == chain;
  }

  lemma NotGood(f: Fetches, m: Manifest, digest: Digest, r: Applying, out: seq<Byte>)
    requires r.BadChunk? && EndsAs(r, m, Answers(f, m), digest, out)
    ensures !AllGood(f, [m], digest)
  {
    assert m in [m];
  }

  lemma NothingYet(f: Fetches, chain: seq<Manifest>, digest: Digest)
    ensures Streams(f, chain[..0]) == [] && AllGood(f, chain[..0], digest) && Join(Streams(f, chain[..0])) == []
  {
  }

  lemma OneMore(f: Fetches, chain: seq<Manifest>, k: nat, digest: Digest, r: Applying)
    requires k < |chain| && AllGood(f, chain[..k], digest)
    requires r.Applied? && EndsAs(r, chain[k], Answers(f, chain[k]), digest, Delivered(Answers(f, chain[k])))
    ensures Streams(f, chain[..k + 1]) == Streams(f, chain[..k]) + [Delivered(Answers(f, chain[k]))]
    ensures AllGood(f, chain[..k + 1], digest)
    ensures |Join(Streams(f, chain[..k + 1]))| == |Join(Streams(f, chain[..k]))| + |Delivered(Answers(f, chain[k]))|
  {
    hide Delivered, Good;
    assert Streams(f, chain[..k + 1]) == Streams(f, chain[..k]) + [Delivered(Answers(f, chain[k]))];
    JoinSnoc(Streams(f, chain[..k]), Delivered(Answers(f, chain[k])));
    forall m <- chain[..k + 1]
      ensures Good(m, Answers(f, m), digest, |m.chunks|)
    {
      assert m in chain[..k] || m == chain[k];
    }
  }

  /** `m` is what a search of the list for its GUID finds. */
  ghost predicate IsListed(all: seq<Manifest>, m: Manifest) {
    m.snapshotGuid in FirstByGuid(all) && FirstByGuid(all)[m.snapshotGuid] == m
  }

  /** `tip` is the snapshot the name picks out. */
  ghost predicate Names(all: seq<Manifest>, name: string, tip: Manifest) {
    && IsListed(all, tip)
    && exists i: nat :: i < |all| && OnlyOneNamed(all, name, i) && tip.snapshotGuid == all[i].snapshotGuid
  }

  ghost predicate ChainOf(all: seq<Manifest>, name: string, chain: seq<Manifest>) {
    && chain != [] && Restorable(FirstByGuid(all), chain, chain[|chain| - 1])
    && Names(all, name, chain[|chain| - 1])
  }

  /** Restore a snapshot by name: all of its chain, from the full on, or a beginning of it. */
  method Receive(all: seq<Manifest>, name: string, window: nat, f: Fetches, digest: Digest, zfs: Target)
    returns (r: Restoring)
    modifies zfs
    ensures r.Unpicked? <==> !exists i: nat :: i < |all| && OnlyOneNamed(all, name, i)
    ensures r.Unpicked? || r.Unchained? ==> zfs.applied == old(zfs.applied)
    ensures r.Unchained? ==> exists tip :: Names(all, name, tip) && !ReachesFull(FirstByGuid(all), tip)
    ensures r.Restored? ==>
      && ChainOf(all, name, r.chain) && AllGood(f, r.chain, digest)
      && zfs.applied == old(zfs.applied) + Streams(f, r.chain)
      && r.bytes == |Join(Streams(f, r.chain))|
    ensures r.Interrupted? ==>
      && ChainOf(all, name, r.chain) && r.at < |r.chain| && AllGood(f, r.chain[..r.at], digest)
      && zfs.applied == old(zfs.applied) + Streams(f, r.chain[..r.at])
      && (zfs.faults > old(zfs.faults) || !AllGood(f, [r.chain[r.at]], digest))
      && (zfs.partial.None? || zfs.kept > old(zfs.kept))
  {
    hide *;
    var picked := Pick(all, name);
    if !picked.One? {
      NoneOrSeveral(all, name, picked);
      return Unpicked;
    }
    var tip := Find(all, picked.m.snapshotGuid);
    Found(all, name, picked.m);
    var walk := WalkChain(all, tip.value);
    WalkOutcome(FirstByGuid(all), tip.value);
    if !walk.Complete? {
      return Unchained(walk);
    }
    Chained(all, name, tip.value, walk.chain);
    var done, bytes := Replay(walk.chain, window, f, digest, zfs);
    if done < |walk.chain| {
      return Interrupted(walk.chain, done);
    }
    assert walk.chain[..done] == walk.chain;
    return Restored(walk.chain, bytes);
  }

  lemma NoneOrSeveral(all: seq<Manifest>, name: string, picked: Picked)
    requires picked.NotArchived? ==> forall m <- all :: m.snapshot != name
    requires picked.Ambiguous? ==>
      exists i, j :: 0 <= i < j < |all| && all[i].snapshot == name && all[j].snapshot == name
    requires !picked.One?
    ensures !exists i: nat :: i < |all| && OnlyOneNamed(all, name, i)
  {
    forall i: nat | i < |all|
      ensures !OnlyOneNamed(all, name, i)
    {
      assert all[i] in all;
    }
  }

  lemma Found(all: seq<Manifest>, name: string, m: Manifest)
    requires exists i :: 0 <= i < |all| && m == all[i] && OnlyOneNamed(all, name, i)
    ensures var a := FirstByGuid(all);
      && Keyed(a) && m.snapshotGuid in a && a[m.snapshotGuid].snapshotGuid == m.snapshotGuid
      && Names(all, name, a[m.snapshotGuid])
  {
  }

  lemma Chained(all: seq<Manifest>, name: string, tip: Manifest, chain: seq<Manifest>)
    requires Names(all, name, tip) && Restorable(FirstByGuid(all), chain, tip)
    ensures ChainOf(all, name, chain)
  {
    hide Names, FirstByGuid;
  }

  /** The manifest describes the stream its snapshot, base and flags stand for. */
  ghost predicate Describes(m: Manifest, stream: Manifest -> seq<Byte>, digest: Digest) {
    exists size: nat :: DescribesStream(m, stream(m), size, digest)
  }

  /** Restoring is exact: whatever the store answers and whenever, if the manifests in the chain
      describe their streams, what a restore applies is those streams, in order. */
  lemma RestoredExactly(f: Fetches, chain: seq<Manifest>, stream: Manifest -> seq<Byte>, digest: Digest)
    requires AllGood(f, chain, digest) && Injective(digest)
    requires forall m <- chain :: Describes(m, stream, digest)
    ensures Streams(f, chain) == seq(|chain|, i requires 0 <= i < |chain| => stream(chain[i]))
  {
    hide Delivered, Good, DescribesStream;
    forall i: nat | i < |chain|
      ensures Delivered(Answers(f, chain[i])) == stream(chain[i])
    {
      var m := chain[i];
      assert m in chain;
      var size: nat :| DescribesStream(m, stream(m), size, digest);
      DeliveredIsTheStream(m, stream(m), size, digest, Answers(f, m), |m.chunks|);
    }
  }

  /** The store's answers when it returns what is stored. */
  ghost predicate Honest(m: Manifest, chunks: map<nat, seq<Byte>>, answers: seq<Option<seq<Byte>>>) {
    && |answers| == |m.chunks|
    && forall i :: 0 <= i < |answers| && m.chunks[i].index in chunks ==> answers[i] == Some(chunks[m.chunks[i].index])
  }

  /** Whatever sends, expiries and cleans a bucket has been through, and wherever they stopped: a
      manifest found in it can be restored, and restores to the stream it was made from. */
  lemma BackupRestores(srcs: P.DirId -> P.Source, states: seq<P.Bucket>, acts: seq<P.Action>, k: nat, id: P.DirId,
                       answers: seq<Option<seq<Byte>>>)
    requires P.IsRun(srcs, states, acts) && k < |states|
    requires P.At(states[k], id).contents.manifest.Some?
    requires Honest(P.At(states[k], id).contents.manifest.value, P.At(states[k], id).contents.chunks, answers)
    ensures var m := P.At(states[k], id).contents.manifest.value;
      && Good(m, answers, srcs(id).digest, |m.chunks|)
      && Delivered(answers) == (srcs(id).stream)(m.from, m.flags)
      && Describes(m, (x: Manifest) => (srcs(id).stream)(x.from, x.flags), srcs(id).digest)
  {
    P.RunKeepsInv(srcs, states, acts, k, id);
    var c := P.At(states[k], id).contents;
    WholeRestores(srcs(id), c.manifest.value, c.chunks, answers);
  }

  lemma WholeRestores(src: P.Source, m: Manifest, chunks: map<nat, seq<Byte>>, answers: seq<Option<seq<Byte>>>)
    requires P.Backed(src, m, chunks) && Honest(m, chunks, answers)
    ensures Good(m, answers, src.digest, |m.chunks|)
    ensures Delivered(answers) == (src.stream)(m.from, m.flags)
    ensures Describes(m, (x: Manifest) => (src.stream)(x.from, x.flags), src.digest)
  {
    var s := (src.stream)(m.from, m.flags);
    var size: nat :| P.CommittedWhole(src, m, chunks, size);
    var pieces := Cut(s, size);
    CutIsPartition(s, size);
    hide Cut, Delivered, Join;
    forall i | 0 <= i < |pieces|
      ensures answers[i] == Some(pieces[i])
    {
      assert m.chunks[i].index == i;
    }
    DeliveredPieces(answers, pieces);
    var stream := (x: Manifest) => (src.stream)(x.from, x.flags);
    assert DescribesStream(m, stream(m), size, src.digest);
  }
}
