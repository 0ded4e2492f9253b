/** A stream cut into chunks, described in a manifest, and read back. */
module Chunking {
  import opened Bytes
  import opened Manifests

  type Digest = seq<Byte> -> string

  /** Consecutive pieces of `size` bytes; the last one may be short, none is empty. */
  function Cut(s: seq<Byte>, size: nat): (r: seq<seq<Byte>>)
    requires size > 0
  {
    if s == [] then []
    else if |s| <= size then [s]
    else [s[..size]] + Cut(s[size..], size)
  }

  function Join(pieces: seq<seq<Byte>>): seq<Byte> {
    if pieces == [] then [] else pieces[0] + Join(pieces[1..])
  }

  /** The manifest's chunk list. */
  function Describe(pieces: seq<seq<Byte>>, digest: Digest): (r: seq<Chunk>) {
    seq(|pieces|, i requires 0 <= i < |pieces| => Chunk(i, |pieces[i]|, digest(pieces[i])))
  }

  function TotalBytes(chunks: seq<Chunk>): nat {
    if chunks == [] then 0 else TotalBytes(chunks[..|chunks| - 1]) + chunks[|chunks| - 1].bytes
  }

  /** Consecutive numbers, all pieces but the last exactly `size`, nothing lost, nothing added. */
  lemma {:induction false} CutIsPartition(s: seq<Byte>, size: nat)
    requires size > 0
    ensures var r := Cut(s, size);
      && Join(r) == s
      && (forall i :: 0 <= i < |r| - 1 ==> |r[i]| == size)
      && (forall i :: 0 <= i < |r| ==> 0 < |r[i]| <= size)
      && (r == [] <==> s == [])
  {
    if s != [] {
      if |s| <= size {
        assert [s][1..] == [];
      } else {
        CutIsPartition(s[size..], size);
        var rest := Cut(s[size..], size);
        assert ([s[..size]] + rest)[1..] == rest;
        assert s == s[..size] + s[size..];
      }
    }
  }

  /** Cutting a stream that ends early gives the same pieces, except that the last may be shorter. */
  lemma {:induction false} CutOfPrefix(t: seq<Byte>, s: seq<Byte>, size: nat)
    requires size > 0 && t <= s
    ensures |Cut(t, size)| <= |Cut(s, size)|
    ensures forall i :: 0 <= i < |Cut(t, size)| ==> Cut(t, size)[i] <= Cut(s, size)[i]
  {
    if t != [] {
      if |t| > size {
        assert t[size..] <= s[size..];
        CutOfPrefix(t[size..], s[size..], size);
      }
    }
  }

  lemma {:induction false} JoinSnoc(pieces: seq<seq<Byte>>, p: seq<Byte>)
    ensures Join(pieces + [p]) == Join(pieces) + p
  {
    if pieces == [] {
      assert pieces + [p] == [p] && [p][1..] == [];
    } else {
      assert (pieces + [p])[1..] == pieces[1..] + [p];
      JoinSnoc(pieces[1..], p);
    }
  }

  lemma {:induction false} DescribedTotal(pieces: seq<seq<Byte>>, digest: Digest)
    ensures TotalBytes(Describe(pieces, digest)) == |Join(pieces)|
  {
    if pieces != [] {
      var front := pieces[..|pieces| - 1];
      DescribedTotal(front, digest);
      assert Describe(pieces, digest)[..|front|] == Describe(front, digest);
      JoinSnoc(front, pieces[|front|]);
      assert pieces == front + [pieces[|front|]];
    }
  }

  // ---- The adaptive chunk size -------------------------------------------------------

  const MIN_CHUNK := 0x50_0000
  const MAX_CHUNK := 0x1_4000_0000
  const ADAPTIVE_UNIT := 0x100_0000

  function Clamp(x: nat, min: nat, max: nat): nat
    requires min <= max
  {
    if x < min then min else if x > max then max else x
  }

  function AdaptiveChunkSize(total: nat, min: nat, max: nat): nat
    requires MIN_CHUNK <= min <= max <= MAX_CHUNK
  {
    var raw := Clamp(total / 1000, min, max);
    Clamp((raw + ADAPTIVE_UNIT - 1) / ADAPTIVE_UNIT * ADAPTIVE_UNIT, min, max)
  }

  /** The number of pieces times their size just covers the stream. */
  lemma {:induction false} CutCount(s: seq<Byte>, size: nat)
    requires size > 0
    ensures s != [] ==> (|Cut(s, size)| - 1) * size < |s| <= |Cut(s, size)| * size
  {
    if |s| > size {
      CutCount(s[size..], size);
      var n := |Cut(s[size..], size)|;
      assert |Cut(s, size)| == n + 1;
      assert n * size == (n - 1) * size + size && (n + 1) * size == n * size + size;
    }
  }

  /** When the estimate is right, the stream makes at most 1001 chunks, unless the size is already
      the largest allowed; and the size is a bound or a whole number of 16 MiB units. */
  lemma AdaptiveChunkCount(s: seq<Byte>, min: nat, max: nat)
    requires MIN_CHUNK <= min <= max <= MAX_CHUNK
    ensures var r := AdaptiveChunkSize(|s|, min, max);
      && min <= r <= max && (r == min || r == max || r % ADAPTIVE_UNIT == 0)
      && (|Cut(s, r)| <= 1001 || r == max)
  {
    var r := AdaptiveChunkSize(|s|, min, max);
    AdaptiveSizeCovers(|s|, min, max);
    hide AdaptiveChunkSize;
    CutCount(s, r);
    if s != [] && r < max {
      FewPieces(|Cut(s, r)|, r, |s|);
    }
  }

  lemma AdaptiveSizeCovers(total: nat, min: nat, max: nat)
    requires MIN_CHUNK <= min <= max <= MAX_CHUNK
    ensures var r := AdaptiveChunkSize(total, min, max);
      && min <= r <= max && (r == min || r == max || r % ADAPTIVE_UNIT == 0)
      && (r < max ==> total < 1000 * r + 1000)
  {
  }

  /** The size is the smallest multiple of 16 MiB that is at least a thousandth of the stream and the
      lower bound, or the upper bound where that is larger. */
  lemma AdaptiveSizeExactly(total: nat, min: nat, max: nat)
    requires MIN_CHUNK <= min <= max <= MAX_CHUNK
    ensures var r := AdaptiveChunkSize(total, min, max);
      && (r == max || (r % 0x100_0000 == 0 && total / 1000 <= r))
      && forall x: nat :: x < r && x % 0x100_0000 == 0 ==> x < total / 1000 || x < min
  {
    var raw := Clamp(total / 1000, min, max);
    var r := AdaptiveChunkSize(total, min, max);
    forall x: nat | x < r && x % 0x100_0000 == 0
      ensures x < total / 1000 || x < min
    {
      if raw <= x {
        assert (raw + 0x100_0000 - 1) / 0x100_0000 <= x / 0x100_0000;
      }
    }
  }

  lemma FewPieces(n: nat, size: nat, total: nat)
    requires 1000 <= size && (n - 1) * size < total < 1000 * size + 1000
    ensures n <= 1001
  {
    Cancel(n - 1, 1001, size);
  }

  lemma Cancel(a: int, b: int, c: nat)
    requires a * c < b * c
    ensures a < b
  {
  }

  // ---- Verify ---------------------------------------------------------------------

  datatype Verdict =
    | Verified
    | Missing(index: nat) | WrongSize(index: nat) | WrongDigest(index: nat)
    | WrongTotal | WrongStreamDigest

  /** One stored chunk matches its entry in the manifest. */
  predicate ChunkMatches(c: Chunk, store: map<nat, seq<Byte>>, digest: Digest) {
    c.index in store && |store[c.index]| == c.bytes && digest(store[c.index]) == c.digest
  }

  /** The stored bytes in manifest order. */
  function Gather(chunks: seq<Chunk>, store: map<nat, seq<Byte>>): seq<Byte>
    requires forall c <- chunks :: c.index in store
  {
    if chunks == [] then [] else
    Gather(chunks[..|chunks| - 1], store) + store[chunks[|chunks| - 1].index]
  }

  ghost predicate Intact(m: Manifest, store: map<nat, seq<Byte>>, digest: Digest) {
    && (forall c <- m.chunks :: ChunkMatches(c, store, digest))
    && TotalBytes(m.chunks) == m.bytes
    && digest(Gather(m.chunks, store)) == m.streamDigest
  }

  /** `verify`: passes exactly the intact archives, and otherwise names the first fault. */
  method Verify(m: Manifest, store: map<nat, seq<Byte>>, digest: Digest) returns (r: Verdict)
    ensures r.Verified? <==> Intact(m, store, digest)
    ensures r.WrongTotal? || r.WrongStreamDigest? ==>
      && (forall c <- m.chunks :: ChunkMatches(c, store, digest))
      && (r.WrongTotal? <==> TotalBytes(m.chunks) != m.bytes)
    ensures r.Missing? || r.WrongSize? || r.WrongDigest? ==>
      r.index < |m.chunks| && !ChunkMatches(m.chunks[r.index], store, digest)
      && forall i :: 0 <= i < r.index ==> ChunkMatches(m.chunks[i], store, digest)
  {
    var stream: seq<Byte> := [];
    var total := 0;
    for i := 0 to |m.chunks|
      invariant forall k :: 0 <= k < i ==> ChunkMatches(m.chunks[k], store, digest)
      invariant stream == Gather(m.chunks[..i], store)
      invariant total == TotalBytes(m.chunks[..i])
    {
      var c := m.chunks[i];
      assert c in m.chunks;
      assert m.chunks[..i + 1][..i] == m.chunks[..i];
      if c.index !in store {
        return Missing(i);
      }
      var data := store[c.index];
      if |data| != c.bytes {
        return WrongSize(i);
      }
      if digest(data) != c.digest {
        return WrongDigest(i);
      }
      stream := stream + data;
      total := total + c.bytes;
    }
    assert m.chunks[..|m.chunks|] == m.chunks;
    if total != m.bytes {
      return WrongTotal;
    }
    if digest(stream) != m.streamDigest {
      return WrongStreamDigest;
    }
    return Verified;
  }

  /** `m` describes the stream `s`, cut into pieces of `size` bytes. */
  ghost predicate DescribesStream(m: Manifest, s: seq<Byte>, size: nat, digest: Digest) {
    && size > 0
    && m.chunks == Describe(Cut(s, size), digest)
    && m.bytes == |s|
    && m.streamDigest == digest(s)
  }

  /** Every piece is stored under its number. */
  ghost predicate Holds(store: map<nat, seq<Byte>>, s: seq<Byte>, size: nat)
    requires size > 0
  {
    forall i: nat :: i < |Cut(s, size)| ==> i in store && store[i] == Cut(s, size)[i]
  }

  lemma {:induction false} GatherDescribed(pieces: seq<seq<Byte>>, store: map<nat, seq<Byte>>, digest: Digest)
    requires forall i: nat :: i < |pieces| ==> i in store && store[i] == pieces[i]
    ensures forall c <- Describe(pieces, digest) :: c.index in store
    ensures Gather(Describe(pieces, digest), store) == Join(pieces)
  {
    if pieces != [] {
      var front := pieces[..|pieces| - 1];
      GatherDescribed(front, store, digest);
      assert Describe(pieces, digest)[..|front|] == Describe(front, digest);
      JoinSnoc(front, pieces[|front|]);
      assert pieces == front + [pieces[|front|]];
    }
  }

  /** What a send has committed, verify accepts; and the stored chunks, in order, are the stream. */
  lemma CommittedVerifies(m: Manifest, store: map<nat, seq<Byte>>, s: seq<Byte>, size: nat, digest: Digest)
    requires DescribesStream(m, s, size, digest) && Holds(store, s, size)
    ensures Intact(m, store, digest)
    ensures Gather(m.chunks, store) == s
  {
    var pieces := Cut(s, size);
    CutIsPartition(s, size);
    DescribedTotal(pieces, digest);
    GatherDescribed(pieces, store, digest);
  }

  ghost predicate Injective(digest: Digest) {
    forall x: seq<Byte>, y: seq<Byte> {:trigger digest(x), digest(y)} :: digest(x) == digest(y) ==> x == y
  }

  /** With a collision-free digest, whatever verify accepts against this manifest is the stream,
      whatever the bucket holds. */
  lemma VerifiedIsTheStream(m: Manifest, store: map<nat, seq<Byte>>, s: seq<Byte>, digest: Digest)
    requires Injective(digest)
    requires m.streamDigest == digest(s) && Intact(m, store, digest)
    ensures Gather(m.chunks, store) == s && m.bytes == |s|
  {
    GatherLength(m.chunks, store, digest);
  }

  lemma {:induction false} GatherLength(chunks: seq<Chunk>, store: map<nat, seq<Byte>>, digest: Digest)
    requires forall c <- chunks :: ChunkMatches(c, store, digest)
    ensures forall c <- chunks :: c.index in store
    ensures |Gather(chunks, store)| == TotalBytes(chunks)
  {
    if chunks != [] {
      GatherLength(chunks[..|chunks| - 1], store, digest);
      assert chunks[|chunks| - 1] in chunks;
    }
  }
}
