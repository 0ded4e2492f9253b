/** The records the commands exchange: manifests with their chunks, and send markers. */
module Manifests {
  import opened Bytes
  import opened Fletcher

  type Guid = Word64

  /** Instants and durations are in nanoseconds. */
  type Instant = int

  datatype SendFlags = SendFlags(
    raw: bool, compressed: bool, largeBlocks: bool, embedded: bool, holds: bool, props: bool)

  datatype Chunk = Chunk(index: nat, bytes: nat, digest: string)

  datatype Manifest = Manifest(
    dataset: string, datasetGuid: Guid, snapshot: string, snapshotGuid: Guid, from: Option<Guid>,
    createtxg: nat, createdAt: Instant, flags: SendFlags, bytes: nat, streamDigest: string,
    endChecksum: Option<Fletcher4>, chunks: seq<Chunk>)
  {
    predicate IsFull() { from.None? }
  }

  /** Everything that determines a stream's bytes, and how it is cut into chunks. */
  datatype Params = Params(from: Option<Guid>, flags: SendFlags, chunkSize: nat)

  /** Five minutes: the age at which `LeaseLive` turns false. */
  const LEASE := 300_000_000_000

  datatype Pending = Pending(params: Params, runId: nat, refreshedAt: Instant) {
    predicate SameStream(other: Pending) { params == other.params }
    predicate LeaseLive(now: Instant) { now - refreshedAt < LEASE }
  }
}
