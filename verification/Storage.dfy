/** The bucket as the commands that delete see it: objects by key. */
module Storage {
  import opened Bytes
  import opened Manifests
  import opened Keys

  datatype Object = ManifestObject(m: Manifest) | MarkerObject(p: Pending) | Blob(data: seq<Byte>)

  type Objects = map<Key, Object>

  /** At most one key goes. */
  ghost predicate LosesOne(before: Objects, after: Objects) {
    exists k :: after == before - {k}
  }

  ghost predicate OneByOne(states: seq<Objects>) {
    forall i :: 0 < i < |states| ==> LosesOne(states[i - 1], states[i])
  }

  class Bucket {
    var objects: Objects
    /** Every state the bucket has been in, the present one last. */
    ghost var seen: seq<Objects>
    ghost var faults: nat // how many deletions were reported as failed

    ghost predicate Valid()
      reads this`objects, this`seen
    {
      seen != [] && seen[|seen| - 1] == objects && OneByOne(seen)
    }

    /** Deletes can fail, and a failed one may or may not have happened. */
    method Delete(k: Key) returns (ok: bool)
      requires Valid()
      modifies this
      ensures Valid()
      ensures objects == old(objects) - {k} || (!ok && objects == old(objects))
      ensures seen == old(seen) + [objects] || (!ok && seen == old(seen))
      ensures faults == old(faults) + if ok then 0 else 1
    {
      var done: bool;
      ok, done := *, *;
      if ok || done {
        assert LosesOne(objects, objects - {k});
        objects := objects - {k};
        seen := seen + [objects];
      }
      faults := faults + if ok then 0 else 1;
    }
  }

  /** The keys of the chunks a manifest names, wherever the manifest itself is stored. */
  function NamedBy(m: Manifest): set<Key> {
    set c | c in m.chunks :: ChunkKey(m.datasetGuid, m.snapshotGuid, c.index)
  }

  /** The manifest is stored under its own GUIDs. */
  predicate Filed(objects: Objects, m: Manifest) {
    var k := ManifestKey(m.datasetGuid, m.snapshotGuid);
    k in objects && objects[k] == ManifestObject(m)
  }
}
