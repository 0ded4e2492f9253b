/** `send`: read the stream once, check it as it flows, upload its chunks, and commit. */
module Sending {
  import opened Bytes
  import opened Fletcher
  import opened Manifests
  import opened Chunking
  import opened Protocol
  import SF = StreamFormat
  import SR = StreamReference
  import SP = StreamParsing

  /** The directory of the snapshot being sent. Every write is one step of the protocol, and every
      state the directory has been in is on record. */
  class Directory {
    const src: Source
    const id: DirId
    var contents: Contents
    ghost var activity: Activity
    ghost var dirs: seq<Dir>
    ghost var steps: seq<Step>
    ghost var faults: nat // how often something outside the program went wrong

    ghost predicate Valid()
      reads this`contents, this`activity, this`dirs, this`steps
    {
      && IsPath(src, dirs, steps) && Inv(src, dirs[0])
      && dirs[|dirs| - 1] == Dir(contents, activity)
      && forall step <- steps :: Files(step)
    }

    /** A manifest is only ever committed to the directory of its own GUIDs. */
    predicate Files(step: Step) {
      step.Commit? ==> (step.m.datasetGuid, step.m.snapshotGuid) == id
    }

    /** Something goes wrong, or not. */
    method Try() returns (ok: bool)
      modifies this`faults
      ensures ok ==> faults == old(faults)
      ensures !ok ==> faults == old(faults) + 1
    {
      ok := *;
      if !ok {
        faults := faults + 1;
      }
    }

    method Do(ghost step: Step, after: Contents, ghost work: Activity)
      requires Valid() && Next(src, Dir(contents, activity), step, Dir(after, work)) && Files(step)
      modifies this
      ensures Valid() && contents == after && activity == work
      ensures dirs == old(dirs) + [Dir(after, work)] && faults == old(faults)
    {
      hide Next, Inv;
      contents := after;
      activity := work;
      dirs := dirs + [Dir(after, work)];
      steps := steps + [step];
    }

    lemma Holding()
      requires Valid()
      ensures Inv(src, Dir(contents, activity))
    {
      PathKeepsInv(src, dirs, steps, |dirs| - 1);
    }
  }

  /** The output of `zfs send`: each read delivers some of what is left. */
  class Pipe {
    var rest: seq<Byte>

    method Read(space: nat) returns (got: seq<Byte>)
      requires space > 0
      modifies this
      ensures old(rest) == got + rest && |got| <= space
      ensures got == [] <==> old(rest) == []
    {
      if rest == [] {
        return [];
      }
      var n: nat :| 0 < n <= |rest| && n <= space;
      got := rest[..n];
      rest := rest[n..];
    }

    /** Fill one chunk: short only at the end of the stream. */
    method ReadChunk(size: nat) returns (buf: seq<Byte>)
      requires size > 0
      modifies this
      ensures old(rest) == buf + rest
      ensures |buf| == size || (|buf| < size && rest == [])
    {
      buf := [];
      while |buf| < size
        invariant old(rest) == buf + rest && |buf| <= size
        decreases size - |buf|
      {
        var got := Read(size - |buf|);
        if got == [] {
          break;
        }
        buf := buf + got;
      }
    }
  }

  datatype Outcome =
    | Sent(chunks: seq<Chunk>, bytes: nat, streamDigest: string, endChecksum: Option<Fletcher4>)
    | Failed
    | Busy // another run's lease is live

  /** The uploads the program tracks are the ones the protocol is in the middle of. */
  ghost predicate Tracks(d: Directory, p: Params, feed: seq<Byte>, parallel: nat, existing: map<nat, nat>,
                         next: nat, inflight: map<nat, seq<Byte>>, uploaded: set<nat>)
    reads d`contents, d`activity, d`dirs, d`steps
  {
    && d.Valid() && p.chunkSize > 0
    && d.activity == Uploading(p, feed, parallel, existing, next, inflight.Keys, uploaded)
    && (forall i <- inflight :: i < |Cut(feed, p.chunkSize)| && inflight[i] == Cut(feed, p.chunkSize)[i])
  }

  datatype Claimed = Aside | Ours(existing: map<nat, nat>) | Broken

  /** Step aside for a live lease. Otherwise keep the chunks exactly if a readable marker says they
      are of this stream, clear them if not, and claim. Clearing and claiming can break off. */
  method Claim(d: Directory, p: Params, parallel: nat, marker: Pending, now: Instant, ghost feed: seq<Byte>)
    returns (r: Claimed)
    requires d.Valid() && d.activity == Idle && d.contents.manifest.None? && p.chunkSize > 0
    requires marker.params == p && feed <= StreamOf(d.src, p)
    modifies d
    ensures d.Valid() && old(d.dirs) <= d.dirs && old(d.faults) <= d.faults
    ensures r.Aside? <==> old(d.contents).marker.Readable? && old(d.contents).marker.value.LeaseLive(now)
    ensures r.Aside? ==> d.activity == Idle && d.contents == old(d.contents)
    ensures r.Ours? ==>
      && Tracks(d, p, feed, parallel, r.existing, 0, map[], {})
      && d.contents.marker == Readable(marker) && r.existing == Sizes(d.contents.chunks)
      && d.contents.chunks == if old(d.contents).Resumes(p) then old(d.contents).chunks else map[]
    ensures r.Broken? ==>
      && old(d.faults) < d.faults && Remains(old(d.contents).chunks, d.contents.chunks)
      && (old(d.contents).Resumes(p) ==> d.contents.chunks == old(d.contents).chunks)
  {
    hide Inv, IsPath, StreamOf, Cut;
    var resume := false;
    match d.contents.marker {
      case Readable(other) =>
        if other.LeaseLive(now) {
          return Aside;
        }
        resume := other.SameStream(marker);
      case Unreadable =>
      case Absent =>
    }
    d.Do(BeginSend(p, now), d.contents, Starting(p, resume));
    if !resume {
      var cleared := Purge(d, p);
      if !cleared {
        return Broken;
      }
    }
    var ok := WriteFirst(d, p, parallel, marker, feed, resume);
    return if ok then Ours(Sizes(d.contents.chunks)) else Broken;
  }

  /** Write the marker. A write that is reported as failed may have happened. */
  method WriteFirst(d: Directory, p: Params, parallel: nat, marker: Pending, ghost feed: seq<Byte>, ghost resume: bool)
    returns (ok: bool)
    requires d.Valid() && d.activity == Starting(p, resume) && p.chunkSize > 0
    requires marker.params == p && feed <= StreamOf(d.src, p)
    requires !resume ==> d.contents.chunks == map[] && d.contents.marker.Absent?
    modifies d
    ensures d.Valid() && old(d.dirs) <= d.dirs && old(d.faults) <= d.faults
    ensures d.contents.chunks == old(d.contents).chunks
    ensures ok ==>
      && Tracks(d, p, feed, parallel, Sizes(d.contents.chunks), 0, map[], {}) && d.contents.marker == Readable(marker)
    ensures !ok ==> old(d.faults) < d.faults
  {
    hide Inv, IsPath, StreamOf, Cut;
    ok := d.Try();
    var written: bool := *;
    if ok || written {
      d.Do(Mark(marker, feed, parallel), d.contents.(marker := Readable(marker)),
           Uploading(p, feed, parallel, Sizes(d.contents.chunks), 0, {}, {}));
    }
    ghost var nothing: map<nat, seq<Byte>> := map[];
    assert nothing.Keys == {};
  }

  /** What is left of some chunks. */
  ghost predicate Remains(before: map<nat, seq<Byte>>, now: map<nat, seq<Byte>>) {
    forall i <- now :: i in before && now[i] == before[i]
  }

  /** Delete everything there is, in any order, until a deletion is reported as failed. */
  method Purge(d: Directory, p: Params) returns (ok: bool)
    requires d.Valid() && d.activity == Starting(p, false)
    modifies d
    ensures d.Valid() && old(d.dirs) <= d.dirs && old(d.faults) <= d.faults && d.activity == Starting(p, false)
    ensures ok ==> d.contents == old(d.contents).(marker := Absent, chunks := map[])
    ensures !ok ==> old(d.faults) < d.faults
    ensures Remains(old(d.contents).chunks, d.contents.chunks)
  {
    hide Inv, IsPath;
    while !d.contents.marker.Absent? || d.contents.chunks != map[]
      invariant d.Valid() && old(d.dirs) <= d.dirs && old(d.faults) <= d.faults && d.activity == Starting(p, false)
      invariant d.contents == old(d.contents).(marker := d.contents.marker, chunks := d.contents.chunks)
      invariant Remains(old(d.contents).chunks, d.contents.chunks)
      decreases d.contents.chunks.Keys, !d.contents.marker.Absent?
    {
      ok := d.Try();
      var done: bool, markerNext: bool := *, *;
      if ok || done {
        if !d.contents.marker.Absent? && (markerNext || d.contents.chunks == map[]) {
          d.Do(PurgeMarker, d.contents.(marker := Absent), d.activity);
        } else {
          var i :| i in d.contents.chunks;
          d.Do(PurgeChunk(i), d.contents.(chunks := d.contents.chunks - {i}), d.activity);
        }
      }
      if !ok {
        return false;
      }
    }
    return true;
  }

  /** Wait for some upload to finish. */
  method JoinNext(d: Directory, ghost p: Params, ghost feed: seq<Byte>, ghost parallel: nat,
                  ghost existing: map<nat, nat>,
                  ghost next: nat, inflight: map<nat, seq<Byte>>, uploaded: set<nat>)
    returns (ok: bool, inflight': map<nat, seq<Byte>>, uploaded': set<nat>)
    requires Tracks(d, p, feed, parallel, existing, next, inflight, uploaded) && inflight != map[]
    modifies d
    ensures Tracks(d, p, feed, parallel, existing, next, inflight', uploaded')
    ensures old(d.dirs) <= d.dirs && old(d.faults) <= d.faults
    ensures ok ==> exists i :: i in inflight && inflight' == inflight - {i} && uploaded' == uploaded + {i}
    ensures !ok ==> inflight' == inflight && uploaded' == uploaded && old(d.faults) < d.faults
    ensures d.contents.marker == old(d.contents).marker
  {
    hide Inv, IsPath, Cut;
    var i :| i in inflight;
    var landed: bool := *;
    if landed {
      // the object is written, whether or not the upload is then reported as done
      assert Piece(d.activity, i) == inflight[i];
      d.Do(Land(i), d.contents.(chunks := d.contents.chunks[i := inflight[i]]), d.activity);
    }
    ok := d.Try();
    if !ok {
      return false, inflight, uploaded;
    }
    inflight', uploaded' := inflight - {i}, uploaded + {i};
    assert Piece(d.activity, i) == inflight[i];
    assert inflight'.Keys == inflight.Keys - {i};
    d.Do(JoinUpload(i), d.contents.(chunks := d.contents.chunks[i := inflight[i]]),
         Uploading(p, feed, parallel, existing, next, inflight'.Keys, uploaded'));
  }

  /** Join uploads until fewer than `parallel` are in flight. */
  method MakeRoom(d: Directory, ghost p: Params, ghost feed: seq<Byte>, parallel: nat, ghost existing: map<nat, nat>,
                  ghost next: nat, inflight: map<nat, seq<Byte>>, uploaded: set<nat>)
    returns (ok: bool, inflight': map<nat, seq<Byte>>, uploaded': set<nat>)
    requires Tracks(d, p, feed, parallel, existing, next, inflight, uploaded)
    modifies d
    ensures Tracks(d, p, feed, parallel, existing, next, inflight', uploaded')
    ensures old(d.dirs) <= d.dirs && old(d.faults) <= d.faults
    ensures if ok then |inflight'| < Max(parallel, 1) else old(d.faults) < d.faults
    ensures d.contents.marker == old(d.contents).marker
  {
    hide Inv, IsPath, Cut, Next;
    inflight', uploaded' := inflight, uploaded;
    while |inflight'| >= Max(parallel, 1)
      invariant Tracks(d, p, feed, parallel, existing, next, inflight', uploaded')
      invariant d.contents.marker == old(d.contents).marker
      invariant old(d.dirs) <= d.dirs && old(d.faults) <= d.faults
      decreases |inflight'|
    {
      ok, inflight', uploaded' := JoinNext(d, p, feed, parallel, existing, next, inflight', uploaded');
      if !ok {
        return false, inflight', uploaded';
      }
    }
    return true, inflight', uploaded';
  }

  /** A chunk that is not there yet may be handed to an upload when there is room. */
  lemma SpawnAllowed(src: Source, c: Contents, a: Activity)
    requires a.Uploading? && a.p.chunkSize > 0 && a.next < |Cut(a.feed, a.p.chunkSize)|
    requires !(a.next in a.existing && a.existing[a.next] == |Piece(a, a.next)|)
    requires |a.inflight| < Max(a.parallel, 1)
    ensures Next(src, Dir(c, a), Spawn, Dir(c, a.(next := a.next + 1, inflight := a.inflight + {a.next})))
  {
    hide Cut;
  }

  lemma SkipAllowed(src: Source, c: Contents, a: Activity)
    requires a.Uploading? && a.p.chunkSize > 0 && a.next < |Cut(a.feed, a.p.chunkSize)|
    requires a.next in a.existing && a.existing[a.next] == |Piece(a, a.next)|
    ensures Next(src, Dir(c, a), Skip, Dir(c, a.(next := a.next + 1, uploaded := a.uploaded + {a.next})))
  {
    hide Cut;
  }

  /** Hand a chunk to an upload of its own. */
  method Launch(d: Directory, ghost p: Params, ghost feed: seq<Byte>, ghost parallel: nat, existing: map<nat, nat>,
                next: nat, inflight: map<nat, seq<Byte>>, ghost uploaded: set<nat>, buf: seq<Byte>)
    returns (inflight': map<nat, seq<Byte>>)
    requires Tracks(d, p, feed, parallel, existing, next, inflight, uploaded)
    requires next < |Cut(feed, p.chunkSize)| && buf == Cut(feed, p.chunkSize)[next]
    requires !(next in existing && existing[next] == |buf|) && |inflight| < Max(parallel, 1)
    modifies d
    ensures Tracks(d, p, feed, parallel, existing, next + 1, inflight', uploaded)
    ensures d.contents.marker == old(d.contents).marker
    ensures old(d.dirs) <= d.dirs && old(d.faults) <= d.faults
  {
    hide Inv, IsPath, Cut, Next;
    assert |inflight.Keys| == |inflight|;
    SpawnAllowed(d.src, d.contents, d.activity);
    inflight' := inflight[next := buf];
    assert inflight'.Keys == inflight.Keys + {next};
    d.Do(Spawn, d.contents, Uploading(p, feed, parallel, existing, next + 1, inflight'.Keys, uploaded));
  }

  /** One chunk: skipped if an object of its size is there, otherwise handed to an upload, once
      fewer than `parallel` are in flight. */
  method UploadOrSkip(d: Directory, p: Params, ghost feed: seq<Byte>, parallel: nat, existing: map<nat, nat>,
                      next: nat, inflight: map<nat, seq<Byte>>, uploaded: set<nat>, buf: seq<Byte>)
    returns (ok: bool, inflight': map<nat, seq<Byte>>, uploaded': set<nat>)
    requires Tracks(d, p, feed, parallel, existing, next, inflight, uploaded)
    requires next < |Cut(feed, p.chunkSize)| && buf == Cut(feed, p.chunkSize)[next]
    modifies d
    ensures d.Valid() && old(d.dirs) <= d.dirs && old(d.faults) <= d.faults
    ensures ok ==> Tracks(d, p, feed, parallel, existing, next + 1, inflight', uploaded')
    ensures d.contents.marker == old(d.contents).marker
    ensures !ok ==> old(d.faults) < d.faults
  {
    hide Inv, IsPath, Cut, Next;
    inflight', uploaded' := inflight, uploaded;
    if next in existing && existing[next] == |buf| {
      uploaded' := uploaded + {next};
      SkipAllowed(d.src, d.contents, d.activity);
      d.Do(Skip, d.contents, Uploading(p, feed, parallel, existing, next + 1, inflight.Keys, uploaded'));
      return true, inflight', uploaded';
    }
    ok, inflight', uploaded' := MakeRoom(d, p, feed, parallel, existing, next, inflight, uploaded);
    if !ok {
      return false, inflight', uploaded';
    }
    inflight' := Launch(d, p, feed, parallel, existing, next, inflight', uploaded', buf);
    return true, inflight', uploaded';
  }

  method Drain(d: Directory, ghost p: Params, ghost feed: seq<Byte>, ghost parallel: nat, ghost existing: map<nat, nat>,
               ghost next: nat, inflight: map<nat, seq<Byte>>, uploaded: set<nat>)
    returns (ok: bool, uploaded': set<nat>)
    requires Tracks(d, p, feed, parallel, existing, next, inflight, uploaded)
    modifies d
    ensures d.Valid() && old(d.dirs) <= d.dirs && old(d.faults) <= d.faults
    ensures ok ==> Tracks(d, p, feed, parallel, existing, next, map[], uploaded')
    ensures d.contents.marker == old(d.contents).marker
    ensures !ok ==> old(d.faults) < d.faults
  {
    hide Inv, IsPath, Cut;
    var left := inflight;
    uploaded' := uploaded;
    while left != map[]
      invariant Tracks(d, p, feed, parallel, existing, next, left, uploaded')
      invariant d.contents.marker == old(d.contents).marker
      invariant old(d.dirs) <= d.dirs && old(d.faults) <= d.faults
      decreases |left|
    {
      ok, left, uploaded' := JoinNext(d, p, feed, parallel, existing, next, left, uploaded');
      if !ok {
        return false, uploaded';
      }
    }
    return true, uploaded';
  }

  // ---- Reading, checking and describing the stream ----------------------------------------

  /** The checksum of the last END record among the events. */
  function LastEnd(events: seq<SF.Event>): Option<Fletcher4> {
    if events == [] then None
    else if events[|events| - 1].EndEvent? then Some(events[|events| - 1].end.checksum)
    else LastEnd(events[..|events| - 1])
  }

  /** None if there is no END; otherwise that of an END after which there is none. */
  lemma {:induction false} LastEndIs(events: seq<SF.Event>)
    ensures LastEnd(events) == None <==> forall e <- events :: !e.EndEvent?
    ensures LastEnd(events).Some? ==>
      exists i :: 0 <= i < |events| && events[i].EndEvent? && events[i].end.checksum == LastEnd(events).value
        && forall j :: i < j < |events| ==> !events[j].EndEvent?
  {
    if events != [] {
      var n := |events| - 1;
      assert events == events[..n] + [events[n]];
      LastEndIs(events[..n]);
      if !events[n].EndEvent? && LastEnd(events).Some? {
        var i :| 0 <= i < n && events[..n][i].EndEvent? && events[..n][i].end.checksum == LastEnd(events[..n]).value
          && forall j :: i < j < n ==> !events[..n][j].EndEvent?;
        assert events[i].EndEvent?;
      }
    }
  }

  function Later(first: Option<Fletcher4>, second: Option<Fletcher4>): Option<Fletcher4> {
    if second.Some? then second else first
  }

  lemma {:induction false} LastEndConcat(u: seq<SF.Event>, v: seq<SF.Event>)
    ensures LastEnd(u + v) == Later(LastEnd(u), LastEnd(v))
  {
    if v == [] {
      assert u + v == u;
    } else {
      LastEndConcat(u, v[..|v| - 1]);
      assert (u + v)[..|u + v| - 1] == u + v[..|v| - 1];
    }
  }

  /** Keep the checksum of the latest END record. */
  method NoteEnds(events: seq<SF.Event>, before: Option<Fletcher4>) returns (last: Option<Fletcher4>)
    ensures last == Later(before, LastEnd(events))
  {
    last := before;
    for i := 0 to |events|
      invariant last == Later(before, LastEnd(events[..i]))
    {
      assert events[..i + 1][..i] == events[..i];
      if events[i].EndEvent? {
        last := Some(events[i].end.checksum);
      }
    }
    assert events[..|events|] == events;
  }

  /** `read` has been cut into `pieces`, which begin the cutting of the whole. */
  ghost predicate CutSoFar(feed: seq<Byte>, size: nat, read: seq<Byte>, rest: seq<Byte>, pieces: seq<seq<Byte>>) {
    size > 0 && read + rest == feed && Cut(feed, size) == pieces + Cut(rest, size)
  }

  lemma CutStep(feed: seq<Byte>, size: nat, read: seq<Byte>, buf: seq<Byte>, rest: seq<Byte>, pieces: seq<seq<Byte>>)
    requires CutSoFar(feed, size, read, buf + rest, pieces) && buf != []
    requires |buf| == size || (|buf| < size && rest == [])
    ensures CutSoFar(feed, size, read + buf, rest, pieces + [buf])
    ensures |pieces| < |Cut(feed, size)| && Cut(feed, size)[|pieces|] == buf
  {
    var left := buf + rest;
    if rest == [] {
      assert left == buf;
    } else {
      assert left[..size] == buf && left[size..] == rest;
    }
    assert Cut(left, size) == [buf] + Cut(rest, size);
    assert pieces + ([buf] + Cut(rest, size)) == (pieces + [buf]) + Cut(rest, size);
    assert (read + buf) + rest == read + left;
  }

  lemma DescribeSnoc(pieces: seq<seq<Byte>>, buf: seq<Byte>, digest: Digest)
    ensures Describe(pieces + [buf], digest) == Describe(pieces, digest) + [Chunk(|pieces|, |buf|, digest(buf))]
  {
  }

  /** The parser has been fed exactly `read`, without an error; `last` is the last END's checksum. */
  ghost predicate Checked(parser: SP.StreamParser, read: seq<Byte>, last: Option<Fletcher4>)
    reads parser
  {
    && parser.Valid()
    && SR.Parse(read).Open?
    && SR.Parse(read).core == parser.State() && SR.Parse(read).tail == parser.Position()
    && last == LastEnd(SR.Parse(read).events)
  }

  method CheckChunk(parser: SP.StreamParser, ghost read: seq<Byte>, buf: seq<Byte>, last: Option<Fletcher4>)
    returns (ok: bool, last': Option<Fletcher4>)
    requires Checked(parser, read, last)
    modifies parser
    ensures ok ==> Checked(parser, read + buf, last')
    ensures !ok ==> SR.Parse(read + buf).Failed?
  {
    hide SR.Records, SR.Resume;
    SR.RecordsSplit(SF.INITIAL, read, buf);
    ghost var before := SR.Parse(read);
    var r := parser.Feed(buf);
    if r.Err? {
      return false, last;
    }
    LastEndConcat(before.events, r.value);
    last' := NoteEnds(r.value, last);
    return true, last';
  }

  /** What a stream must be to be committed: every record's checksums hold, and it stops at the
      end of a record. */
  ghost predicate Acceptable(s: seq<Byte>) {
    SR.Parse(s).Open? && SR.Parse(s).tail == SR.AtHeader([])
  }

  ghost predicate WellFormed(s: seq<Byte>, endChecksum: Option<Fletcher4>) {
    && Acceptable(s)
    && endChecksum == LastEnd(SR.Parse(s).events)
  }

  /** Nothing stands between the upload and its manifest. */
  ghost predicate Ready(d: Directory, p: Params, r: Outcome)
    requires r.Sent?
    reads d`activity
  {
    var s := StreamOf(d.src, p);
    && d.activity.Uploading? && d.activity.p == p && p.chunkSize > 0 && d.activity.feed == s
    && d.activity.next == |Cut(s, p.chunkSize)|
    && d.activity.inflight == {} && |d.activity.uploaded| == d.activity.next
    && r.chunks == Describe(Cut(s, p.chunkSize), d.src.digest)
    && r.bytes == |s| && r.streamDigest == d.src.digest(s)
    && WellFormed(s, r.endChecksum)
  }

  lemma Beginning(parser: SP.StreamParser, feed: seq<Byte>, size: nat, digest: Digest)
    requires size > 0
    requires parser.Valid() && parser.State() == SF.INITIAL && parser.Position() == SR.AtHeader([])
    ensures Checked(parser, [], None) && CutSoFar(feed, size, [], feed, []) && Describe([], digest) == []
  {
    assert [] + feed == feed;
  }

  lemma Ending(feed: seq<Byte>, size: nat, read: seq<Byte>, pieces: seq<seq<Byte>>)
    requires CutSoFar(feed, size, read, [], pieces)
    ensures read == feed && pieces == Cut(feed, size)
  {
    assert read + [] == read;
  }

  /** What is refused stays refused, whatever follows. */
  lemma RefusedForGood(feed: seq<Byte>, size: nat, read: seq<Byte>, rest: seq<Byte>, pieces: seq<seq<Byte>>)
    requires CutSoFar(feed, size, read, rest, pieces) && SR.Parse(read).Failed?
    ensures !Acceptable(feed)
  {
    hide SR.Records, Cut;
    SR.RecordsSplit(SF.INITIAL, read, rest);
  }

  lemma CutShort(parser: SP.StreamParser, feed: seq<Byte>, last: Option<Fletcher4>)
    requires Checked(parser, feed, last) && parser.Position() != SR.AtHeader([])
    ensures !Acceptable(feed)
  {
    hide SR.Records;
  }

  /** Once drained, as many uploads are done as there are chunks. */
  lemma AllJoined(d: Directory, p: Params, feed: seq<Byte>, parallel: nat, existing: map<nat, nat>, n: nat,
                  joined: set<nat>)
    requires Tracks(d, p, feed, parallel, existing, n, map[], joined)
    ensures |joined| == n
  {
    d.Holding();
    hide Cut, IsPath, Arrivals, Untouched, ChunksOf;
    ghost var nothing: map<nat, seq<Byte>> := map[];
    assert nothing.Keys == {};
    NothingMissing(n, joined, parallel);
  }

  lemma NowReady(d: Directory, p: Params, feed: seq<Byte>, parallel: nat, existing: map<nat, nat>, uploaded: set<nat>,
                 parser: SP.StreamParser, chunks: seq<Chunk>, last: Option<Fletcher4>)
    requires Tracks(d, p, feed, parallel, existing, |chunks|, map[], uploaded) && |uploaded| == |chunks|
    requires feed == StreamOf(d.src, p) && chunks == Describe(Cut(feed, p.chunkSize), d.src.digest)
    requires Checked(parser, feed, last) && parser.Position() == SR.AtHeader([])
    ensures Ready(d, p, Sent(chunks, |feed|, d.src.digest(feed), last))
  {
    hide Inv, IsPath, Cut, SR.Records;
  }

  /** Renew after a minute. */
  const LEASE_REFRESH := 60_000_000_000

  /** Renew the lease, if `now` is a minute after it was last done. A write that is reported as failed
      may have happened. `after` is the time once it is done. */
  method KeepAlive(d: Directory, ghost p: Params, ghost feed: seq<Byte>, ghost parallel: nat,
                   ghost existing: map<nat, nat>, ghost next: nat, ghost inflight: map<nat, seq<Byte>>,
                   ghost uploaded: set<nat>, mine: Pending, refreshed: Instant, now: Instant, after: Instant)
    returns (ok: bool, refreshed': Instant)
    requires Tracks(d, p, feed, parallel, existing, next, inflight, uploaded) && mine.params == p
    modifies d
    ensures Tracks(d, p, feed, parallel, existing, next, inflight, uploaded)
    ensures d.Valid() && old(d.dirs) <= d.dirs && old(d.faults) <= d.faults && (!ok ==> old(d.faults) < d.faults)
    ensures now - refreshed < 60 * 1_000_000_000 ==> refreshed' == refreshed && d.contents == old(d.contents)
    ensures ok && now - refreshed >= 60 * 1_000_000_000 ==>
      refreshed' == after && d.contents.marker == Readable(mine.(refreshedAt := now))
  {
    hide Inv, IsPath, Cut;
    if now - refreshed < LEASE_REFRESH {
      return true, refreshed;
    }
    ok := d.Try();
    var written: bool := *;
    if ok || written {
      var marker := mine.(refreshedAt := now);
      d.Do(Refresh(marker), d.contents.(marker := Readable(marker)), d.activity);
    }
    refreshed' := after;
  }

  /** Two readings of the clock per chunk, the first one right after the claim; none is as much as a
      minute after the one before it. */
  ghost predicate Steady(start: Instant, clock: nat -> Instant) {
    && 0 <= clock(0) - start < LEASE_REFRESH
    && forall i: nat :: 0 <= clock(i + 1) - clock(i) < LEASE_REFRESH
  }

  /** `stamps[i]` is the time on the marker from the `i`th reading of the clock to the next: the lease
      has not run out by then. */
  ghost predicate NeverLapses(stamps: seq<Instant>, clock: nat -> Instant) {
    forall i: nat :: i < |stamps| ==> clock(i + 1) - stamps[i] < LEASE
  }

  /** So far, after `k` chunks. */
  ghost predicate Timely(start: Instant, clock: nat -> Instant, k: nat, stamps: seq<Instant>, refreshed: Instant) {
    && |stamps| == 2 * k + 1
    && (Steady(start, clock) ==>
          && NeverLapses(stamps, clock)
          && 0 <= refreshed - stamps[2 * k] < LEASE_REFRESH && 0 <= clock(2 * k) - refreshed < 2 * LEASE_REFRESH)
  }

  lemma Lapseless(clock: nat -> Instant)
    ensures NeverLapses([], clock)
  {
  }

  /** And `found` is the marker in place. */
  ghost predicate Renewed(found: Marker, mine: Pending, clock: nat -> Instant, k: nat, stamps: seq<Instant>,
                          refreshed: Instant) {
    && Timely(mine.refreshedAt, clock, k, stamps, refreshed)
    && found == Readable(mine.(refreshedAt := stamps[2 * k]))
  }

  lemma RenewedStart(mine: Pending, clock: nat -> Instant)
    ensures Renewed(Readable(mine), mine, clock, 0, [mine.refreshedAt], clock(0))
  {
    if Steady(mine.refreshedAt, clock) {
      assert clock(0 + 1) - clock(0) < LEASE_REFRESH;
    }
  }

  lemma RenewedSoFar(found: Marker, mine: Pending, clock: nat -> Instant, k: nat, stamps: seq<Instant>,
                     refreshed: Instant)
    requires Renewed(found, mine, clock, k, stamps, refreshed)
    ensures |stamps| == 2 * k + 1 && found == Readable(mine.(refreshedAt := stamps[2 * k]))
    ensures Steady(mine.refreshedAt, clock) ==> NeverLapses(stamps, clock)
  {
  }

  lemma TimelyNext(start: Instant, clock: nat -> Instant, k: nat, stamps: seq<Instant>, refreshed: Instant,
                   stamp': Instant, refreshed': Instant)
    requires Timely(start, clock, k, stamps, refreshed)
    requires if clock(2 * k + 1) - refreshed < LEASE_REFRESH then stamp' == stamps[2 * k] && refreshed' == refreshed
             else stamp' == clock(2 * k + 1) && refreshed' == clock(2 * k + 2)
    ensures Timely(start, clock, k + 1, stamps + [stamps[2 * k], stamp'], refreshed')
  {
    var next := stamps + [stamps[2 * k], stamp'];
    if Steady(start, clock) {
      assert 0 <= clock(2 * k + 1) - clock(2 * k) < LEASE_REFRESH;
      assert 0 <= clock(2 * k + 1 + 1) - clock(2 * k + 1) < LEASE_REFRESH;
      assert 0 <= clock(2 * k + 2 + 1) - clock(2 * k + 2) < LEASE_REFRESH;
      assert next[2 * k + 2] == stamp' && next[2 * k + 1] == stamps[2 * k];
      forall i: nat | i < |next|
        ensures clock(i + 1) - next[i] < LEASE
      {
        if i < |stamps| {
          assert next[i] == stamps[i];
        }
      }
    }
  }

  /** Keep the lease alive, after `k` chunks. */
  method Renew(d: Directory, ghost p: Params, ghost feed: seq<Byte>, ghost parallel: nat, ghost existing: map<nat, nat>,
               ghost inflight: map<nat, seq<Byte>>, ghost uploaded: set<nat>, mine: Pending, refreshed: Instant,
               clock: nat -> Instant, k: nat, ghost stamps: seq<Instant>)
    returns (ok: bool, refreshed': Instant, ghost stamps': seq<Instant>)
    requires Tracks(d, p, feed, parallel, existing, k, inflight, uploaded) && mine.params == p
    requires Renewed(d.contents.marker, mine, clock, k, stamps, refreshed)
    modifies d
    ensures Tracks(d, p, feed, parallel, existing, k, inflight, uploaded)
    ensures d.Valid() && old(d.dirs) <= d.dirs && old(d.faults) <= d.faults && (!ok ==> old(d.faults) < d.faults)
    ensures ok ==> Renewed(d.contents.marker, mine, clock, k + 1, stamps', refreshed')
    ensures Steady(mine.refreshedAt, clock) ==> NeverLapses(stamps', clock)
  {
    hide Tracks, Steady, NeverLapses;
    var now, after := clock(2 * k + 1), clock(2 * k + 2);
    RenewedSoFar(d.contents.marker, mine, clock, k, stamps, refreshed);
    ok, refreshed' := KeepAlive(d, p, feed, parallel, existing, k, inflight, uploaded, mine, refreshed, now, after);
    stamps' := stamps;
    if ok {
      var stamp := if now - refreshed < LEASE_REFRESH then stamps[2 * k] else now;
      TimelyNext(mine.refreshedAt, clock, k, stamps, refreshed, stamp, refreshed');
      stamps' := stamps + [stamps[2 * k], stamp];
    }
  }

  datatype Fetch = Nothing | Bad | Got(buf: seq<Byte>, last: Option<Fletcher4>)

  /** Read one chunk and check it. A read can fail, and a signal can arrive. */
  method NextChunk(d: Directory, pipe: Pipe, parser: SP.StreamParser, ghost feed: seq<Byte>, size: nat, read: seq<Byte>,
                   ghost pieces: seq<seq<Byte>>, last: Option<Fletcher4>)
    returns (r: Fetch)
    requires CutSoFar(feed, size, read, pipe.rest, pieces) && size > 0 && Checked(parser, read, last)
    modifies d`faults, pipe, parser
    ensures old(d.faults) <= d.faults
    ensures r.Nothing? ==> CutSoFar(feed, size, read, [], pieces) && Checked(parser, read, last)
    ensures r.Bad? ==> old(d.faults) < d.faults || !Acceptable(feed)
    ensures r.Got? ==>
      && CutSoFar(feed, size, read + r.buf, pipe.rest, pieces + [r.buf]) && Checked(parser, read + r.buf, r.last)
      && |pieces| < |Cut(feed, size)| && Cut(feed, size)[|pieces|] == r.buf && |pipe.rest| < |old(pipe.rest)|
  {
    hide *;
    var ok := d.Try();
    if !ok {
      return Bad;
    }
    var buf := pipe.ReadChunk(size);
    if buf == [] {
      return Nothing;
    }
    CutStep(feed, size, read, buf, pipe.rest, pieces);
    var last';
    ok, last' := CheckChunk(parser, read, buf, last);
    if !ok {
      RefusedForGood(feed, size, read + buf, pipe.rest, pieces + [buf]);
      return Bad;
    }
    return Got(buf, last');
  }

  /** Read the stream chunk by chunk; parse, hash, record and upload each one; drain the uploads;
      and refuse unless `zfs send` ended well, the stream ended between records, and every chunk
      was uploaded. `exitOk` is how `zfs send` ends: well only if all of the stream came out. */
  method SendStream(d: Directory, p: Params, parallel: nat, marker: Pending, now: Instant, clock: nat -> Instant,
                    pipe: Pipe, exitOk: bool)
    returns (r: Outcome, ghost stamps: seq<Instant>)
    requires d.Valid() && d.activity == Idle && d.contents.manifest.None? && p.chunkSize > 0
    requires marker.params == p && pipe.rest <= StreamOf(d.src, p)
    requires exitOk ==> pipe.rest == StreamOf(d.src, p)
    modifies d, pipe
    ensures d.Valid() && old(d.dirs) <= d.dirs && old(d.faults) <= d.faults
    ensures r.Busy? <==> old(d.contents).marker.Readable? && old(d.contents).marker.value.LeaseLive(now)
    ensures r.Busy? ==> d.activity == Idle && d.contents == old(d.contents)
    ensures r.Sent? ==> exitOk && Ready(d, p, r)
    ensures r.Failed? ==> old(d.faults) < d.faults || !exitOk || !Acceptable(StreamOf(d.src, p))
    ensures Steady(marker.refreshedAt, clock) ==> NeverLapses(stamps, clock)
    ensures r.Sent? ==>
      && |stamps| == 2 * |r.chunks| + 1
      && d.contents.marker == Readable(marker.(refreshedAt := stamps[2 * |r.chunks|]))
  {
    hide *;
    ghost var feed := pipe.rest;
    var claimed := Claim(d, p, parallel, marker, now, feed);
    stamps := [];
    Lapseless(clock);
    if !claimed.Ours? {
      r := if claimed.Aside? then Busy else Failed;
      return;
    }
    var existing := claimed.existing;
    var parser := new SP.StreamParser();
    var last, chunks, hashed := None, [], [];
    var inflight: map<nat, seq<Byte>>, uploaded: set<nat>, total := map[], {}, 0;
    ghost var pieces: seq<seq<Byte>> := [];
    Beginning(parser, feed, p.chunkSize, d.src.digest);
    var refreshed := clock(0);
    stamps := [marker.refreshedAt];
    RenewedStart(marker, clock);
    RenewedSoFar(d.contents.marker, marker, clock, 0, stamps, refreshed);
    while true
      invariant d.Valid() && old(d.dirs) <= d.dirs && old(d.faults) <= d.faults
      invariant Tracks(d, p, feed, parallel, existing, |chunks|, inflight, uploaded)
      invariant CutSoFar(feed, p.chunkSize, hashed, pipe.rest, pieces)
      invariant chunks == Describe(pieces, d.src.digest) && total == |hashed| && |chunks| == |pieces|
      invariant fresh(parser) && Checked(parser, hashed, last)
      invariant Renewed(d.contents.marker, marker, clock, |chunks|, stamps, refreshed)
      invariant Steady(marker.refreshedAt, clock) ==> NeverLapses(stamps, clock)
      decreases |pipe.rest|
    {
      var next := NextChunk(d, pipe, parser, feed, p.chunkSize, hashed, pieces, last);
      if next.Bad? {
        return Failed, stamps;
      }
      if next.Nothing? {
        Ending(feed, p.chunkSize, hashed, pieces);
        break;
      }
      var ok, buf := true, next.buf;
      last := next.last;
      DescribeSnoc(pieces, buf, d.src.digest);
      ok, refreshed, stamps := Renew(d, p, feed, parallel, existing, inflight, uploaded, marker, refreshed, clock,
                                     |chunks|, stamps);
      if !ok {
        return Failed, stamps;
      }
      hashed := hashed + buf;
      total := total + |buf|;
      ok, inflight, uploaded := UploadOrSkip(d, p, feed, parallel, existing, |chunks|, inflight, uploaded, buf);
      if !ok {
        return Failed, stamps;
      }
      chunks := chunks + [Chunk(|chunks|, |buf|, d.src.digest(buf))];
      pieces := pieces + [buf];
    }
    RenewedSoFar(d.contents.marker, marker, clock, |chunks|, stamps, refreshed);
    r := Conclude(d, p, feed, parallel, existing, inflight, uploaded, parser, chunks, total, hashed, last, exitOk);
  }

  /** All is read: drain the uploads, and look at how `zfs send`, the stream and the uploads ended. */
  method Conclude(d: Directory, p: Params, ghost feed: seq<Byte>, ghost parallel: nat, ghost existing: map<nat, nat>,
                  inflight: map<nat, seq<Byte>>, uploaded: set<nat>, parser: SP.StreamParser, chunks: seq<Chunk>,
                  total: nat, hashed: seq<Byte>, last: Option<Fletcher4>, exitOk: bool)
    returns (r: Outcome)
    requires Tracks(d, p, feed, parallel, existing, |chunks|, inflight, uploaded)
    requires hashed == feed && total == |feed| && (exitOk ==> feed == StreamOf(d.src, p))
    requires chunks == Describe(Cut(feed, p.chunkSize), d.src.digest) && Checked(parser, feed, last)
    modifies d
    ensures d.Valid() && old(d.dirs) <= d.dirs && old(d.faults) <= d.faults && !r.Busy?
    ensures d.contents.marker == old(d.contents).marker
    ensures r.Sent? ==> exitOk && Ready(d, p, r) && r.chunks == chunks
    ensures r.Failed? ==> old(d.faults) < d.faults || !exitOk || !Acceptable(feed)
  {
    hide *;
    var ok, joined := Drain(d, p, feed, parallel, existing, |chunks|, inflight, uploaded);
    if !ok || !exitOk {
      return Failed;
    }
    var finished := parser.Finish();
    AllJoined(d, p, feed, parallel, existing, |chunks|, joined);
    if finished.Err? {
      CutShort(parser, feed, last);
    }
    if finished.Err? || |joined| != |chunks| {
      return Failed;
    }
    NowReady(d, p, feed, parallel, existing, joined, parser, chunks, last);
    r := Sent(chunks, total, d.src.digest(hashed), last);
  }

  // ---- The whole command --------------------------------------------------------------------

  /** The local snapshot being archived. */
  datatype Snapshot = Snapshot(dataset: string, datasetGuid: Guid, name: string, guid: Guid, createtxg: nat)

  datatype SendResult = AlreadyArchived | InProgress | Aborted | Archived(m: Manifest)

  function ManifestFor(snap: Snapshot, p: Params, o: Outcome, at: Instant): Manifest
    requires o.Sent?
  {
    Manifest(snap.dataset, snap.datasetGuid, snap.name, snap.guid, p.from, snap.createtxg, at,
             p.flags, o.bytes, o.streamDigest, o.endChecksum, o.chunks)
  }

  /** The manifest says which snapshot of which dataset was archived, when, and from what. */
  predicate About(m: Manifest, snap: Snapshot, p: Params, at: Instant) {
    && m.dataset == snap.dataset && m.datasetGuid == snap.datasetGuid
    && m.snapshot == snap.name && m.snapshotGuid == snap.guid
    && m.createtxg == snap.createtxg && m.createdAt == at
    && m.from == p.from && m.flags == p.flags
  }

  lemma FiledByItself(d: Directory, snap: Snapshot, p: Params, at: Instant, m: Manifest)
    requires About(m, snap, p, at) && d.id == (snap.datasetGuid, snap.guid)
    ensures d.Files(Commit(m))
  {
  }

  lemma CommitAllowed(d: Directory, snap: Snapshot, p: Params, o: Outcome, at: Instant)
    requires o.Sent? && Ready(d, p, o)
    ensures var m := ManifestFor(snap, p, o, at);
      Next(d.src, Dir(d.contents, d.activity), Commit(m), Dir(d.contents.(manifest := Some(m)), Committed))
    ensures var m := ManifestFor(snap, p, o, at);
      About(m, snap, p, at) && WellFormed(StreamOf(d.src, p), m.endChecksum)
  {
    hide Cut, Describe, WellFormed;
  }

  /** A manifest in the directory is proof of a whole backup. */
  lemma Archives(d: Directory)
    requires d.Valid() && d.contents.manifest.Some?
    ensures BackedUp(d)
  {
    hide Cut, Gather, Intact, IsPath;
    d.Holding();
    BackedIsIntact(d.src, d.contents);
  }

  /** Verify passes on what is stored, and the stored chunks in order are the stream. */
  ghost predicate BackedUp(d: Directory)
    requires d.contents.manifest.Some?
    reads d
  {
    var m := d.contents.manifest.value;
    && Intact(m, d.contents.chunks, d.src.digest)
    && Gather(m.chunks, d.contents.chunks) == (d.src.stream)(m.from, m.flags)
  }

  /** Send one snapshot. However it ends, nothing but a whole backup is ever visible; when it
      reports success the stream it read was valid and is what the bucket holds. */
  method Send(d: Directory, snap: Snapshot, p: Params, parallel: nat, marker: Pending, now: Instant, at: Instant,
              clock: nat -> Instant, pipe: Pipe, exitOk: bool)
    returns (r: SendResult, ghost stamps: seq<Instant>)
    requires d.Valid() && d.activity == Idle && p.chunkSize > 0 && d.id == (snap.datasetGuid, snap.guid)
    requires marker.params == p && pipe.rest <= StreamOf(d.src, p)
    requires exitOk ==> pipe.rest == StreamOf(d.src, p)
    modifies d, pipe
    ensures d.Valid() && old(d.dirs) <= d.dirs && old(d.faults) <= d.faults && d.activity == Idle
    ensures d.contents.manifest.Some? ==> BackedUp(d)
    ensures r.AlreadyArchived? <==> old(d.contents).manifest.Some?
    ensures r.InProgress? <==> old(d.contents).manifest.None? && old(d.contents).marker.Readable?
                               && old(d.contents).marker.value.LeaseLive(now)
    ensures r.AlreadyArchived? || r.InProgress? ==> d.contents == old(d.contents)
    ensures r.Archived? ==>
      && exitOk && d.contents.manifest == Some(r.m)
      && About(r.m, snap, p, at) && WellFormed(StreamOf(d.src, p), r.m.endChecksum)
      && (d.faults == old(d.faults) ==> d.contents.marker.Absent?)
    ensures Steady(marker.refreshedAt, clock) ==> NeverLapses(stamps, clock)
    ensures r.Aborted? ==> old(d.faults) < d.faults || !exitOk || !Acceptable(StreamOf(d.src, p))
  {
    hide *;
    if d.contents.manifest.Some? {
      Archives(d);
      Lapseless(clock);
      return AlreadyArchived, [];
    }
    var o;
    o, stamps := SendStream(d, p, parallel, marker, now, clock, pipe, exitOk);
    if o.Busy? {
      return InProgress, stamps;
    }
    r := Aborted;
    if o.Sent? {
      var m := ManifestFor(snap, p, o, at);
      CommitAllowed(d, snap, p, o, at);
      FiledByItself(d, snap, p, at, m);
      var written: bool := *;
      var reported := d.Try();
      if written || reported {
        d.Do(Commit(m), d.contents.(manifest := Some(m)), Committed);
      }
      if reported {
        r := Archived(m);
        Forget(d);
      }
    }
    StopAllowed(d);
    d.Do(Stop, d.contents, Idle);
    if d.contents.manifest.Some? {
      Archives(d);
    }
  }

  /** Remove the marker; failing to is harmless. */
  method Forget(d: Directory)
    requires d.Valid() && d.activity == Committed
    modifies d
    ensures d.Valid() && old(d.dirs) <= d.dirs && old(d.faults) <= d.faults
    ensures d.contents == old(d.contents) || d.contents == old(d.contents).(marker := Absent)
    ensures d.faults == old(d.faults) ==> d.contents.marker.Absent?
  {
    hide Inv, IsPath;
    var ok := d.Try();
    var removed: bool := *;
    if ok || removed {
      d.Do(Unmark, d.contents.(marker := Absent), Idle);
    }
  }

  lemma StopAllowed(d: Directory)
    ensures Next(d.src, Dir(d.contents, d.activity), Stop, Dir(d.contents, Idle)) && d.Files(Stop)
  {
  }
}
