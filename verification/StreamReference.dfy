/** The meaning of a stream, given all of it at once: a recursive parser with no buffering,
    no phases and no ragged words. */
module StreamReference {
  import opened Bytes
  import opened Fletcher
  import opened StreamFormat

  /** Where the bytes seen so far stop: inside a header, or inside a payload with `stray` bytes
      that do not yet make a 32-bit word. */
  datatype Tail = AtHeader(pending: seq<Byte>) | InPayload(remaining: nat, stray: seq<Byte>) {
    ghost predicate Valid() {
      match this
      case AtHeader(pending) => |pending| < RECORD_LEN
      case InPayload(remaining, stray) => remaining > 0 && |stray| < 4 && (|stray| + remaining) % 4 == 0
    }
    function Held(): seq<Byte> {
      match this case AtHeader(p) => p case InPayload(_, s) => s
    }
  }

  datatype Run =
    | Open(core: Core, tail: Tail, events: seq<Event>)
    | Failed(core: Core, error: StreamError, events: seq<Event>)

  function Prepend(events: seq<Event>, r: Run): Run {
    r.(events := events + r.events)
  }

  function AsEvents(e: Option<Event>): seq<Event> {
    if e.None? then [] else [e.value]
  }

  /** Payload bytes folded into the checksum and counted. */
  function Absorb(c: Core, words: seq<Byte>, counted: nat): Core
    requires |words| % 4 == 0
  {
    c.(cksum := Sum(c.cksum, words, c.swap), stats := c.stats.(bytes := c.stats.bytes + counted))
  }

  function Aligned(n: nat): nat { n - n % 4 }

  /** Parse `s`, which starts at a record. */
  function Records(c: Core, s: seq<Byte>): (r: Run)
    ensures r.Open? ==> r.tail.Valid()
    decreases |s|, 0
  {
    if |s| < RECORD_LEN then Open(c, AtHeader(s), [])
    else match Handle(c, s[..RECORD_LEN])
      case Reject(c', e) => Failed(c', e, [])
      case Accept(c', ev, n) => Prepend(AsEvents(ev), Payload(c', n, [], s[RECORD_LEN..]))
  }

  /** Parse `s`, which starts `n` bytes before the end of a payload, after `stray` odd bytes of it. */
  function Payload(c: Core, n: nat, stray: seq<Byte>, s: seq<Byte>): (r: Run)
    requires |stray| < 4 && (|stray| + n) % 4 == 0
    ensures r.Open? ==> r.tail.Valid()
    decreases |s|, 1
  {
    if |s| < n then
      var t := stray + s;
      Open(Absorb(c, t[..Aligned(|t|)], |s|), InPayload(n - |s|, t[Aligned(|t|)..]), [])
    else
      Records(Absorb(c, stray + s[..n], n), s[n..])
  }

  /** Parse `s` from wherever the bytes before it stopped. */
  function Resume(c: Core, t: Tail, s: seq<Byte>): (r: Run)
    requires t.Valid()
    ensures r.Open? ==> r.tail.Valid()
  {
    match t
    case AtHeader(pending) => Records(c, pending + s)
    case InPayload(n, stray) => Payload(c, n, stray, s)
  }

  function Then(r: Run, s: seq<Byte>): Run
    requires r.Open? ==> r.tail.Valid()
  {
    if r.Open? then Prepend(r.events, Resume(r.core, r.tail, s)) else r
  }

  /** The whole stream, from the start. */
  function Parse(s: seq<Byte>): Run { Records(INITIAL, s) }

  // ---- The meaning does not depend on where the stream is cut --------------

  lemma PrependTwice(u: seq<Event>, v: seq<Event>, r: Run)
    ensures Prepend(u, Prepend(v, r)) == Prepend(u + v, r)
  {
    assert u + (v + r.events) == (u + v) + r.events;
  }

  lemma PrependThen(u: seq<Event>, r: Run, s: seq<Byte>)
    requires r.Open? ==> r.tail.Valid()
    ensures Then(Prepend(u, r), s) == Prepend(u, Then(r, s))
  {
    if r.Open? {
      PrependTwice(u, r.events, Resume(r.core, r.tail, s));
    }
  }

  lemma AbsorbTwice(c: Core, u: seq<Byte>, m: nat, v: seq<Byte>, n: nat)
    requires |u| % 4 == 0 && |v| % 4 == 0
    ensures Absorb(Absorb(c, u, m), v, n) == Absorb(c, u + v, m + n)
  {
    SumConcat(c.cksum, u, v, c.swap);
  }

  /** Parsing `a + b` is parsing `a`, then `b` from where `a` stopped. */
  lemma {:induction false} RecordsSplit(c: Core, a: seq<Byte>, b: seq<Byte>)
    ensures Records(c, a + b) == Then(Records(c, a), b)
    decreases |a|, 0
  {
    hide Handle, Payload, Sum;
    if |a| < RECORD_LEN {
    } else {
      assert (a + b)[..RECORD_LEN] == a[..RECORD_LEN];
      assert (a + b)[RECORD_LEN..] == a[RECORD_LEN..] + b;
      match Handle(c, a[..RECORD_LEN])
      case Reject(_, _) =>
      case Accept(c', ev, n) =>
        PayloadSplit(c', n, [], a[RECORD_LEN..], b);
        PrependThen(AsEvents(ev), Payload(c', n, [], a[RECORD_LEN..]), b);
    }
  }

  lemma {:induction false} PayloadSplit(c: Core, n: nat, stray: seq<Byte>, a: seq<Byte>, b: seq<Byte>)
    requires |stray| < 4 && (|stray| + n) % 4 == 0
    ensures Payload(c, n, stray, a + b) == Then(Payload(c, n, stray, a), b)
    decreases |a|, 1
  {
    if |a| + |b| < n {
      InsideTwice(c, n, stray, a, b);
    } else if |a| < n {
      InsideThenPast(c, n, stray, a, b);
    } else {
      assert (a + b)[..n] == a[..n];
      assert (a + b)[n..] == a[n..] + b;
      RecordsSplit(Absorb(c, stray + a[..n], n), a[n..], b);
    }
  }

  lemma Regroup(stray: seq<Byte>, a: seq<Byte>, b: seq<Byte>, k: nat)
    requires k <= |stray + a|
    ensures (stray + a)[..k] + ((stray + a)[k..] + b) == stray + (a + b)
  {
  }

  lemma SplitAfter(u: seq<Byte>, v: seq<Byte>, k: nat)
    requires k <= |v|
    ensures (u + v)[..|u| + k] == u + v[..k]
    ensures (u + v)[|u| + k..] == v[k..]
  {
  }

  /** Absorbing the words of `a`, then those that `b` completes, absorbs the words of both. */
  lemma AbsorbInside(c: Core, stray: seq<Byte>, a: seq<Byte>, b: seq<Byte>, t: seq<Byte>, u: seq<Byte>,
                     whole: seq<Byte>)
    requires t == stray + a && u == t[Aligned(|t|)..] + b && whole == stray + (a + b)
    ensures Absorb(Absorb(c, t[..Aligned(|t|)], |a|), u[..Aligned(|u|)], |b|)
         == Absorb(c, whole[..Aligned(|whole|)], |a + b|)
    ensures u[Aligned(|u|)..] == whole[Aligned(|whole|)..]
  {
    hide Sum;
    var k, k' := Aligned(|t|), Aligned(|u|);
    assert whole == t[..k] + u by { Regroup(stray, a, b, k); }
    assert Aligned(|whole|) == k + k';
    SplitAfter(t[..k], u, k');
    AbsorbTwice(c, t[..k], |a|, u[..k'], |b|);
  }

  /** Stopping inside a payload and stopping again inside it. */
  lemma InsideTwice(c: Core, n: nat, stray: seq<Byte>, a: seq<Byte>, b: seq<Byte>)
    requires |stray| < 4 && (|stray| + n) % 4 == 0
    requires |a| + |b| < n
    ensures Payload(c, n, stray, a + b) == Then(Payload(c, n, stray, a), b)
  {
    var t := stray + a;
    AbsorbInside(c, stray, a, b, t, t[Aligned(|t|)..] + b, stray + (a + b));
  }

  lemma AbsorbPast(c: Core, stray: seq<Byte>, a: seq<Byte>, b: seq<Byte>, t: seq<Byte>, rest: seq<Byte>,
                   whole: seq<Byte>)
    requires t == stray + a && rest == t[Aligned(|t|)..] + b && whole == stray + (a + b)
    requires |whole| % 4 == 0
    ensures |rest| % 4 == 0
    ensures Absorb(Absorb(c, t[..Aligned(|t|)], |a|), rest, |b|) == Absorb(c, whole, |a + b|)
  {
    Regroup(stray, a, b, Aligned(|t|));
    AbsorbTwice(c, t[..Aligned(|t|)], |a|, rest, |b|);
  }

  /** Stopping inside a payload and then completing it. */
  lemma InsideThenPast(c: Core, n: nat, stray: seq<Byte>, a: seq<Byte>, b: seq<Byte>)
    requires |stray| < 4 && (|stray| + n) % 4 == 0
    requires |a| < n <= |a| + |b|
    ensures Payload(c, n, stray, a + b) == Then(Payload(c, n, stray, a), b)
  {
    hide Sum, Handle;
    var t, m := stray + a, n - |a|;
    SplitAfter(a, b, m);
    AbsorbPast(c, stray, a, b[..m], t, t[Aligned(|t|)..] + b[..m], stray + (a + b[..m]));
  }

  lemma ResumeSplit(c: Core, t: Tail, a: seq<Byte>, b: seq<Byte>)
    requires t.Valid()
    ensures Resume(c, t, a + b) == Then(Resume(c, t, a), b)
  {
    match t
    case AtHeader(pending) =>
      assert pending + (a + b) == (pending + a) + b;
      RecordsSplit(c, pending + a, b);
    case InPayload(n, stray) =>
      PayloadSplit(c, n, stray, a, b);
  }

  /** What a caller sees who feeds slices one by one and stops at the first error: the events
      returned by the feeds that succeeded, and the state or error at the end. */
  function Drive(c: Core, t: Tail, slices: seq<seq<Byte>>): (seen: Run)
    requires t.Valid()
    ensures seen.Open? ==> seen.tail.Valid()
    decreases |slices|
  {
    if slices == [] then Open(c, t, []) else
    match Resume(c, t, slices[0])
    case Failed(c', e, _) => Failed(c', e, [])
    case Open(c', t', events) => Prepend(events, Drive(c', t', slices[1..]))
  }

  function Flatten(slices: seq<seq<Byte>>): seq<Byte> {
    if slices == [] then [] else slices[0] + Flatten(slices[1..])
  }

  /** The same stream, however it is cut: the same final state and the same events; or the same
      error, reported at the same offset and record, after a prefix of the events. */
  ghost predicate SameMeaning(seen: Run, meaning: Run) {
    if meaning.Open? then seen == meaning
    else seen.Failed? && seen.core == meaning.core && seen.error == meaning.error && seen.events <= meaning.events
  }

  lemma {:induction false} AnySlicing(c: Core, t: Tail, slices: seq<seq<Byte>>)
    requires t.Valid()
    ensures SameMeaning(Drive(c, t, slices), Resume(c, t, Flatten(slices)))
    decreases |slices|
  {
    hide Records, Payload;
    if slices == [] {
      ResumeNothing(c, t);
    } else {
      ResumeSplit(c, t, slices[0], Flatten(slices[1..]));
      var first := Resume(c, t, slices[0]);
      if first.Open? {
        AnySlicing(first.core, first.tail, slices[1..]);
      }
    }
  }

  lemma ResumeNothing(c: Core, t: Tail)
    requires t.Valid()
    ensures Resume(c, t, []) == Open(c, t, [])
  {
    match t
    case AtHeader(p) =>
      assert p + [] == p;
    case InPayload(_, stray) =>
      assert stray + [] == stray;
      assert stray[..0] == [];
      SumEmpty(c.cksum, c.swap);
  }

  /** Any slicing of a whole stream. */
  lemma SlicingIndependence(slices: seq<seq<Byte>>)
    ensures SameMeaning(Drive(INITIAL, AtHeader([]), slices), Parse(Flatten(slices)))
  {
    hide Records;
    AnySlicing(INITIAL, AtHeader([]), slices);
    assert [] + Flatten(slices) == Flatten(slices);
  }
}
