/** What an accepted stream proves about its bytes. */
module StreamIntegrity {
  import opened Bytes
  import opened Fletcher
  import opened StreamFormat
  import opened StreamReference

  // ---- The running checksum --------------------------------------------------

  /** The checksum in `r` is the one of `s` up to the bytes held back, continued from `c`. */
  ghost predicate Covers(c: Core, s: seq<Byte>, r: Run)
    requires r.Open?
  {
    var held := r.tail.Held();
    && |held| <= |s|
    && s[|s| - |held|..] == held
    && (|s| - |held|) % 4 == 0
    && r.core.cksum == Sum(c.cksum, s[..|s| - |held|], r.core.swap)
    && r.core.stats.bytes - c.stats.bytes == |s| - (if r.tail.AtHeader? then |held| else 0)
  }

  lemma AcceptFacts(c: Core, hdr: seq<Byte>)
    requires |hdr| == RECORD_LEN && Handle(c, hdr).Accept?
    ensures var r := Handle(c, hdr);
      && ByteOrder(c, hdr) == Some(r.core.swap)
      && r.core.started
      && r.core.cksum == Sum(c.cksum, hdr, r.core.swap)
      && r.core.stats.bytes == c.stats.bytes + RECORD_LEN
      && var rt := FromU32(Word32At(hdr, 0, r.core.swap));
      && rt.Some?
      && r.payload == PayloadLen(rt.value, hdr, r.core.swap)
  {
    hide Sum, PayloadLen, FromStreamBytes, DecodeBegin, DecodeEnd;
  }

  lemma {:induction false} RecordsChecksum(c: Core, s: seq<Byte>)
    requires Records(c, s).Open?
    ensures Covers(c, s, Records(c, s))
    ensures c.started ==> Records(c, s).core.swap == c.swap && Records(c, s).core.started
    ensures |s| >= RECORD_LEN ==>
      Records(c, s).core.started && ByteOrder(c, s[..RECORD_LEN]) == Some(Records(c, s).core.swap)
    decreases |s|, 0
  {
    hide Sum, Handle, PayloadLen, Payload, Word64At;
    if |s| < RECORD_LEN {
      HeaderBytesOnly(c, s);
    } else {
      hide Covers;
      var hdr, rest := s[..RECORD_LEN], s[RECORD_LEN..];
      AcceptFacts(c, hdr);
      var h := Handle(c, hdr);
      PayloadChecksum(h.core, h.payload, [], rest);
      var r := Payload(h.core, h.payload, [], rest);
      assert [] + rest == rest;
      CoversLonger(c, hdr, h.core, rest, r);
      assert s == hdr + rest;
      CoversPrepend(c, s, AsEvents(h.event), r);
    }
  }

  lemma CoversPrepend(c: Core, s: seq<Byte>, events: seq<Event>, r: Run)
    requires r.Open? && Covers(c, s, r)
    ensures Covers(c, s, Prepend(events, r))
  {
    hide Sum;
  }

  lemma HeaderBytesOnly(c: Core, s: seq<Byte>)
    requires |s| < RECORD_LEN
    ensures Records(c, s) == Open(c, AtHeader(s), []) && Covers(c, s, Records(c, s))
  {
    assert s[..0] == [];
    SumNothing(c.cksum, c.swap);
  }

  lemma SumNothing(f: Fletcher4, swap: bool)
    ensures Sum(f, [], swap) == f
  {
  }

  /** Coverage of a rest, continued from just after `front`, is coverage of the whole. */
  lemma CoversLonger(c: Core, front: seq<Byte>, c': Core, rest: seq<Byte>, r: Run)
    requires |front| % 4 == 0 && r.Open? && r.core.swap == c'.swap
    requires c'.cksum == Sum(c.cksum, front, c'.swap) && c'.stats.bytes == c.stats.bytes + |front|
    requires Covers(c', rest, r)
    ensures Covers(c, front + rest, r)
  {
    hide Sum;
    SumLonger(c.cksum, front, rest, |rest| - |r.tail.Held()|, c'.swap);
  }

  lemma SumLonger(f: Fletcher4, front: seq<Byte>, rest: seq<Byte>, m: nat, swap: bool)
    requires m <= |rest| && |front| % 4 == 0 && m % 4 == 0
    ensures (|front| + m) % 4 == 0
    ensures Sum(f, (front + rest)[..|front| + m], swap) == Sum(Sum(f, front, swap), rest[..m], swap)
    ensures (front + rest)[|front| + m..] == rest[m..]
  {
    hide Sum;
    SumConcat(f, front, rest[..m], swap);
    SplitAfter(front, rest, m);
  }

  /** `c` with `n` bytes fewer counted. */
  ghost function Earlier(c: Core, n: nat): Core
    requires n <= c.stats.bytes
  {
    c.(stats := c.stats.(bytes := c.stats.bytes - n))
  }

  lemma {:induction false} PayloadChecksum(c: Core, n: nat, stray: seq<Byte>, s: seq<Byte>)
    requires |stray| < 4 && (|stray| + n) % 4 == 0
    requires c.stats.bytes >= |stray|
    requires c.started && Payload(c, n, stray, s).Open?
    ensures var r := Payload(c, n, stray, s);
      && r.core.started && r.core.swap == c.swap
      && Covers(Earlier(c, |stray|), stray + s, r)
    decreases |s|, 1
  {
    hide Sum, Handle, Records;
    var c0 := Earlier(c, |stray|);
    if |s| < n {
      StoppedInside(c, n, stray, s);
    } else {
      var front := stray + s[..n];
      var c' := Absorb(c, front, n);
      RecordsChecksum(c', s[n..]);
      CoversLonger(c0, front, c', s[n..], Payload(c, n, stray, s));
      assert front + s[n..] == stray + s;
    }
  }

  lemma StoppedInside(c: Core, n: nat, stray: seq<Byte>, s: seq<Byte>)
    requires |stray| < 4 && (|stray| + n) % 4 == 0 && |s| < n
    requires c.stats.bytes >= |stray|
    ensures Covers(Earlier(c, |stray|), stray + s, Payload(c, n, stray, s))
  {
    hide Sum, Records;
    var t := stray + s;
    assert |t| - |t[Aligned(|t|)..]| == Aligned(|t|);
  }

  ghost predicate ChecksumSoFar(s: seq<Byte>, c: Core) {
    var k := Aligned(c.stats.bytes);
    k <= |s| && c.cksum == Sum(ZERO, s[..k], c.swap)
  }

  /** After any successful feeds the running checksum is fletcher4 of every byte counted so far,
      rounded down to a word: across records, payloads and sub-streams. */
  lemma RunningChecksum(s: seq<Byte>)
    requires Parse(s).Open?
    ensures ChecksumSoFar(s, Parse(s).core)
  {
    hide Sum, Records;
    RecordsChecksum(INITIAL, s);
    var r := Parse(s);
    AlignedHeld(|s|, |r.tail.Held()|, r.core.stats.bytes, r.tail.AtHeader?);
  }

  lemma AlignedHeld(n: nat, held: nat, bytes: nat, header: bool)
    requires held <= n && (n - held) % 4 == 0
    requires if header then bytes == n - held else bytes == n && held < 4
    ensures Aligned(bytes) == n - held
  {
  }

  // ---- Where records start ---------------------------------------------------

  /** A record of `s` starts, or would start, at offset `o`: found from the headers alone. */
  ghost predicate FrameStart(swap: bool, s: seq<Byte>, o: nat)
    decreases |s|
  {
    o == 0 || (
      && |s| >= RECORD_LEN
      && var hdr := s[..RECORD_LEN];
      && var rt := FromU32(Word32At(hdr, 0, swap));
      && rt.Some?
      && var n := RECORD_LEN + PayloadLen(rt.value, hdr, swap);
      && n <= o && n <= |s|
      && FrameStart(swap, s[n..], o - n))
  }

  /** Parsing up to `k` leaves nothing pending exactly when `k` is the start of a record. */
  lemma {:induction false} StopsBetweenRecords(c: Core, s: seq<Byte>, k: nat)
    requires k <= |s| && Records(c, s).Open?
    requires |s| >= RECORD_LEN ==> ByteOrder(c, s[..RECORD_LEN]).Some?
    ensures Records(c, s[..k]).Open?
    ensures var swap := if |s| >= RECORD_LEN then ByteOrder(c, s[..RECORD_LEN]).value else c.swap;
      Records(c, s[..k]).tail == AtHeader([]) <==> FrameStart(swap, s, k)
    decreases |s|
  {
    hide Handle, Payload, Sum, PayloadLen, FromU32, Word32At;
    if |s| >= RECORD_LEN && k >= RECORD_LEN {
      var hdr := s[..RECORD_LEN];
      AcceptFacts(c, hdr);
      var h := Handle(c, hdr);
      var n := RECORD_LEN + h.payload;
      assert s[..|s|] == s;
      FirstRecord(c, s, k);
      FirstRecord(c, s, |s|);
      if n <= k {
        var rest := s[n..];
        assert s[n..k] == rest[..k - n];
        if |rest| >= RECORD_LEN {
          assert ByteOrder(h.core, rest[..RECORD_LEN]) == Some(h.core.swap);
        }
        StopsBetweenRecords(AfterPayload(h, s), rest, k - n);
      }
    }
  }

  /** The state once the payload announced by `h`, the first header of `s`, has been absorbed. */
  ghost function AfterPayload(h: Handled, s: seq<Byte>): Core
    requires h.Accept? && h.payload % 4 == 0 && RECORD_LEN + h.payload <= |s|
  {
    Absorb(h.core, s[RECORD_LEN..RECORD_LEN + h.payload], h.payload)
  }

  /** Parsing `k` bytes of `s`, seen from its first record. */
  lemma FirstRecord(c: Core, s: seq<Byte>, k: nat)
    requires RECORD_LEN <= k <= |s| && Handle(c, s[..RECORD_LEN]).Accept?
    ensures var h := Handle(c, s[..RECORD_LEN]);
      var n := RECORD_LEN + h.payload;
      if k < n
      then Records(c, s[..k]).Open? && Records(c, s[..k]).tail.InPayload?
      else Records(c, s[..k]) == Prepend(AsEvents(h.event), Records(AfterPayload(h, s), s[n..k]))
  {
    hide Handle, Sum;
    var h := Handle(c, s[..RECORD_LEN]);
    var rest := s[RECORD_LEN..k];
    assert s[..k][..RECORD_LEN] == s[..RECORD_LEN] && s[..k][RECORD_LEN..] == rest;
    if RECORD_LEN + h.payload <= k {
      assert [] + rest[..h.payload] == s[RECORD_LEN..RECORD_LEN + h.payload];
      assert rest[h.payload..] == s[RECORD_LEN + h.payload..k];
    }
  }

  /** `finish` after a cut of an acceptable stream: it objects to every cut inside a record, and
      to no other. A stream cut exactly between two records, or before the first, passes. */
  lemma FinishAcceptsCuts(s: seq<Byte>, k: nat)
    requires k <= |s| && Parse(s).Open?
    ensures Parse(s[..k]).Open?
    ensures Parse(s[..k]).tail == AtHeader([]) <==> FrameStart(Parse(s).core.swap, s, k)
  {
    hide Sum, Handle, FrameStart;
    RecordsChecksum(INITIAL, s);
    StopsBetweenRecords(INITIAL, s, k);
  }

  // ---- One record inside an accepted stream ----------------------------------

  /** The parser's state at the record that starts at `o`. */
  lemma RecordAt(s: seq<Byte>, o: nat) returns (at: Core)
    requires Parse(s).Open? && o + RECORD_LEN <= |s|
    requires FrameStart(Parse(s).core.swap, s, o)
    ensures o % 4 == 0
    ensures at.cksum == Sum(ZERO, s[..o], Parse(s).core.swap)
    ensures Handle(at, s[o..o + RECORD_LEN]).Accept?
    ensures ByteOrder(at, s[o..o + RECORD_LEN]) == Some(Parse(s).core.swap)
  {
    hide Sum, Handle, FrameStart, Payload, Records, Covers;
    var swap := Parse(s).core.swap;
    FinishAcceptsCuts(s, o);
    at := Parse(s[..o]).core;
    RecordsSplit(INITIAL, s[..o], s[o..]);
    assert s[..o] + s[o..] == s && [] + s[o..] == s[o..];
    assert s[o..][..RECORD_LEN] == s[o..o + RECORD_LEN];
    FirstHeaderAccepted(at, s[o..]);
    RecordsChecksum(at, s[o..]);
    if o == 0 {
      assert s[..0] == [];
      HeaderBytesOnly(INITIAL, []);
      SumNothing(ZERO, swap);
    } else {
      PastFirstHeader(swap, s, o);
      RecordsChecksum(INITIAL, s[..o]);
      CoversWhole(s[..o]);
    }
  }

  lemma PastFirstHeader(swap: bool, s: seq<Byte>, o: nat)
    requires FrameStart(swap, s, o) && o != 0
    ensures o >= RECORD_LEN
  {
    hide PayloadLen;
  }

  lemma FirstHeaderAccepted(c: Core, s: seq<Byte>)
    requires |s| >= RECORD_LEN && Records(c, s).Open?
    ensures Handle(c, s[..RECORD_LEN]).Accept?
  {
    hide Handle;
  }

  lemma CoversWhole(s: seq<Byte>)
    requires Parse(s).Open? && Parse(s).tail == AtHeader([]) && Covers(INITIAL, s, Parse(s))
    ensures |s| % 4 == 0 && Parse(s).core.cksum == Sum(ZERO, s, Parse(s).core.swap)
  {
    hide Sum, Records;
    assert s[..|s|] == s;
  }

  /** Every record but BEGIN that carries a non-zero checksum carries the one of all bytes of the
      stream up to that field. */
  lemma EmbeddedChecksumMeaning(s: seq<Byte>, o: nat)
    requires Parse(s).Open? && o + RECORD_LEN <= |s|
    requires FrameStart(Parse(s).core.swap, s, o)
    requires Carries(Parse(s).core.swap, s[o..o + RECORD_LEN])
    ensures o % 4 == 0
    ensures Embedded(s[o..o + RECORD_LEN], Parse(s).core.swap)
         == Sum(ZERO, s[..o + CKSUM_OFF], Parse(s).core.swap)
  {
    hide Records, FrameStart, FromStreamBytes, Words, Fold;
    var at := RecordAt(s, o);
    var hdr, swap := s[o..o + RECORD_LEN], Parse(s).core.swap;
    SumConcat(ZERO, s[..o], hdr[..CKSUM_OFF], swap);
    assert s[..o] + hdr[..CKSUM_OFF] == s[..o + CKSUM_OFF];
  }

  /** A non-BEGIN header with a non-zero embedded checksum. */
  ghost predicate Carries(swap: bool, hdr: seq<Byte>)
    requires |hdr| == RECORD_LEN
  {
    Word32At(hdr, 0, swap) != 0 && !Embedded(hdr, swap).IsZero()
  }

  /** Every accepted END with a non-zero checksum carries fletcher4 of exactly the bytes before it. */
  lemma EndChecksumMeaning(s: seq<Byte>, o: nat)
    requires Parse(s).Open? && o + RECORD_LEN <= |s|
    requires FrameStart(Parse(s).core.swap, s, o)
    requires FromU32(Word32At(s[o..o + RECORD_LEN], 0, Parse(s).core.swap)) == Some(RecordType.End)
    ensures o % 4 == 0
    ensures var end := DecodeEnd(s[o..o + RECORD_LEN], Parse(s).core.swap);
      end.checksum.IsZero() || end.checksum == Sum(ZERO, s[..o], Parse(s).core.swap)
  {
    hide Records, FrameStart, FromStreamBytes, Sum;
    var at := RecordAt(s, o);
  }

  // ---- Corruption ------------------------------------------------------------

  /** `t` has the same record headers as `s`, where `s` has them. */
  ghost predicate HeadersKept(swap: bool, s: seq<Byte>, t: seq<Byte>) {
    && |s| == |t|
    && forall k: nat {:trigger FrameStart(swap, s, k)} ::
         FrameStart(swap, s, k) && k + RECORD_LEN <= |s| ==> s[k..k + RECORD_LEN] == t[k..k + RECORD_LEN]
  }

  lemma {:induction false} SameFraming(swap: bool, s: seq<Byte>, t: seq<Byte>, o: nat)
    requires HeadersKept(swap, s, t) && FrameStart(swap, s, o)
    ensures FrameStart(swap, t, o)
    decreases |s|
  {
    hide PayloadLen, Word32At, FromU32;
    if o != 0 {
      assert FrameStart(swap, s, 0);
      assert s[0..RECORD_LEN] == s[..RECORD_LEN] && t[0..RECORD_LEN] == t[..RECORD_LEN];
      var hdr := s[..RECORD_LEN];
      var n := RECORD_LEN + PayloadLen(FromU32(Word32At(hdr, 0, swap)).value, hdr, swap);
      HeadersKeptAfter(swap, s, t, n);
      SameFraming(swap, s[n..], t[n..], o - n);
    }
  }

  predicate ChecksumError(e: StreamError) { e.RecordChecksum? || e.EndChecksum? }

  /** Take an accepted stream that ends with a record carrying a checksum, keep its headers, and
      change one or two payload words, less than 2^32 words apart. Whatever follows, the result
      is rejected as a checksum error, and no later than that last record. */
  lemma CorruptPayloadRejected(s: seq<Byte>, t: seq<Byte>, o: nat, i: nat, j: nat, more: seq<Byte>)
    requires Parse(s).Open? && |s| == o + RECORD_LEN && o % 4 == 0
    requires var swap := Parse(s).core.swap;
      && FrameStart(swap, s, o)
      && Carries(swap, s[o..])
      && HeadersKept(swap, s, t)
      && OneOrTwoWordsDiffer(Words(s[..o], swap), Words(t[..o], swap), i, j)
    requires -U32 < i - j < U32
    ensures Parse(t + more).Failed? && ChecksumError(Parse(t + more).error)
    ensures Parse(t + more) == Parse(t)
  {
    hide Records, FrameStart, Handle, Words, Fold, FromStreamBytes;
    if Parse(t).Open? {
      NotBothAccepted(s, t, o, i, j);
      assert false;
    }
    RecordsSplit(INITIAL, t, more);
    FirstHeaderKept(s, t);
    SameHeadersSameErrors(INITIAL, INITIAL, s, t, Parse(s).core.swap);
  }

  lemma NotBothAccepted(s: seq<Byte>, t: seq<Byte>, o: nat, i: nat, j: nat)
    requires Parse(s).Open? && |s| == o + RECORD_LEN && o % 4 == 0
    requires var swap := Parse(s).core.swap;
      && FrameStart(swap, s, o)
      && Carries(swap, s[o..])
      && HeadersKept(swap, s, t)
      && OneOrTwoWordsDiffer(Words(s[..o], swap), Words(t[..o], swap), i, j)
    requires -U32 < i - j < U32
    ensures !Parse(t).Open?
  {
    hide Records, FrameStart, Handle, Words, Fold, FromStreamBytes;
    var swap := Parse(s).core.swap;
    if Parse(t).Open? {
      SameByteOrder(s, t, swap);
      SameFraming(swap, s, t, o);
      var hdr := s[o..o + RECORD_LEN];
      assert hdr == s[o..] && t[o..o + RECORD_LEN] == hdr;
      EmbeddedChecksumMeaning(s, o);
      EmbeddedChecksumMeaning(t, o);
      var u := hdr[..CKSUM_OFF];
      assert s[..o + CKSUM_OFF] == s[..o] + u && t[..o + CKSUM_OFF] == t[..o] + u;
      StillDiffer(s[..o], t[..o], u, swap, i, j);
      DetectsTwoWords(Words(s[..o] + u, swap), Words(t[..o] + u, swap), i, j);
      assert false;
    }
  }

  lemma FirstHeaderKept(s: seq<Byte>, t: seq<Byte>)
    requires Parse(s).Open? && |s| >= RECORD_LEN && HeadersKept(Parse(s).core.swap, s, t)
    ensures s[..RECORD_LEN] == t[..RECORD_LEN]
    ensures ByteOrder(INITIAL, s[..RECORD_LEN]) == Some(Parse(s).core.swap)
  {
    hide Handle;
    RecordsChecksum(INITIAL, s);
    assert FrameStart(Parse(s).core.swap, s, 0);
    assert s[0..RECORD_LEN] == s[..RECORD_LEN] && t[0..RECORD_LEN] == t[..RECORD_LEN];
  }

  /** Two states that differ at most in the checksum treat a header alike, checksums aside. */
  lemma SameHeader(c: Core, c': Core, hdr: seq<Byte>)
    requires |hdr| == RECORD_LEN && c' == c.(cksum := c'.cksum)
    requires Handle(c, hdr).Accept?
    ensures var h, h' := Handle(c, hdr), Handle(c', hdr);
      if h'.Accept?
      then h'.core == h.core.(cksum := h'.core.cksum) && h'.payload == h.payload
      else ChecksumError(h'.error)
  {
    hide Sum, PayloadLen, FromStreamBytes, DecodeBegin, Word64At, Word32At;
  }

  /** With the same headers as an accepted stream, only a checksum can go wrong. */
  lemma {:induction false} SameHeadersSameErrors(c: Core, c': Core, s: seq<Byte>, t: seq<Byte>, swap: bool)
    requires c' == c.(cksum := c'.cksum) && Records(c, s).Open?
    requires |s| >= RECORD_LEN ==> ByteOrder(c, s[..RECORD_LEN]) == Some(swap)
    requires HeadersKept(swap, s, t)
    ensures Records(c', t).Failed? ==> ChecksumError(Records(c', t).error)
    decreases |s|
  {
    hide Handle, Sum;
    if |s| >= RECORD_LEN {
      var hdr := s[..RECORD_LEN];
      assert FrameStart(swap, s, 0) && s[0..RECORD_LEN] == hdr && t[0..RECORD_LEN] == t[..RECORD_LEN];
      SameHeader(c, c', hdr);
      var h, h' := Handle(c, hdr), Handle(c', hdr);
      AcceptFacts(c, hdr);
      var n := RECORD_LEN + h.payload;
      if h'.Accept? && n <= |s| {
        assert s[..|s|] == s && t[..|t|] == t && s[n..|s|] == s[n..] && t[n..|t|] == t[n..];
        FirstRecord(c, s, |s|);
        FirstRecord(c', t, |t|);
        HeadersKeptAfter(swap, s, t, n);
        SameHeadersSameErrors(AfterPayload(h, s), AfterPayload(h', t), s[n..], t[n..], swap);
      }
    }
  }

  lemma HeadersKeptAfter(swap: bool, s: seq<Byte>, t: seq<Byte>, n: nat)
    requires HeadersKept(swap, s, t) && RECORD_LEN <= n <= |s|
    requires var hdr := s[..RECORD_LEN];
      var rt := FromU32(Word32At(hdr, 0, swap));
      rt.Some? && n == RECORD_LEN + PayloadLen(rt.value, hdr, swap)
    ensures HeadersKept(swap, s[n..], t[n..])
  {
    hide PayloadLen, Word32At, FromU32;
    forall k: nat | FrameStart(swap, s[n..], k) && k + RECORD_LEN <= |s[n..]|
      ensures s[n..][k..k + RECORD_LEN] == t[n..][k..k + RECORD_LEN]
    {
      assert s[n..] == s[n..][0..];
      assert FrameStart(swap, s, n + k);
      assert s[n..][k..k + RECORD_LEN] == s[n + k..n + k + RECORD_LEN];
      assert t[n..][k..k + RECORD_LEN] == t[n + k..n + k + RECORD_LEN];
    }
  }

  lemma SameByteOrder(s: seq<Byte>, t: seq<Byte>, swap: bool)
    requires Parse(s).Open? && Parse(t).Open? && |s| >= RECORD_LEN
    requires swap == Parse(s).core.swap && HeadersKept(swap, s, t)
    ensures Parse(t).core.swap == swap
  {
    hide Sum, Handle;
    assert FrameStart(swap, s, 0);
    assert s[0..RECORD_LEN] == s[..RECORD_LEN] && t[0..RECORD_LEN] == t[..RECORD_LEN];
    RecordsChecksum(INITIAL, s);
    RecordsChecksum(INITIAL, t);
  }

  lemma StillDiffer(s: seq<Byte>, t: seq<Byte>, u: seq<Byte>, swap: bool, i: nat, j: nat)
    requires |s| % 4 == 0 && |t| == |s| && |u| % 4 == 0
    requires OneOrTwoWordsDiffer(Words(s, swap), Words(t, swap), i, j)
    ensures OneOrTwoWordsDiffer(Words(s + u, swap), Words(t + u, swap), i, j)
  {
    WordsConcat(s, u, swap);
    WordsConcat(t, u, swap);
  }
}
