/** The builder of synthetic streams, and its round trip through the parser. */
module StreamBuilding {
  import opened Bytes
  import opened Fletcher
  import opened StreamFormat
  import opened StreamReference
  import SR = StreamRecords

  /** One call of the builder. */
  datatype Call =
    | CallBegin(to: Word64, from: Word64, features: Word64, name: seq<Byte>)
    | CallWrite(data: seq<Byte>)
    | CallFree
    | CallEnd(to: Word64)
  {
    /** What the builder asserts, or would panic on. */
    predicate Valid() {
      match this
      case CallBegin(_, _, _, name) => |name| <= 256
      case CallWrite(data) => |data| % 4 == 0 && |data| < U64
      case _ => true
    }
  }

  /** `h[off..off + b.len()].copy_from_slice(b)`. */
  function Put(h: seq<Byte>, off: nat, b: seq<Byte>): (r: seq<Byte>)
    requires off + |b| <= |h|
    ensures |r| == |h|
  {
    h[..off] + b + h[off + |b|..]
  }

  lemma PutHere(h: seq<Byte>, off: nat, b: seq<Byte>)
    requires off + |b| <= |h|
    ensures Put(h, off, b)[off..off + |b|] == b
  {
  }

  lemma PutElsewhere(h: seq<Byte>, off: nat, b: seq<Byte>, i: nat, j: nat)
    requires off + |b| <= |h| && i <= j <= |h| && (j <= off || off + |b| <= i)
    ensures Put(h, off, b)[i..j] == h[i..j]
  {
  }

  // ---- The headers ----------------------------------------------------------

  /** `(1 << 32) | (features << 2) | 1`, on u64. */
  function VersionInfo(features: Word64): Word64 {
    var low, high: int := features % 0x4000_0000, features / 0x4000_0000;
    var kept: int := high % 0x1_0000_0000;
    var raised: int := if kept % 2 == 0 then kept + 1 else kept;
    VersionInfoBits(low, raised);
    4 * low + 1 + 0x1_0000_0000 * raised
  }

  /** The two low bits say "substream"; above them, the 30 low feature bits survive. */
  lemma VersionInfoReads(features: Word64)
    ensures VersionInfo(features) % 4 == 1
    ensures VersionInfo(features) / 4 % 0x4000_0000 == features % 0x4000_0000
  {
    var low, high: int := features % 0x4000_0000, features / 0x4000_0000;
    var kept: int := high % 0x1_0000_0000;
    VersionInfoBits(low, if kept % 2 == 0 then kept + 1 else kept);
  }

  lemma VersionInfoBits(low: int, raised: int)
    requires 0 <= low < 0x4000_0000 && 0 <= raised < 0x1_0000_0000
    ensures var v := 4 * low + 1 + 0x1_0000_0000 * raised;
      0 <= v < U64 && v % 4 == 1 && v / 4 % 0x4000_0000 == low
  {
    var v := 4 * low + 1 + 0x1_0000_0000 * raised;
    assert v / 4 == low + 0x4000_0000 * raised;
  }

  function Header(f: Fletcher4, call: Call): (h: seq<Byte>)
    requires call.Valid()
    ensures |h| == RECORD_LEN
  {
    var h := Zeros(RECORD_LEN);
    match call
    case CallBegin(to, from, features, name) =>
      var h := Put(h, 0, Le32(0));
      var h := Put(h, UNION_OFF, Le64(DMU_BACKUP_MAGIC));
      var h := Put(h, UNION_OFF + 8, Le64(VersionInfo(features)));
      var h := Put(h, UNION_OFF + 16, Le64(1_700_000_000));
      var h := Put(h, UNION_OFF + 24, Le32(2));
      var h := Put(h, UNION_OFF + 32, Le64(to));
      var h := Put(h, UNION_OFF + 40, Le64(from));
      Put(h, UNION_OFF + 48, name)
    case CallWrite(data) =>
      Put(Put(h, 0, Le32(3)), UNION_OFF + 24, Le64(|data|))
    case CallFree =>
      Put(h, 0, Le32(4))
    case CallEnd(to) =>
      Put(Put(Put(h, 0, Le32(5)), UNION_OFF, ToBytes(f)), UNION_OFF + 32, Le64(to))
  }

  function Data(call: Call): (d: seq<Byte>)
    ensures call.Valid() ==> |d| % 4 == 0
  {
    if call.CallWrite? then call.data else []
  }

  /** The header with its trailing checksum filled in: every record's but BEGIN's. */
  function Sealed(f: Fletcher4, call: Call): (h: seq<Byte>)
    requires call.Valid()
    ensures |h| == RECORD_LEN
  {
    var h := Header(f, call);
    if call.CallBegin? then h else Put(h, CKSUM_OFF, ToBytes(Sum(f, h[..CKSUM_OFF], false)))
  }

  function Emitted(f: Fletcher4, call: Call): seq<Byte>
    requires call.Valid()
  {
    Sealed(f, call) + Data(call)
  }

  lemma EmittedAligned(f: Fletcher4, call: Call)
    requires call.Valid()
    ensures |Emitted(f, call)| % 4 == 0
  {
    hide Sealed;
  }

  /** fletcher4 of a whole number of words. */
  function Checksum(s: seq<Byte>): Fletcher4 {
    if |s| % 4 == 0 then Sum(ZERO, s, false) else ZERO
  }

  /** What a sequence of calls has written. */
  function Output(calls: seq<Call>): (s: seq<Byte>)
    requires forall c <- calls :: c.Valid()
  {
    if calls == [] then [] else
    var before := Output(calls[..|calls| - 1]);
    before + Emitted(Checksum(before), calls[|calls| - 1])
  }

  lemma {:induction false} OutputAligned(calls: seq<Call>)
    requires forall c <- calls :: c.Valid()
    ensures |Output(calls)| % 4 == 0
  {
    hide Emitted, Checksum;
    if calls != [] {
      var front := calls[..|calls| - 1];
      OutputAligned(front);
      EmittedAligned(Checksum(Output(front)), calls[|calls| - 1]);
    }
  }

  class Builder {
    var out: seq<Byte>
    var cksum: Fletcher4
    ghost var calls: seq<Call> // every call made so far

    ghost predicate Valid()
      reads this
    {
      (forall c <- calls :: c.Valid()) && out == Output(calls) && cksum == Checksum(out)
    }

    constructor ()
      ensures Valid() && calls == []
    {
      out, cksum, calls := [], ZERO, [];
      new;
      SumEmpty(ZERO, false);
    }

    method Begin(to: Word64, from: Word64, features: Word64, name: seq<Byte>)
      requires Valid() && |name| <= 256
      modifies this
      ensures Valid() && calls == old(calls) + [CallBegin(to, from, features, name)]
    {
      hide Put, Output, Sum;
      var h := Zeros(RECORD_LEN);
      h := Put(h, 0, Le32(0));
      h := Put(h, UNION_OFF, Le64(DMU_BACKUP_MAGIC));
      h := Put(h, UNION_OFF + 8, Le64(VersionInfo(features)));
      h := Put(h, UNION_OFF + 16, Le64(1_700_000_000));
      h := Put(h, UNION_OFF + 24, Le32(2));
      h := Put(h, UNION_OFF + 32, Le64(to));
      h := Put(h, UNION_OFF + 40, Le64(from));
      h := Put(h, UNION_OFF + 48, name);
      Record(h, [], CallBegin(to, from, features, name));
    }

    method Write(data: seq<Byte>)
      requires |data| % 4 == 0 && |data| < U64 && Valid()
      modifies this
      ensures Valid() && calls == old(calls) + [CallWrite(data)]
    {
      hide Put, Output, Sum;
      var h := Put(Zeros(RECORD_LEN), 0, Le32(3));
      h := Put(h, UNION_OFF + 24, Le64(|data|));
      Record(h, data, CallWrite(data));
    }

    method Free()
      requires Valid()
      modifies this
      ensures Valid() && calls == old(calls) + [CallFree]
    {
      hide Put, Output, Sum;
      var h := Put(Zeros(RECORD_LEN), 0, Le32(4));
      Record(h, [], CallFree);
    }

    method End(to: Word64)
      requires Valid()
      modifies this
      ensures Valid() && calls == old(calls) + [CallEnd(to)]
    {
      hide Put, Output, Sum;
      var h := Put(Zeros(RECORD_LEN), 0, Le32(5));
      h := Put(h, UNION_OFF, ToBytes(cksum));
      h := Put(h, UNION_OFF + 32, Le64(to));
      Record(h, [], CallEnd(to));
    }

    /** Seal the header, write it and its payload, and keep the running checksum. */
    method Record(header: seq<Byte>, payload: seq<Byte>, ghost call: Call)
      requires Valid() && call.Valid()
      requires header == Header(cksum, call) && payload == Data(call)
      modifies this
      ensures Valid() && calls == old(calls) + [call]
    {
      hide Header, Sum, Output, ToBytes, Put;
      ghost var before := out;
      TypeField(cksum, call);
      var hdr := header;
      var isBegin := Word32At(hdr, 0, false) == 0;
      ghost var f0 := cksum;
      cksum := Update(cksum, hdr[..CKSUM_OFF], false);
      if !isBegin {
        hdr := Put(hdr, CKSUM_OFF, ToBytes(cksum));
      }
      SealKeeps(header, ToBytes(cksum));
      cksum := Update(cksum, hdr[CKSUM_OFF..], false);
      out := out + hdr;
      out := out + payload;
      cksum := Update(cksum, payload, false);
      assert hdr == Sealed(f0, call);
      assert out == before + Emitted(f0, call);
      SumRecord(f0, hdr, payload);
      OutputAligned(calls);
      EmittedAligned(f0, call);
      SumConcat(ZERO, before, Emitted(f0, call), false);
      OutputNext(calls, call);
      calls := calls + [call];
    }
  }

  lemma SealKeeps(h: seq<Byte>, sum: seq<Byte>)
    requires |h| == RECORD_LEN && |sum| == 32
    ensures Put(h, CKSUM_OFF, sum)[..CKSUM_OFF] == h[..CKSUM_OFF]
  {
  }

  lemma OutputNext(calls: seq<Call>, call: Call)
    requires call.Valid() && forall c <- calls :: c.Valid()
    ensures Output(calls + [call]) == Output(calls) + Emitted(Checksum(Output(calls)), call)
  {
    hide Emitted, Checksum;
    assert (calls + [call])[..|calls|] == calls;
  }

  lemma SumRecord(f: Fletcher4, hdr: seq<Byte>, payload: seq<Byte>)
    requires |hdr| == RECORD_LEN && |payload| % 4 == 0
    ensures Sum(Sum(Sum(f, hdr[..CKSUM_OFF], false), hdr[CKSUM_OFF..], false), payload, false)
         == Sum(f, hdr + payload, false)
  {
    hide Sum;
    SumConcat(f, hdr[..CKSUM_OFF], hdr[CKSUM_OFF..], false);
    assert hdr == hdr[..CKSUM_OFF] + hdr[CKSUM_OFF..];
    SumConcat(f, hdr, payload, false);
  }

  // ---- Reading the headers back ----------------------------------------------

  function TypeCode(call: Call): Word32 {
    match call
    case CallBegin(_, _, _, _) => 0
    case CallWrite(_) => 3
    case CallFree => 4
    case CallEnd(_) => 5
  }

  lemma TypeField(f: Fletcher4, call: Call)
    requires call.Valid()
    ensures Word32At(Header(f, call), 0, false) == TypeCode(call)
  {
    match call
    case CallBegin(to, from, features, name) =>
      BeginFields(f, to, from, features, name);
    case CallWrite(data) =>
      WriteFields(f, data);
    case CallFree =>
      PutHere(Zeros(RECORD_LEN), 0, Le32(4));
    case CallEnd(to) =>
      EndFields(f, to);
  }

  /** A field reads back as long as no later copy overlaps it. */
  lemma Kept(h: seq<Byte>, off: nat, b: seq<Byte>, i: nat, j: nat, v: seq<Byte>)
    requires off + |b| <= |h| && i <= j <= |h| && (j <= off || off + |b| <= i)
    requires h[i..j] == v
    ensures Put(h, off, b)[i..j] == v
  {
    PutElsewhere(h, off, b, i, j);
  }

  lemma BeginFields(f: Fletcher4, to: Word64, from: Word64, features: Word64, name: seq<Byte>)
    requires |name| <= 256
    ensures var h := Header(f, CallBegin(to, from, features, name));
      && h[0..4] == Le32(0) && h[4..8] == Zeros(4)
      && h[8..16] == Le64(DMU_BACKUP_MAGIC)
      && h[16..24] == Le64(VersionInfo(features))
      && h[24..32] == Le64(1_700_000_000)
      && h[32..36] == Le32(2) && h[36..40] == Zeros(4)
      && h[40..48] == Le64(to)
      && h[48..56] == Le64(from)
      && h[56..] == name + Zeros(256 - |name|)
  {
    hide Le32, Le64, VersionInfo, LeBytes;
    var l0, l1, l2, l3, l4, l5, l6 := Le32(0), Le64(DMU_BACKUP_MAGIC), Le64(VersionInfo(features)),
      Le64(1_700_000_000), Le32(2), Le64(to), Le64(from);
    Segments(l0, l1, l2, l3, l4, l5, l6, name);
  }

  lemma Segments(l0: seq<Byte>, l1: seq<Byte>, l2: seq<Byte>, l3: seq<Byte>, l4: seq<Byte>, l5: seq<Byte>,
                 l6: seq<Byte>, name: seq<Byte>)
    requires |l0| == |l4| == 4 && |l1| == |l2| == |l3| == |l5| == |l6| == 8 && |name| <= 256
    ensures var front := Put(Put(Put(Put(Zeros(312), 0, l0), 8, l1), 16, l2), 24, l3);
      var h := Put(Put(Put(Put(front, 32, l4), 40, l5), 48, l6), 56, name);
      && h[0..4] == l0 && h[4..8] == Zeros(4) && h[8..16] == l1 && h[16..24] == l2 && h[24..32] == l3
      && h[32..36] == l4 && h[36..40] == Zeros(4) && h[40..48] == l5 && h[48..56] == l6
      && h[56..] == name + Zeros(256 - |name|)
  {
    var h0 := Put(Zeros(312), 0, l0);
    assert h0 == l0 + Zeros(308);
    var h1 := Put(h0, 8, l1);
    assert h1 == l0 + Zeros(4) + l1 + Zeros(296);
    var p1 := l0 + Zeros(4) + l1;
    var h2 := Append(p1, h1, l2);
    var h3 := Append(p1 + l2, h2, l3);
    var h4 := Append(p1 + l2 + l3, h3, l4);
    var p4 := p1 + l2 + l3 + l4;
    assert h4 == (p4 + Zeros(4)) + Zeros(272);
    var h5 := Append(p4 + Zeros(4), h4, l5);
    var h6 := Append(p4 + Zeros(4) + l5, h5, l6);
    var p6 := p4 + Zeros(4) + l5 + l6;
    var h7 := Append(p6, h6, name);
    assert p6[0..4] == l0 && p6[4..8] == Zeros(4) && p6[8..16] == l1 && p6[16..24] == l2 && p6[24..32] == l3;
    assert p6[32..36] == l4 && p6[36..40] == Zeros(4) && p6[40..48] == l5 && p6[48..56] == l6;
    assert h7 == p6 + (name + Zeros(256 - |name|));
    Prefixed(p6, name + Zeros(256 - |name|));
  }

  lemma Append(p: seq<Byte>, h: seq<Byte>, b: seq<Byte>) returns (r: seq<Byte>)
    requires |p| + |b| <= |h| == 312 && h == p + Zeros(312 - |p|)
    ensures r == Put(h, |p|, b) && r == (p + b) + Zeros(312 - |p| - |b|)
  {
    r := Put(h, |p|, b);
    assert h[..|p|] == p;
    assert h[|p| + |b|..] == Zeros(312 - |p| - |b|);
  }

  lemma Prefixed(p: seq<Byte>, v: seq<Byte>)
    ensures forall i, j {:trigger (p + v)[i..j]} :: 0 <= i <= j <= |p| ==> (p + v)[i..j] == p[i..j]
    ensures (p + v)[|p|..] == v
  {
  }

  lemma WriteFields(f: Fletcher4, data: seq<Byte>)
    requires CallWrite(data).Valid()
    ensures var h := Header(f, CallWrite(data));
      && h[0..4] == Le32(3)
      && h[8..16] == Zeros(8)
      && h[32..40] == Le64(|data|)
      && h[96..104] == Zeros(8)
  {
    hide Le32, Le64, LeBytes;
    var z, a, b := Zeros(RECORD_LEN), Le32(3), Le64(|data|);
    PutHere(z, 0, a);
    PutHere(Put(z, 0, a), 32, b);
    Kept(Put(z, 0, a), 32, b, 0, 4, a);
    Kept(z, 0, a, 8, 16, Zeros(8));
    Kept(Put(z, 0, a), 32, b, 8, 16, Zeros(8));
    Kept(z, 0, a, 96, 104, Zeros(8));
    Kept(Put(z, 0, a), 32, b, 96, 104, Zeros(8));
  }

  lemma EndFields(f: Fletcher4, to: Word64)
    ensures var h := Header(f, CallEnd(to));
      h[0..4] == Le32(5) && h[8..40] == ToBytes(f) && h[40..48] == Le64(to)
  {
    hide Le32, Le64, LeBytes, ToBytes;
    var z, a, b, d := Zeros(RECORD_LEN), Le32(5), ToBytes(f), Le64(to);
    var h1 := Put(z, 0, a);
    var h2 := Put(h1, 8, b);
    PutHere(z, 0, a);
    PutHere(h1, 8, b);
    PutHere(h2, 40, d);
    Kept(h1, 8, b, 0, 4, a);
    Kept(h2, 40, d, 0, 4, a);
    Kept(h2, 40, d, 8, 40, b);
  }

  lemma {:induction false} ValueZeros(n: nat)
    ensures Value(Zeros(n), false) == 0
  {
    if n > 0 {
      assert Zeros(n)[1..] == Zeros(n - 1);
      ValueZeros(n - 1);
    }
  }

  lemma {:induction false} UpToNulPadded(name: seq<Byte>, k: nat)
    ensures UpToNul(name + Zeros(k)) == UpToNul(name)
  {
    if name == [] {
      assert name + Zeros(k) == Zeros(k);
    } else {
      assert (name + Zeros(k))[1..] == name[1..] + Zeros(k);
      UpToNulPadded(name[1..], k);
    }
  }

  lemma ChecksumField(h: seq<Byte>, off: nat, f: Fletcher4)
    requires off + 32 <= |h| && h[off..off + 32] == ToBytes(f)
    ensures FromStreamBytes(h, off, false) == f
  {
    hide ToBytes, Value;
    SliceOfSlice(h, off, off + 32, 0, 8);
    SliceOfSlice(h, off, off + 32, 8, 16);
    SliceOfSlice(h, off, off + 32, 16, 24);
    SliceOfSlice(h, off, off + 32, 24, 32);
  }

  lemma SliceOfSlice(h: seq<Byte>, a: nat, b: nat, i: nat, j: nat)
    requires a <= b <= |h| && i <= j <= b - a
    ensures h[a..b][i..j] == h[a + i..a + j]
  {
    forall k | 0 <= k < j - i
      ensures h[a..b][i..j][k] == h[a + i..a + j][k]
    {
    }
  }

  // ---- The parser on one emitted record ---------------------------------------

  /** The header the parser reports for a BEGIN. */
  function BeginOf(to: Word64, from: Word64, features: Word64, name: seq<Byte>): BeginHeader {
    BeginHeader(Substream, features % 0x4000_0000, 1_700_000_000, 2, 0, to,
                if from == 0 then None else Some(from), UpToNul(name), false)
  }

  function EventOf(f: Fletcher4, call: Call): Option<Event> {
    match call
    case CallBegin(to, from, features, name) => Some(BeginEvent(BeginOf(to, from, features, name)))
    case CallEnd(to) => Some(EndEvent(EndRecord(f, to)))
    case _ => None
  }

  /** The parser's state once it has read the header emitted for `call`. */
  function AfterHeader(c: Core, call: Call): Core
    requires call.Valid()
  {
    var c1 := c.(swap := false, started := true, cksum := Sum(c.cksum, Sealed(c.cksum, call), false),
                 stats := c.stats.(records := c.stats.records + 1, bytes := c.stats.bytes + RECORD_LEN));
    match call
    case CallBegin(to, from, features, name) =>
      c1.(begin := if c.begin.None? then Some(BeginOf(to, from, features, name)) else c.begin,
          depth := Wrap32(c.depth + 1))
    case CallWrite(data) =>
      c1.(stats := c1.stats.(writes := c.stats.writes + 1, writeBytes := Wrap64(c.stats.writeBytes + |data|)))
    case CallFree => c1.(stats := c1.stats.(frees := c.stats.frees + 1))
    case CallEnd(to) =>
      var depth := if c.depth == 0 then 0 else c.depth - 1;
      c1.(ends := c.ends + [EndRecord(c.cksum, to)], depth := depth, finished := c.finished || depth == 0)
  }

  lemma SealedField(f: Fletcher4, call: Call, i: nat, j: nat)
    requires call.Valid() && i <= j <= CKSUM_OFF
    ensures Sealed(f, call)[i..j] == Header(f, call)[i..j]
  {
    hide Header, Sum, ToBytes, Put;
    if !call.CallBegin? {
      PutElsewhere(Header(f, call), CKSUM_OFF, ToBytes(Sum(f, Header(f, call)[..CKSUM_OFF], false)), i, j);
    }
  }

  ghost predicate CarriesSum(f: Fletcher4, h: seq<Byte>)
    requires |h| == RECORD_LEN
  {
    Embedded(h, false) == Sum(f, h[..CKSUM_OFF], false)
  }

  /** Every emitted header but BEGIN's carries the running checksum. */
  lemma SealedChecksum(f: Fletcher4, call: Call)
    requires call.Valid() && !call.CallBegin?
    ensures CarriesSum(f, Sealed(f, call))
  {
    hide Header, Sum, ToBytes, Put, FromStreamBytes;
    var h := Header(f, call);
    var sum := Sum(f, h[..CKSUM_OFF], false);
    SealKeeps(h, ToBytes(sum));
    PutHere(h, CKSUM_OFF, ToBytes(sum));
    ChecksumField(Sealed(f, call), CKSUM_OFF, sum);
  }

  ghost predicate Ready(c: Core, call: Call) {
    if c.started then !c.swap else call.CallBegin?
  }

  lemma HandleBegin(c: Core, to: Word64, from: Word64, features: Word64, name: seq<Byte>)
    requires |name| <= 256 && Ready(c, CallBegin(to, from, features, name))
    ensures var call := CallBegin(to, from, features, name);
      Handle(c, Sealed(c.cksum, call)) == Accept(AfterHeader(c, call), EventOf(c.cksum, call), 0)
  {
    hide Header, Sum, Value, Le32, Le64, VersionInfo, FromStreamBytes, UpToNul;
    BeginFields(c.cksum, to, from, features, name);
    VersionInfoReads(features);
    ValueZeros(4);
    UpToNulPadded(name, 256 - |name|);
  }

  lemma HandleWrite(c: Core, data: seq<Byte>)
    requires CallWrite(data).Valid() && Ready(c, CallWrite(data))
    ensures var call := CallWrite(data);
      Handle(c, Sealed(c.cksum, call)) == Accept(AfterHeader(c, call), None, |data|)
  {
    hide Header, Sealed, Sum, Value, Le32, Le64, FromStreamBytes, DecodeBegin, DecodeEnd;
    var f, call := c.cksum, CallWrite(data);
    WriteFields(f, data);
    SealedField(f, call, 0, 4);
    SealedField(f, call, 32, 40);
    SealedField(f, call, 96, 104);
    SealedChecksum(f, call);
    ValueZeros(8);
  }

  lemma HandleFree(c: Core)
    requires Ready(c, CallFree)
    ensures Handle(c, Sealed(c.cksum, CallFree)) == Accept(AfterHeader(c, CallFree), None, 0)
  {
    hide Header, Sealed, Sum, Value, Le32, FromStreamBytes, DecodeBegin, DecodeEnd;
    TypeField(c.cksum, CallFree);
    SealedField(c.cksum, CallFree, 0, 4);
    SealedChecksum(c.cksum, CallFree);
  }

  lemma HandleEnd(c: Core, to: Word64)
    requires Ready(c, CallEnd(to))
    ensures var call := CallEnd(to);
      Handle(c, Sealed(c.cksum, call)) == Accept(AfterHeader(c, call), EventOf(c.cksum, call), 0)
  {
    hide Header, Sealed, Sum, Value, Le32, Le64, FromStreamBytes, DecodeBegin, ToBytes;
    var f, call := c.cksum, CallEnd(to);
    EndFields(f, to);
    SealedField(f, call, 0, 4);
    SealedField(f, call, 8, 40);
    SealedField(f, call, 40, 48);
    SealedChecksum(f, call);
    ChecksumField(Sealed(f, call), 8, f);
  }

  /** The state once the payload has been read as well. */
  function After(c: Core, call: Call): Core
    requires call.Valid()
  {
    if call.CallWrite? then Absorb(AfterHeader(c, call), call.data, |call.data|) else AfterHeader(c, call)
  }

  lemma OneCall(c: Core, call: Call)
    requires call.Valid() && Ready(c, call)
    ensures Records(c, Emitted(c.cksum, call)) == Open(After(c, call), AtHeader([]), AsEvents(EventOf(c.cksum, call)))
  {
    hide Handle, Sealed, AfterHeader, Sum;
    match call {
      case CallBegin(to, from, features, name) => HandleBegin(c, to, from, features, name);
      case CallWrite(data) => HandleWrite(c, data);
      case CallFree => HandleFree(c);
      case CallEnd(to) => HandleEnd(c, to);
    }
    var hdr, data := Sealed(c.cksum, call), Data(call);
    assert (hdr + data)[..RECORD_LEN] == hdr && (hdr + data)[RECORD_LEN..] == data;
    SR.PayloadExactly(AfterHeader(c, call), data);
    if !call.CallWrite? {
      SumEmpty(AfterHeader(c, call).cksum, AfterHeader(c, call).swap);
    }
  }

  // ---- The round trip ---------------------------------------------------------

  function Writes(calls: seq<Call>): nat {
    if calls == [] then 0 else (if calls[0].CallWrite? then 1 else 0) + Writes(calls[1..])
  }

  function Frees(calls: seq<Call>): nat {
    if calls == [] then 0 else (if calls[0].CallFree? then 1 else 0) + Frees(calls[1..])
  }

  function DataBytes(calls: seq<Call>): nat {
    if calls == [] then 0 else |Data(calls[0])| + DataBytes(calls[1..])
  }

  lemma {:induction false} CountsSnoc(calls: seq<Call>, call: Call)
    ensures Writes(calls + [call]) == Writes(calls) + (if call.CallWrite? then 1 else 0)
    ensures Frees(calls + [call]) == Frees(calls) + (if call.CallFree? then 1 else 0)
    ensures DataBytes(calls + [call]) == DataBytes(calls) + |Data(call)|
  {
    if calls == [] {
      assert calls + [call] == [call] && [call][1..] == [];
    } else {
      assert (calls + [call])[1..] == calls[1..] + [call];
      CountsSnoc(calls[1..], call);
    }
  }

  /** One event per BEGIN and END call, in order: the BEGIN's own fields, and for an END the
      checksum of everything written before it. */
  function Reports(calls: seq<Call>): seq<Event>
    requires forall c <- calls :: c.Valid()
  {
    if calls == [] then [] else
    var front, last := calls[..|calls| - 1], calls[|calls| - 1];
    Reports(front) + AsEvents(EventOf(Checksum(Output(front)), last))
  }

  function EndsOf(events: seq<Event>): seq<EndRecord> {
    if events == [] then [] else
    EndsOf(events[..|events| - 1]) + (if events[|events| - 1].EndEvent? then [events[|events| - 1].end] else [])
  }

  /** What the parser must hold after reading `Output(calls)`. */
  ghost predicate Accounts(c: Core, calls: seq<Call>)
    requires forall k <- calls :: k.Valid()
  {
    && c.cksum == Checksum(Output(calls))
    && (c.started <==> calls != []) && !c.swap
    && c.stats == Stats(|calls|, |Output(calls)|, Wrap64(DataBytes(calls)), Writes(calls), 0, Frees(calls))
    && c.ends == EndsOf(Reports(calls))
  }

  /** Whatever is built from a BEGIN on is accepted, and comes back exactly: the BEGIN fields (the
      name up to its first NUL, the 30 feature bits a stream has room for), the END checksums,
      and statistics that count calls and bytes. */
  lemma {:induction false} BuiltStreamAccepted(calls: seq<Call>)
    requires forall c <- calls :: c.Valid()
    requires calls == [] || calls[0].CallBegin?
    ensures var r := Parse(Output(calls));
      r.Open? && r.tail == AtHeader([]) && r.events == Reports(calls) && Accounts(r.core, calls)
    decreases |calls|
  {
    if calls == [] {
      EmptyParse();
    } else {
      hide Records, Emitted, After, Accounts, Output, Reports, Checksum;
      var front, last := calls[..|calls| - 1], calls[|calls| - 1];
      assert calls == front + [last];
      BuiltStreamAccepted(front);
      var c := Parse(Output(front)).core;
      ReadyNext(c, front, last);
      OutputNext(front, last);
      var record := Emitted(c.cksum, last);
      RecordsSplit(INITIAL, Output(front), record);
      OneCall(c, last);
      assert [] + record == record;
      AccountsNext(c, front, last);
      ReportsNext(front, last);
    }
  }

  lemma ReadyNext(c: Core, calls: seq<Call>, call: Call)
    requires (forall k <- calls :: k.Valid()) && Accounts(c, calls)
    requires calls == [] ==> call.CallBegin?
    ensures Ready(c, call) && c.cksum == Checksum(Output(calls))
  {
    hide Checksum, Output, Reports, EndsOf, Writes, Frees, DataBytes;
  }

  lemma EmptyParse()
    ensures Parse([]) == Open(INITIAL, AtHeader([]), [])
    ensures Checksum([]) == ZERO
  {
  }

  function FoldRecord(f: Fletcher4, hdr: seq<Byte>, data: seq<Byte>): Fletcher4
    requires |hdr| == RECORD_LEN && |data| % 4 == 0
  {
    Sum(Sum(f, hdr, false), data, false)
  }

  lemma ChecksumNext(calls: seq<Call>, call: Call)
    requires call.Valid() && forall k <- calls :: k.Valid()
    ensures Checksum(Output(calls + [call]))
         == FoldRecord(Checksum(Output(calls)), Sealed(Checksum(Output(calls)), call), Data(call))
  {
    hide Sum, Sealed, Output;
    var f := Checksum(Output(calls));
    OutputNext(calls, call);
    OutputAligned(calls);
    EmittedAligned(f, call);
    SumConcat(ZERO, Output(calls), Emitted(f, call), false);
    SumConcat(f, Sealed(f, call), Data(call), false);
  }

  lemma ReportsNext(calls: seq<Call>, call: Call)
    requires call.Valid() && forall k <- calls :: k.Valid()
    ensures var f := Checksum(Output(calls));
      && Reports(calls + [call]) == Reports(calls) + AsEvents(EventOf(f, call))
      && EndsOf(Reports(calls + [call])) ==
         EndsOf(Reports(calls)) + (if call.CallEnd? then [EndRecord(f, call.to)] else [])
  {
    hide Checksum, Output, BeginOf;
    assert (calls + [call])[..|calls|] == calls;
    var before, add := Reports(calls), AsEvents(EventOf(Checksum(Output(calls)), call));
    if add == [] {
      assert before + add == before;
    } else {
      assert (before + add)[..|before|] == before;
    }
  }

  lemma AccountsNext(c: Core, calls: seq<Call>, call: Call)
    requires call.Valid() && forall k <- calls :: k.Valid()
    requires Accounts(c, calls) && Ready(c, call)
    ensures Accounts(After(c, call), calls + [call])
  {
    hide Sum, Sealed, Output, Checksum, Reports, EndsOf, Writes, Frees, DataBytes, Wrap64, BeginOf;
    ChecksumNext(calls, call);
    ReportsNext(calls, call);
    CountsSnoc(calls, call);
    SumEmpty(AfterHeader(c, call).cksum, false);
    OutputLength(calls, call);
    WrapTwice(DataBytes(calls), |Data(call)|);
  }

  lemma OutputLength(calls: seq<Call>, call: Call)
    requires call.Valid() && forall k <- calls :: k.Valid()
    ensures |Output(calls + [call])| == |Output(calls)| + RECORD_LEN + |Data(call)|
  {
    hide Sealed, Output, Checksum;
    OutputNext(calls, call);
  }

  lemma WrapTwice(x: int, y: int)
    ensures Wrap64(Wrap64(x) + y) == Wrap64(x + y)
  {
  }

  /** The same under any slicing of the output. */
  lemma RoundTripAnySlicing(calls: seq<Call>, slices: seq<seq<Byte>>)
    requires forall c <- calls :: c.Valid()
    requires calls == [] || calls[0].CallBegin?
    requires Flatten(slices) == Output(calls)
    ensures var seen := Drive(INITIAL, AtHeader([]), slices);
      seen.Open? && seen.tail == AtHeader([]) && seen.events == Reports(calls) && Accounts(seen.core, calls)
  {
    hide Records;
    SlicingIndependence(slices);
    BuiltStreamAccepted(calls);
  }

  lemma {:induction false} OutputStarts(calls: seq<Call>)
    requires calls != [] && forall c <- calls :: c.Valid()
    ensures |Output(calls)| >= RECORD_LEN
    ensures Output(calls)[..RECORD_LEN] == Sealed(ZERO, calls[0])
    decreases |calls|
  {
    hide Sealed;
    var front := calls[..|calls| - 1];
    if front == [] {
      EmptyParse();
      assert Output(calls) == [] + Emitted(ZERO, calls[0]);
    } else {
      OutputStarts(front);
    }
  }

  /** Built from any other first call, it is refused outright as not a send stream. */
  lemma BuiltWithoutBeginRefused(calls: seq<Call>)
    requires calls != [] && forall c <- calls :: c.Valid()
    requires !calls[0].CallBegin?
    ensures Parse(Output(calls)) == Failed(INITIAL, BadMagic(0), [])
  {
    hide Sealed, Value, Dispatch, Sum;
    OutputStarts(calls);
    NoMagic(calls[0]);
  }

  lemma NoMagic(call: Call)
    requires call.Valid() && !call.CallBegin?
    ensures Word64At(Sealed(ZERO, call), UNION_OFF, false) == 0
    ensures Word64At(Sealed(ZERO, call), UNION_OFF, true) == 0
  {
    hide Sealed, Value;
    SealedField(ZERO, call, 8, 16);
    var z := Zeros(RECORD_LEN);
    match call {
      case CallWrite(data) => WriteFields(ZERO, data);
      case CallFree => Kept(z, 0, Le32(4), 8, 16, Zeros(8));
      case CallEnd(to) =>
        EndFields(ZERO, to);
        ZeroChecksumBytes();
        assert Header(ZERO, call)[8..16] == Header(ZERO, call)[8..40][0..8];
    }
    ValueZeros(8);
    BigValueZeros(8);
  }

  lemma ZeroChecksumBytes()
    ensures ToBytes(ZERO)[0..8] == Zeros(8)
  {
    LeZero(8);
  }

  lemma {:induction false} LeZero(n: nat)
    ensures LeBytes(0, n) == Zeros(n)
  {
    if n > 0 {
      LeZero(n - 1);
    }
  }

  lemma {:induction false} BigValueZeros(n: nat)
    ensures Value(Zeros(n), true) == 0
  {
    if n > 0 {
      assert Zeros(n)[..n - 1] == Zeros(n - 1);
      BigValueZeros(n - 1);
    }
  }
}
