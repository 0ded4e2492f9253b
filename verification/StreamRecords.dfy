/** The record format as a table: where each field of each record type lies, in numbers, and what may
    follow it. Streams written by the table, in either byte order, are what the parser accepts. */
module StreamRecords {
  import opened Bytes
  import opened Fletcher
  import opened StreamFormat
  import opened StreamReference

  // ---- The table -------------------------------------------------------------------------------

  /** `value`, in `len` bytes from `at` on. */
  predicate Has(hdr: seq<Byte>, at: nat, len: nat, value: nat, swap: bool) {
    at + len <= |hdr| && value < Limit(len) && hdr[at..at + len] == NumBytes(value, len, swap)
  }

  datatype Body =
    | BeginBody(kind: nat, features: nat, version: Word32, creation: Word64, objset: Word32, flags: Word32,
                to: Word64, from: Word64, name: seq<Byte>)
    | ObjectBody(bonus: Word32, raw: Word32)
    | FreeObjectsBody
    | WriteBody(logical: Word64, compressed: Word64)
    | FreeBody
    | EndBody(checksum: Fletcher4, to: Word64)
    | WriteByRefBody
    | SpillBody(length: Word64, compressed: Word64)
    | EmbeddedBody(size: Word32)
    | ObjectRangeBody
    | RedactBody

  datatype Rec = Rec(body: Body, data: seq<Byte>)

  /** Where the fields lie; what is not mentioned is arbitrary. */
  ghost predicate Layout(hdr: seq<Byte>, r: Rec, swap: bool)
    requires |hdr| == 312
  {
    match r.body
    case BeginBody(kind, features, version, creation, objset, flags, to, from, name) =>
      && Has(hdr, 0, 4, 0, swap) && Has(hdr, 4, 4, |r.data|, swap) && Has(hdr, 8, 8, 0x2_f5ba_cbac, swap)
      && kind < 4 && features < 0x4000_0000
      && Has(hdr, 16, 8, kind + 4 * features + 0x1_0000_0000 * version, swap)
      && Has(hdr, 24, 8, creation, swap) && Has(hdr, 32, 4, objset, swap) && Has(hdr, 36, 4, flags, swap)
      && Has(hdr, 40, 8, to, swap) && Has(hdr, 48, 8, from, swap) && Named(hdr, name)
    case ObjectBody(bonus, raw) => Has(hdr, 0, 4, 1, swap) && Has(hdr, 28, 4, bonus, swap) && Has(hdr, 36, 4, raw, swap)
    case FreeObjectsBody => Has(hdr, 0, 4, 2, swap)
    case WriteBody(logical, compressed) =>
      Has(hdr, 0, 4, 3, swap) && Has(hdr, 32, 8, logical, swap) && Has(hdr, 96, 8, compressed, swap)
    case FreeBody => Has(hdr, 0, 4, 4, swap)
    case EndBody(f, to) =>
      Has(hdr, 0, 4, 5, swap) && hdr[8..40] == ChecksumBytes(f, swap) && Has(hdr, 40, 8, to, swap)
    case WriteByRefBody => Has(hdr, 0, 4, 6, swap)
    case SpillBody(length, compressed) =>
      Has(hdr, 0, 4, 7, swap) && Has(hdr, 16, 8, length, swap) && Has(hdr, 48, 8, compressed, swap)
    case EmbeddedBody(size) => Has(hdr, 0, 4, 8, swap) && Has(hdr, 52, 4, size, swap)
    case ObjectRangeBody => Has(hdr, 0, 4, 9, swap)
    case RedactBody => Has(hdr, 0, 4, 10, swap)
  }

  /** `size` bytes, filled up to a multiple of eight. */
  predicate Padded(data: seq<Byte>, size: nat) {
    size <= |data| < size + 8 && |data| % 8 == 0
  }

  /** What may follow the header. */
  predicate DataFits(r: Rec) {
    match r.body
    case BeginBody(_, _, _, _, _, _, _, _, _) => |r.data| < 0x1_0000_0000
    case ObjectBody(bonus, raw) => if raw > 0 then |r.data| == raw else Padded(r.data, bonus)
    case WriteBody(logical, compressed) => |r.data| == if compressed > 0 then compressed else logical
    case SpillBody(length, compressed) => |r.data| == if compressed > 0 then compressed else length
    case EmbeddedBody(size) => Padded(r.data, size)
    case _ => r.data == []
  }

  /** The name lies from byte 56 on, up to a NUL or the end. */
  predicate Named(hdr: seq<Byte>, name: seq<Byte>)
    requires |hdr| == 312
  {
    && |name| <= 256 && (forall i :: 0 <= i < |name| ==> name[i] != 0)
    && hdr[56..56 + |name|] == name && (|name| < 256 ==> hdr[56 + |name|] == 0)
  }

  ghost predicate IsHeader(hdr: seq<Byte>, r: Rec, swap: bool) {
    |hdr| == 312 && Layout(hdr, r, swap)
  }

  function ChecksumBytes(f: Fletcher4, swap: bool): (s: seq<Byte>)
    ensures |s| == 32
  {
    NumBytes(f.a, 8, swap) + NumBytes(f.b, 8, swap) + NumBytes(f.c, 8, swap) + NumBytes(f.d, 8, swap)
  }

  /** The last 32 bytes: anything in a BEGIN; otherwise the checksum of all that is ahead of them in
      the stream, or zero for none. */
  ghost predicate IsSealed(hdr: seq<Byte>, r: Rec, before: Fletcher4, swap: bool)
    requires |hdr| == 312
  {
    r.body.BeginBody?
    || hdr[280..312] == ChecksumBytes(Fletcher4(0, 0, 0, 0), swap)
    || hdr[280..312] == ChecksumBytes(Sum(before, hdr[..280], swap), swap)
  }

  /** An END names the checksum of all that is ahead of it, or zero for none. */
  ghost predicate EndsRight(r: Rec, before: Fletcher4) {
    r.body.EndBody? ==> r.body.checksum == before || r.body.checksum == Fletcher4(0, 0, 0, 0)
  }

  ghost predicate IsRecord(hdr: seq<Byte>, r: Rec, before: Fletcher4, swap: bool) {
    && IsHeader(hdr, r, swap) && DataFits(r) && |r.data| % 4 == 0
    && IsSealed(hdr, r, before, swap) && EndsRight(r, before)
  }

  // ---- Reading fields back ----------------------------------------------------------------------

  lemma Read4(hdr: seq<Byte>, at: nat, value: nat, swap: bool)
    requires Has(hdr, at, 4, value, swap)
    ensures Word32At(hdr, at, swap) == value
  {
    hide Value, Limit;
    NumReads(value, 4, swap);
  }

  lemma Read8(hdr: seq<Byte>, at: nat, value: nat, swap: bool)
    requires Has(hdr, at, 8, value, swap)
    ensures Word64At(hdr, at, swap) == value
  {
    hide Value, Limit;
    NumReads(value, 8, swap);
  }

  lemma ChecksumReads(hdr: seq<Byte>, at: nat, f: Fletcher4, swap: bool)
    requires at + 32 <= |hdr| && hdr[at..at + 32] == ChecksumBytes(f, swap)
    ensures FromStreamBytes(hdr, at, swap) == f
  {
    Limits();
    Quarters(NumBytes(f.a, 8, swap), NumBytes(f.b, 8, swap), NumBytes(f.c, 8, swap), NumBytes(f.d, 8, swap));
    hide Value, NumBytes, Limit;
    Inside(hdr, at, 0);
    Inside(hdr, at, 8);
    Inside(hdr, at, 16);
    Inside(hdr, at, 24);
    Read8(hdr, at, f.a, swap);
    Read8(hdr, at + 8, f.b, swap);
    Read8(hdr, at + 16, f.c, swap);
    Read8(hdr, at + 24, f.d, swap);
  }

  lemma Inside(hdr: seq<Byte>, at: nat, k: nat)
    requires at + 32 <= |hdr| && k + 8 <= 32
    ensures hdr[at..at + 32][k..k + 8] == hdr[at + k..at + k + 8]
  {
    var s, t := hdr[at..at + 32][k..k + 8], hdr[at + k..at + k + 8];
    assert |s| == |t| && forall i :: 0 <= i < 8 ==> s[i] == t[i];
  }

  lemma Quarters(a: seq<Byte>, b: seq<Byte>, c: seq<Byte>, d: seq<Byte>)
    requires |a| == |b| == |c| == |d| == 8
    ensures var s := a + b + c + d;
      s[0..8] == a && s[8..16] == b && s[16..24] == c && s[24..32] == d
  {
    var s := a + b + c + d;
    assert s[0..8] == a && s[8..16] == b && s[16..24] == c;
    assert s[24..32] == d;
  }

  lemma {:induction false} NameReads(s: seq<Byte>, name: seq<Byte>)
    requires name <= s && (forall i :: 0 <= i < |name| ==> name[i] != 0)
    requires |s| == |name| || s[|name|] == 0
    ensures UpToNul(s) == name
  {
    if name != [] {
      NameReads(s[1..], name[1..]);
      assert name == [s[0]] + name[1..];
    }
  }

  function TypeOf(body: Body): RecordType {
    match body
    case BeginBody(_, _, _, _, _, _, _, _, _) => Begin
    case ObjectBody(_, _) => Object
    case FreeObjectsBody => FreeObjects
    case WriteBody(_, _) => Write
    case FreeBody => Free
    case EndBody(_, _) => End
    case WriteByRefBody => WriteByRef
    case SpillBody(_, _) => Spill
    case EmbeddedBody(_) => WriteEmbedded
    case ObjectRangeBody => ObjectRange
    case RedactBody => Redact
  }

  function CodeOf(body: Body): Word32 {
    match body
    case BeginBody(_, _, _, _, _, _, _, _, _) => 0
    case ObjectBody(_, _) => 1
    case FreeObjectsBody => 2
    case WriteBody(_, _) => 3
    case FreeBody => 4
    case EndBody(_, _) => 5
    case WriteByRefBody => 6
    case SpillBody(_, _) => 7
    case EmbeddedBody(_) => 8
    case ObjectRangeBody => 9
    case RedactBody => 10
  }

  lemma TypeReads(hdr: seq<Byte>, r: Rec, swap: bool)
    requires IsHeader(hdr, r, swap)
    ensures FromU32(Word32At(hdr, 0, swap)) == Some(TypeOf(r.body))
    ensures Word32At(hdr, 0, swap) == CodeOf(r.body)
  {
    hide Word32At, Has, Named, ChecksumBytes;
    assert Has(hdr, 0, 4, CodeOf(r.body), swap);
    Read4(hdr, 0, CodeOf(r.body), swap);
    hide Layout;
  }

  /** Exactly the data is expected. */
  lemma LengthReads(hdr: seq<Byte>, r: Rec, swap: bool)
    requires IsHeader(hdr, r, swap) && DataFits(r)
    ensures PayloadLen(TypeOf(r.body), hdr, swap) == |r.data|
  {
    hide Word32At, Word64At, Has, Named, ChecksumBytes;
    match r.body
    case BeginBody(_, _, _, _, _, _, _, _, _) => Read4(hdr, 4, |r.data|, swap);
    case ObjectBody(bonus, raw) =>
      Read4(hdr, 28, bonus, swap);
      Read4(hdr, 36, raw, swap);
    case WriteBody(logical, compressed) =>
      Read8(hdr, 32, logical, swap);
      Read8(hdr, 96, compressed, swap);
    case SpillBody(length, compressed) =>
      Read8(hdr, 16, length, swap);
      Read8(hdr, 48, compressed, swap);
    case EmbeddedBody(size) => Read4(hdr, 52, size, swap);
    case _ =>
  }

  function BeginOf(body: Body, swap: bool): BeginHeader
    requires body.BeginBody?
  {
    BeginHeader(if body.kind == 2 then Compound else Substream, body.features, body.creation, body.objset, body.flags,
                body.to, if body.from == 0 then None else Some(body.from), body.name, swap)
  }

  lemma NameFieldReads(hdr: seq<Byte>, name: seq<Byte>)
    requires |hdr| == 312 && Named(hdr, name)
    ensures UpToNul(hdr[56..]) == name
  {
    assert hdr[56..][..|name|] == hdr[56..56 + |name|];
    NameReads(hdr[56..], name);
  }

  lemma BeginReads(hdr: seq<Byte>, r: Rec, swap: bool)
    requires IsHeader(hdr, r, swap) && r.body.BeginBody?
    ensures DecodeBegin(hdr, swap) == BeginOf(r.body, swap)
  {
    var b := r.body;
    hide Word32At, Word64At, Has, UpToNul, Named;
    NameFieldReads(hdr, b.name);
    VersionReads(b.kind, b.features, b.version);
    Read8(hdr, 16, b.kind + 4 * b.features + 0x1_0000_0000 * b.version, swap);
    Read8(hdr, 24, b.creation, swap);
    Read4(hdr, 32, b.objset, swap);
    Read4(hdr, 36, b.flags, swap);
    Read8(hdr, 40, b.to, swap);
    Read8(hdr, 48, b.from, swap);
  }

  lemma VersionReads(kind: nat, features: nat, version: nat)
    requires kind < 4 && features < 0x4000_0000
    ensures var x := kind + 4 * features + 0x1_0000_0000 * version;
      x % 4 == kind && x / 4 % 0x4000_0000 == features
  {
    assert kind + 4 * features + 0x1_0000_0000 * version == kind + 4 * (features + 0x4000_0000 * version);
  }

  lemma EndReads(hdr: seq<Byte>, r: Rec, swap: bool)
    requires IsHeader(hdr, r, swap) && r.body.EndBody?
    ensures DecodeEnd(hdr, swap) == EndRecord(r.body.checksum, r.body.to)
  {
    hide Word64At, Has, ChecksumBytes, FromStreamBytes;
    ChecksumReads(hdr, 8, r.body.checksum, swap);
    Read8(hdr, 40, r.body.to, swap);
  }

  /** The byte order shows in the very first record. */
  lemma OrderReads(hdr: seq<Byte>, r: Rec, swap: bool)
    requires IsHeader(hdr, r, swap) && r.body.BeginBody?
    ensures Word64At(hdr, 8, swap) == 0x2_f5ba_cbac
    ensures swap ==> Word64At(hdr, 8, false) != 0x2_f5ba_cbac
  {
    assert Has(hdr, 8, 8, 0x2_f5ba_cbac, swap);
    hide Layout, Value;
    Read8(hdr, 8, 0x2_f5ba_cbac, swap);
    BackwardMagic();
  }

  lemma BackwardMagic()
    ensures Value(BeBytes(0x2_f5ba_cbac, 8), false) != 0x2_f5ba_cbac
  {
    var s := BeBytes(0x2_f5ba_cbac, 8);
    assert s[0] == 0 by {
      FirstByte(0x2_f5ba_cbac, 8);
      Shrinks();
    }
    hide BeBytes;
    LowByte(s);
  }

  lemma LowByte(s: seq<Byte>)
    requires s != []
    ensures Value(s, false) % 0x100 == s[0]
  {
    assert Value(s, false) == s[0] + 0x100 * Value(s[1..], false);
  }

  lemma {:induction false} FirstByte(x: nat, n: nat)
    requires n > 0
    ensures BeBytes(x, n)[0] == Down(x, n - 1) % 0x100
  {
    if n > 1 {
      FirstByte(x / 0x100, n - 1);
    }
  }

  /** `x` without its `n` low bytes. */
  function Down(x: nat, n: nat): nat { if n == 0 then x else Down(x / 0x100, n - 1) }

  lemma Shrinks()
    ensures Down(0x2_f5ba_cbac, 7) == 0
  {
    assert Down(0x2_f5ba_cbac, 7) == Down(0x2_f5ba_cb, 6) == Down(0x2_f5ba, 5) == Down(0x2_f5, 4) == Down(0x2, 3);
    assert Down(0x2, 3) == Down(0, 2) == Down(0, 1) == 0;
  }

  // ---- One record --------------------------------------------------------------------------------

  function EventOf(r: Rec, swap: bool): seq<Event> {
    match r.body
    case BeginBody(_, _, _, _, _, _, _, _, _) => [BeginEvent(BeginOf(r.body, swap))]
    case EndBody(f, to) => [EndEvent(EndRecord(f, to))]
    case _ => []
  }

  function StatsAfter(s: Stats, r: Rec): Stats {
    Stats(s.records + 1, s.bytes + 312 + |r.data|,
          if r.body.WriteBody? then Wrap64(s.writeBytes + |r.data|) else s.writeBytes,
          s.writes + (if r.body.WriteBody? then 1 else 0),
          s.objects + (if r.body.ObjectBody? then 1 else 0),
          s.frees + (if r.body.FreeBody? || r.body.FreeObjectsBody? then 1 else 0))
  }

  /** How many BEGINs are open. */
  function DepthAfter(depth: Word32, r: Rec): Word32 {
    match r.body
    case BeginBody(_, _, _, _, _, _, _, _, _) => if depth == 0xffff_ffff then 0 else depth + 1
    case EndBody(_, _) => if depth == 0 then 0 else depth - 1
    case _ => depth
  }

  /** The parser after the header. */
  function HeaderAfter(c: Core, hdr: seq<Byte>, r: Rec, swap: bool): Core
    requires |hdr| == 312
  {
    var depth := DepthAfter(c.depth, r);
    Core(Sum(c.cksum, hdr, swap), swap, true, depth, StatsAfter(c.stats, r).(bytes := c.stats.bytes + 312),
         if c.begin.None? && r.body.BeginBody? then Some(BeginOf(r.body, swap)) else c.begin,
         if r.body.EndBody? then c.ends + [EndRecord(r.body.checksum, r.body.to)] else c.ends,
         c.finished || (r.body.EndBody? && depth == 0))
  }

  /** The parser after the data as well. */
  function CoreAfter(c: Core, hdr: seq<Byte>, r: Rec, swap: bool): Core
    requires |hdr| == 312 && |r.data| % 4 == 0
  {
    Absorb(HeaderAfter(c, hdr, r, swap), r.data, |r.data|)
  }

  /** The record fits where the parser stands. */
  predicate Follows(c: Core, r: Rec, swap: bool) {
    if c.started then c.swap == swap else r.body.BeginBody?
  }

  lemma SealReads(hdr: seq<Byte>, r: Rec, before: Fletcher4, swap: bool)
    requires |hdr| == 312 && IsSealed(hdr, r, before, swap) && !r.body.BeginBody?
    ensures Embedded(hdr, swap) == ZERO || Embedded(hdr, swap) == Sum(before, hdr[..280], swap)
  {
    hide ChecksumBytes, Sum;
    if hdr[280..312] == ChecksumBytes(Fletcher4(0, 0, 0, 0), swap) {
      ChecksumReads(hdr, 280, ZERO, swap);
    } else {
      ChecksumReads(hdr, 280, Sum(before, hdr[..280], swap), swap);
    }
  }

  lemma OrderFound(c: Core, hdr: seq<Byte>, r: Rec, swap: bool)
    requires Follows(c, r, swap) && IsHeader(hdr, r, swap)
    ensures ByteOrder(c, hdr) == Some(swap)
  {
    if !c.started {
      OrderReads(hdr, r, swap);
    }
    hide Word64At, Layout;
  }

  /** Every check that comes before the type-specific part is passed. */
  lemma ChecksPassed(c: Core, hdr: seq<Byte>, r: Rec, swap: bool)
    requires Follows(c, r, swap) && IsHeader(hdr, r, swap) && IsSealed(hdr, r, c.cksum, swap)
    ensures Handle(c, hdr) == Dispatch(Folded(c, hdr, swap), TypeOf(r.body), hdr, c.cksum, c.stats.bytes)
  {
    OrderFound(c, hdr, r, swap);
    TypeReads(hdr, r, swap);
    if !r.body.BeginBody? {
      SealReads(hdr, r, c.cksum, swap);
    }
    hide Sum, Word32At, Word64At, IsHeader, Embedded, IsSealed, ByteOrder, Dispatch, DataFits, FromU32;
  }

  /** The header is in and counted. */
  function Folded(c: Core, hdr: seq<Byte>, swap: bool): Core
    requires |hdr| == 312
  {
    var stats := c.stats.(records := c.stats.records + 1, bytes := c.stats.bytes + 312);
    c.(swap := swap, started := true, cksum := Sum(c.cksum, hdr, swap), stats := stats)
  }

  function FirstOf(events: seq<Event>): Option<Event> {
    if events == [] then None else Some(events[0])
  }

  lemma BeginDispatched(c: Core, hdr: seq<Byte>, r: Rec, swap: bool)
    requires |hdr| == 312 && r.body.BeginBody? && |r.data| % 4 == 0
    requires PayloadLen(Begin, hdr, swap) == |r.data| && DecodeBegin(hdr, swap) == BeginOf(r.body, swap)
    ensures Dispatch(Folded(c, hdr, swap), Begin, hdr, c.cksum, c.stats.bytes)
         == Accept(HeaderAfter(c, hdr, r, swap), FirstOf(EventOf(r, swap)), |r.data|)
  {
    hide Sum, PayloadLen, DecodeBegin, DecodeEnd, BeginOf, Wrap64;
  }

  lemma EndDispatched(c: Core, hdr: seq<Byte>, r: Rec, swap: bool)
    requires |hdr| == 312 && r.body.EndBody? && r.data == [] && EndsRight(r, c.cksum)
    requires DecodeEnd(hdr, swap) == EndRecord(r.body.checksum, r.body.to)
    ensures Dispatch(Folded(c, hdr, swap), End, hdr, c.cksum, c.stats.bytes)
         == Accept(HeaderAfter(c, hdr, r, swap), FirstOf(EventOf(r, swap)), 0)
  {
    hide Sum, DecodeBegin, DecodeEnd, BeginOf, Wrap32, Wrap64;
  }

  lemma OtherDispatched(c: Core, hdr: seq<Byte>, r: Rec, swap: bool)
    requires |hdr| == 312 && !r.body.BeginBody? && !r.body.EndBody? && |r.data| % 4 == 0
    requires PayloadLen(TypeOf(r.body), hdr, swap) == |r.data|
    ensures Dispatch(Folded(c, hdr, swap), TypeOf(r.body), hdr, c.cksum, c.stats.bytes)
         == Accept(HeaderAfter(c, hdr, r, swap), FirstOf(EventOf(r, swap)), |r.data|)
  {
    hide Sum, PayloadLen, DecodeBegin, DecodeEnd, BeginOf, Wrap32, Wrap64;
  }

  lemma HeaderAccepted(c: Core, hdr: seq<Byte>, r: Rec, swap: bool)
    requires Follows(c, r, swap) && IsRecord(hdr, r, c.cksum, swap)
    ensures Handle(c, hdr) == Accept(HeaderAfter(c, hdr, r, swap), FirstOf(EventOf(r, swap)), |r.data|)
  {
    ChecksPassed(c, hdr, r, swap);
    LengthReads(hdr, r, swap);
    hide Layout, IsSealed, Handle, Dispatch, HeaderAfter, PayloadLen;
    if r.body.BeginBody? {
      BeginReads(hdr, r, swap);
      BeginDispatched(c, hdr, r, swap);
    } else if r.body.EndBody? {
      EndReads(hdr, r, swap);
      EndDispatched(c, hdr, r, swap);
    } else {
      OtherDispatched(c, hdr, r, swap);
    }
  }

  lemma PayloadExactly(c: Core, data: seq<Byte>)
    requires |data| % 4 == 0
    ensures Payload(c, |data|, [], data) == Open(Absorb(c, data, |data|), AtHeader([]), [])
  {
    hide Handle, Sum;
    assert [] + data[..|data|] == data && data[|data|..] == [];
  }

  lemma OneRecord(c: Core, hdr: seq<Byte>, data: seq<Byte>, after: Core, event: Option<Event>)
    requires |hdr| == 312 && |data| % 4 == 0 && Handle(c, hdr) == Accept(after, event, |data|)
    ensures Records(c, hdr + data) == Open(Absorb(after, data, |data|), AtHeader([]), AsEvents(event))
  {
    hide Handle, Sum;
    assert (hdr + data)[..312] == hdr && (hdr + data)[312..] == data;
    PayloadExactly(after, data);
    assert AsEvents(event) + [] == AsEvents(event);
  }

  /** One record, header and data, from between records to between records. */
  lemma RecordAccepted(c: Core, hdr: seq<Byte>, r: Rec, swap: bool)
    requires Follows(c, r, swap) && IsRecord(hdr, r, c.cksum, swap)
    ensures Records(c, hdr + r.data) == Open(CoreAfter(c, hdr, r, swap), AtHeader([]), EventOf(r, swap))
  {
    HeaderAccepted(c, hdr, r, swap);
    SizesOf(hdr, r, c.cksum, swap);
    assert AsEvents(FirstOf(EventOf(r, swap))) == EventOf(r, swap);
    hide Handle, Sum, IsRecord, HeaderAfter, EventOf, Records, Absorb;
    OneRecord(c, hdr, r.data, HeaderAfter(c, hdr, r, swap), FirstOf(EventOf(r, swap)));
  }

  // ---- Whole streams ----------------------------------------------------------------------------------

  /** Headers and data, one record after the other. */
  function Cat(hdrs: seq<seq<Byte>>, recs: seq<Rec>): seq<Byte>
    requires |hdrs| == |recs|
  {
    if recs == [] then [] else
    Cat(hdrs[..|recs| - 1], recs[..|recs| - 1]) + hdrs[|recs| - 1] + recs[|recs| - 1].data
  }

  /** A stream of these records: each is as the table says, and sealed with the checksum of all that is
      ahead of it; a BEGIN comes first. */
  ghost predicate IsStream(hdrs: seq<seq<Byte>>, recs: seq<Rec>, swap: bool)
    requires |hdrs| == |recs|
  {
    recs != [] ==>
      var n := |recs| - 1;
      && IsStream(hdrs[..n], recs[..n], swap)
      && |Cat(hdrs[..n], recs[..n])| % 4 == 0
      && IsRecord(hdrs[n], recs[n], Sum(ZERO, Cat(hdrs[..n], recs[..n]), swap), swap)
      && (n == 0 ==> recs[n].body.BeginBody?)
  }

  function Events(recs: seq<Rec>, swap: bool): seq<Event> {
    if recs == [] then [] else Events(recs[..|recs| - 1], swap) + EventOf(recs[|recs| - 1], swap)
  }

  function Count(recs: seq<Rec>): Stats {
    if recs == [] then Stats(0, 0, 0, 0, 0, 0) else StatsAfter(Count(recs[..|recs| - 1]), recs[|recs| - 1])
  }

  function Ends(recs: seq<Rec>): seq<EndRecord> {
    if recs == [] then [] else
    var front, last := Ends(recs[..|recs| - 1]), recs[|recs| - 1].body;
    if last.EndBody? then front + [EndRecord(last.checksum, last.to)] else front
  }

  function Depth(recs: seq<Rec>): Word32 {
    if recs == [] then 0 else DepthAfter(Depth(recs[..|recs| - 1]), recs[|recs| - 1])
  }

  /** Some END has closed the last BEGIN that was open. */
  predicate Closed(recs: seq<Rec>) {
    recs != [] && (Closed(recs[..|recs| - 1]) || (recs[|recs| - 1].body.EndBody? && Depth(recs) == 0))
  }

  /** What the parser holds after these records. */
  ghost predicate Tells(c: Core, hdrs: seq<seq<Byte>>, recs: seq<Rec>, swap: bool)
    requires |hdrs| == |recs|
  {
    && Summed(c, Cat(hdrs, recs), swap) && c.stats == Count(recs)
    && (c.started <==> recs != []) && (recs != [] ==> c.swap == swap)
    && c.ends == Ends(recs) && c.depth == Depth(recs) && (c.finished <==> Closed(recs))
    && c.begin == FirstBegin(recs, swap)
  }

  function FirstBegin(recs: seq<Rec>, swap: bool): Option<BeginHeader> {
    if recs != [] && recs[0].body.BeginBody? then Some(BeginOf(recs[0].body, swap)) else None
  }

  /** All of `s` has been received, and is in the checksum. */
  ghost predicate Summed(c: Core, s: seq<Byte>, swap: bool) {
    |s| % 4 == 0 && c.cksum == Sum(ZERO, s, swap) && c.stats.bytes == |s|
  }

  lemma {:induction false} CatLength(hdrs: seq<seq<Byte>>, recs: seq<Rec>, swap: bool)
    requires |hdrs| == |recs| && IsStream(hdrs, recs, swap)
    ensures |Cat(hdrs, recs)| % 4 == 0
  {
    hide Sum, Layout, IsSealed;
  }

  /** Whatever is written by the table, with every record type and in either byte order, is accepted;
      exactly the data is consumed and counted, and the fields come back. */
  lemma {:induction false} WrittenStreamAccepted(hdrs: seq<seq<Byte>>, recs: seq<Rec>, swap: bool)
    requires |hdrs| == |recs| && IsStream(hdrs, recs, swap)
    ensures var r := Parse(Cat(hdrs, recs));
      r.Open? && r.tail == AtHeader([]) && r.events == Events(recs, swap) && Tells(r.core, hdrs, recs, swap)
    decreases |recs|
  {
    if recs == [] {
      SumEmpty(ZERO, swap);
    } else {
      var n := |recs| - 1;
      assert Events(recs, swap) == Events(recs[..n], swap) + EventOf(recs[n], swap);
      hide Records, IsRecord, Tells, Cat, Events, IsStream, EventOf;
      StreamBefore(hdrs, recs, swap);
      LastRecord(hdrs, recs, Cat(hdrs[..n], recs[..n]), swap);
      CatSnoc(hdrs, recs);
      WrittenStreamAccepted(hdrs[..n], recs[..n], swap);
      var before := Parse(Cat(hdrs[..n], recs[..n]));
      NextFollows(before.core, hdrs, recs, swap);
      SizesOf(hdrs[n], recs[n], Sum(ZERO, Cat(hdrs[..n], recs[..n]), swap), swap);
      RecordsSplit(INITIAL, Cat(hdrs[..n], recs[..n]), hdrs[n] + recs[n].data);
      RecordAccepted(before.core, hdrs[n], recs[n], swap);
      assert [] + (hdrs[n] + recs[n].data) == hdrs[n] + recs[n].data;
      StartsWithBegin(hdrs, recs, swap);
      TellsNext(before.core, hdrs, recs, swap);
    }
  }

  lemma StreamBefore(hdrs: seq<seq<Byte>>, recs: seq<Rec>, swap: bool)
    requires |hdrs| == |recs| && IsStream(hdrs, recs, swap) && recs != []
    ensures IsStream(hdrs[..|recs| - 1], recs[..|recs| - 1], swap)
    ensures |Cat(hdrs[..|recs| - 1], recs[..|recs| - 1])| % 4 == 0
  {
    hide Sum, IsRecord, Cat;
  }

  lemma LastRecord(hdrs: seq<seq<Byte>>, recs: seq<Rec>, front: seq<Byte>, swap: bool)
    requires |hdrs| == |recs| && IsStream(hdrs, recs, swap) && recs != []
    requires front == Cat(hdrs[..|recs| - 1], recs[..|recs| - 1]) && |front| % 4 == 0
    ensures IsRecord(hdrs[|recs| - 1], recs[|recs| - 1], Sum(ZERO, front, swap), swap)
    ensures |recs| == 1 ==> recs[0].body.BeginBody?
  {
    hide Sum, IsRecord, Cat;
  }

  lemma CatSnoc(hdrs: seq<seq<Byte>>, recs: seq<Rec>)
    requires |hdrs| == |recs| && recs != []
    ensures var n := |recs| - 1;
      Cat(hdrs, recs) == Cat(hdrs[..n], recs[..n]) + (hdrs[n] + recs[n].data)
  {
    var n := |recs| - 1;
    var front := Cat(hdrs[..n], recs[..n]);
    assert front + hdrs[n] + recs[n].data == front + (hdrs[n] + recs[n].data);
  }

  lemma SizesOf(hdr: seq<Byte>, r: Rec, before: Fletcher4, swap: bool)
    requires IsRecord(hdr, r, before, swap)
    ensures |hdr| == 312 && |r.data| % 4 == 0
  {
    hide Layout, IsSealed, DataFits;
  }

  lemma NextFollows(c: Core, hdrs: seq<seq<Byte>>, recs: seq<Rec>, swap: bool)
    requires |hdrs| == |recs| && recs != [] && (|recs| == 1 ==> recs[0].body.BeginBody?)
    requires Tells(c, hdrs[..|recs| - 1], recs[..|recs| - 1], swap)
    ensures Follows(c, recs[|recs| - 1], swap)
    ensures c.cksum == Sum(ZERO, Cat(hdrs[..|recs| - 1], recs[..|recs| - 1]), swap)
  {
    hide Sum, Count, Ends, Depth, Closed, FirstBegin;
  }

  lemma SummedNext(c: Core, front: seq<Byte>, hdr: seq<Byte>, r: Rec, swap: bool)
    requires Summed(c, front, swap) && |hdr| == 312 && |r.data| % 4 == 0
    ensures Summed(CoreAfter(c, hdr, r, swap), front + (hdr + r.data), swap)
  {
    hide Sum, BeginOf, DepthAfter, Wrap64;
    SumConcat(ZERO, front, hdr + r.data, swap);
    SumConcat(c.cksum, hdr, r.data, swap);
  }

  lemma TellsNext(c: Core, hdrs: seq<seq<Byte>>, recs: seq<Rec>, swap: bool)
    requires |hdrs| == |recs| && recs != [] && recs[0].body.BeginBody?
    requires var n := |recs| - 1;
      && Tells(c, hdrs[..n], recs[..n], swap)
      && |hdrs[n]| == 312 && |recs[n].data| % 4 == 0
      && Cat(hdrs, recs) == Cat(hdrs[..n], recs[..n]) + (hdrs[n] + recs[n].data)
    ensures Tells(CoreAfter(c, hdrs[|recs| - 1], recs[|recs| - 1], swap), hdrs, recs, swap)
  {
    var n := |recs| - 1;
    SummedNext(c, Cat(hdrs[..n], recs[..n]), hdrs[n], recs[n], swap);
    BeginNext(c, recs, swap);
    hide Sum, Cat, DepthAfter, BeginOf, Summed, FirstBegin, Wrap64;
  }

  lemma BeginNext(c: Core, recs: seq<Rec>, swap: bool)
    requires recs != [] && recs[0].body.BeginBody?
    requires c.begin == FirstBegin(recs[..|recs| - 1], swap)
    ensures var last := recs[|recs| - 1].body;
      FirstBegin(recs, swap) == if c.begin.None? && last.BeginBody? then Some(BeginOf(last, swap)) else c.begin
  {
    hide BeginOf;
  }

  lemma {:induction false} StartsWithBegin(hdrs: seq<seq<Byte>>, recs: seq<Rec>, swap: bool)
    requires |hdrs| == |recs| && IsStream(hdrs, recs, swap) && recs != []
    ensures recs[0].body.BeginBody?
  {
    hide IsRecord, Cat;
    if |recs| > 1 {
      StartsWithBegin(hdrs[..|recs| - 1], recs[..|recs| - 1], swap);
    }
  }

  // ---- What is refused ---------------------------------------------------------------------------------

  /** A stream that does not begin with the magic number, in either byte order. */
  lemma NoMagicRefused(c: Core, hdr: seq<Byte>, magic: Word64)
    requires |hdr| == 312 && !c.started && magic != 0x2_f5ba_cbac
    requires hdr[8..16] == LeBytes(magic, 8) && hdr[8..16] != BeBytes(0x2_f5ba_cbac, 8)
    ensures Handle(c, hdr) == Reject(c, BadMagic(magic))
  {
    Limits();
    assert Has(hdr, 8, 8, magic, false) by { hide Limit; }
    Read8(hdr, 8, magic, false);
    if Word64At(hdr, 8, true) == 0x2_f5ba_cbac {
      Spells(hdr[8..16]);
    }
    hide Value, LeBytes, BeBytes, Sum, Dispatch;
  }

  /** Bytes are what their value is spelled by. */
  lemma {:induction false} Spells(s: seq<Byte>)
    ensures BeBytes(Value(s, true), |s|) == s
  {
    if s != [] {
      var front, low := s[..|s| - 1], s[|s| - 1];
      Spells(front);
      assert Value(s, true) == low + 0x100 * Value(front, true);
      LowApart(Value(front, true), low);
      assert s == front + [low];
    }
  }

  lemma LowApart(high: nat, low: Byte)
    ensures (low + 0x100 * high) / 0x100 == high && (low + 0x100 * high) % 0x100 == low
  {
  }

  /** The magic number, but not in a BEGIN. */
  lemma NoBeginRefused(c: Core, hdr: seq<Byte>, code: Word32)
    requires |hdr| == 312 && !c.started && code != 0
    requires Has(hdr, 8, 8, 0x2_f5ba_cbac, false) && Has(hdr, 0, 4, code, false)
    ensures Handle(c, hdr).Reject? && Handle(c, hdr).error == NoBegin
  {
    Read8(hdr, 8, 0x2_f5ba_cbac, false);
    Read4(hdr, 0, code, false);
    hide Value, Word32At, Word64At, Sum, Dispatch;
  }

  /** A type number that no record type has. */
  lemma UnknownTypeRefused(c: Core, hdr: seq<Byte>, code: Word32)
    requires |hdr| == 312 && c.started && code > 10 && Has(hdr, 0, 4, code, c.swap)
    ensures Handle(c, hdr).Reject? && Handle(c, hdr).error == UnknownRecordType(code)
  {
    Read4(hdr, 0, code, c.swap);
    hide Value, Word32At, Word64At, Sum, Dispatch, Embedded;
  }

  /** A non-zero embedded checksum other than that of the bytes ahead of it: reported with the number
      of bytes and of records before this one. */
  lemma WrongSealRefused(c: Core, hdr: seq<Byte>, r: Rec, seal: Fletcher4)
    requires c.started && IsHeader(hdr, r, c.swap) && !r.body.BeginBody?
    requires hdr[280..312] == ChecksumBytes(seal, c.swap)
    requires seal != Fletcher4(0, 0, 0, 0) && seal != Sum(c.cksum, hdr[..280], c.swap)
    ensures Handle(c, hdr).Reject? && Handle(c, hdr).error == RecordChecksum(c.stats.bytes, c.stats.records)
  {
    hide Sum, Word32At, Word64At, Layout, Dispatch, FromU32, FromStreamBytes, ChecksumBytes;
    TypeReads(hdr, r, c.swap);
    ChecksumReads(hdr, 280, seal, c.swap);
  }

  /** An END that names a checksum other than that of the stream ahead of it. */
  lemma WrongEndRefused(c: Core, hdr: seq<Byte>, r: Rec)
    requires c.started && IsHeader(hdr, r, c.swap) && r.body.EndBody? && IsSealed(hdr, r, c.cksum, c.swap)
    requires r.body.checksum != Fletcher4(0, 0, 0, 0) && r.body.checksum != c.cksum
    ensures Handle(c, hdr).Reject?
    ensures Handle(c, hdr).error == EndChecksum(c.stats.bytes, r.body.checksum, c.cksum)
  {
    hide Sum, Handle, Layout, IsSealed, DecodeEnd, Dispatch, ChecksumBytes, FromU32;
    ChecksPassed(c, hdr, r, c.swap);
    EndReads(hdr, r, c.swap);
    WrongEndDispatched(Folded(c, hdr, c.swap), hdr, r.body.checksum, r.body.to, c.cksum, c.stats.bytes);
  }

  lemma WrongEndDispatched(c: Core, hdr: seq<Byte>, f: Fletcher4, to: Word64, before: Fletcher4, offset: nat)
    requires |hdr| == 312 && DecodeEnd(hdr, c.swap) == EndRecord(f, to) && f != ZERO && f != before
    ensures Dispatch(c, End, hdr, before, offset) == Reject(c, EndChecksum(offset, f, before))
  {
    hide DecodeEnd;
  }

  /** A length that is not a whole number of words. */
  lemma OddLengthRefused(c: Core, hdr: seq<Byte>, r: Rec)
    requires c.started && IsHeader(hdr, r, c.swap) && DataFits(r) && |r.data| % 4 != 0
    requires IsSealed(hdr, r, c.cksum, c.swap)
    ensures Handle(c, hdr).Reject? && Handle(c, hdr).error == UnalignedPayload(|r.data|)
  {
    hide Sum, Handle, Layout, IsSealed, PayloadLen, Dispatch, ChecksumBytes, FromU32;
    ChecksPassed(c, hdr, r, c.swap);
    LengthReads(hdr, r, c.swap);
    assert !r.body.EndBody?;
    hide DataFits;
    OddLengthDispatched(Folded(c, hdr, c.swap), TypeOf(r.body), hdr, |r.data|, c.cksum, c.stats.bytes);
  }

  lemma OddLengthDispatched(c: Core, rt: RecordType, hdr: seq<Byte>, n: nat, before: Fletcher4, offset: nat)
    requires |hdr| == 312 && rt != End && PayloadLen(rt, hdr, c.swap) == n && n % 4 != 0
    ensures Dispatch(c, rt, hdr, before, offset).Reject?
    ensures Dispatch(c, rt, hdr, before, offset).error == UnalignedPayload(n)
  {
    hide PayloadLen, DecodeBegin, Counted, Wrap32;
  }
}
