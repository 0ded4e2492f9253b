/** The `zfs send` record framing: what one 312-byte header says and what accepting it does. */
module StreamFormat {
  import opened Bytes
  import opened Fletcher

  const RECORD_LEN := 312
  const CKSUM_OFF := 280
  const UNION_OFF := 8
  const DMU_BACKUP_MAGIC: Word64 := 0x0002_f5ba_cbac

  datatype RecordType =
    | Begin | Object | FreeObjects | Write | Free | End
    | WriteByRef | Spill | WriteEmbedded | ObjectRange | Redact

  datatype HeaderType = Substream | Compound

  /** Decoded `drr_begin`; the name is kept as raw bytes up to the first NUL. */
  datatype BeginHeader = BeginHeader(
    headerType: HeaderType, features: nat, creationTime: Word64, objsetType: Word32, flags: Word32,
    toGuid: Word64, fromGuid: Option<Word64>, toName: seq<Byte>, byteswapped: bool)

  datatype EndRecord = EndRecord(checksum: Fletcher4, toGuid: Word64)

  datatype Event = BeginEvent(header: BeginHeader) | EndEvent(end: EndRecord)

  datatype StreamError =
    | BadMagic(magic: Word64)
    | NoBegin
    | UnknownRecordType(rtype: Word32)
    | RecordChecksum(offset: nat, index: nat)
    | EndChecksum(offset: nat, expected: Fletcher4, actual: Fletcher4)
    | UnalignedPayload(len: nat)
    | Truncated(offset: nat)

  /** `writeBytes` sums lengths that headers only claim, so it can wrap; the other counters
      count what was received. */
  datatype Stats = Stats(
    records: nat, bytes: nat, writeBytes: Word64, writes: nat, objects: nat, frees: nat)

  /** Every field of the parser except the header/payload buffer and the phase. */
  datatype Core = Core(
    cksum: Fletcher4, swap: bool, started: bool, depth: Word32, stats: Stats,
    begin: Option<BeginHeader>, ends: seq<EndRecord>, finished: bool)

  const INITIAL := Core(ZERO, false, false, 0, Stats(0, 0, 0, 0, 0, 0), None, [], false)

  function FromU32(v: Word32): Option<RecordType> {
    match v
    case 0 => Some(Begin)
    case 1 => Some(Object)
    case 2 => Some(FreeObjects)
    case 3 => Some(Write)
    case 4 => Some(Free)
    case 5 => Some(End)
    case 6 => Some(WriteByRef)
    case 7 => Some(Spill)
    case 8 => Some(WriteEmbedded)
    case 9 => Some(ObjectRange)
    case 10 => Some(Redact)
    case _ => None
  }

  // ---- Reading a header ----------------------------------------------------

  function UpToEight(n: nat): nat { (n + 7) / 8 * 8 }

  /** Bytes of payload that follow the header, by record type. */
  function PayloadLen(rt: RecordType, hdr: seq<Byte>, swap: bool): nat
    requires |hdr| == RECORD_LEN
  {
    match rt
    case Begin => Word32At(hdr, 4, swap)
    case Object =>
      var raw := Word32At(hdr, UNION_OFF + 28, swap);
      if raw != 0 then raw else UpToEight(Word32At(hdr, UNION_OFF + 20, swap))
    case Write =>
      var compressed := Word64At(hdr, UNION_OFF + 88, swap);
      if compressed != 0 then compressed else Word64At(hdr, UNION_OFF + 24, swap)
    case Spill =>
      var compressed := Word64At(hdr, UNION_OFF + 40, swap);
      if compressed != 0 then compressed else Word64At(hdr, UNION_OFF + 8, swap)
    case WriteEmbedded => UpToEight(Word32At(hdr, UNION_OFF + 44, swap))
    case End | Free | FreeObjects | WriteByRef | ObjectRange | Redact => 0
  }

  function UpToNul(s: seq<Byte>): seq<Byte> {
    if s == [] || s[0] == 0 then [] else [s[0]] + UpToNul(s[1..])
  }

  function DecodeBegin(hdr: seq<Byte>, swap: bool): BeginHeader
    requires |hdr| == RECORD_LEN
  {
    var versioninfo := Word64At(hdr, UNION_OFF + 8, swap);
    var from := Word64At(hdr, UNION_OFF + 40, swap);
    BeginHeader(
      if versioninfo % 4 == 2 then Compound else Substream,
      versioninfo / 4 % 0x4000_0000,
      Word64At(hdr, UNION_OFF + 16, swap),
      Word32At(hdr, UNION_OFF + 24, swap),
      Word32At(hdr, UNION_OFF + 28, swap),
      Word64At(hdr, UNION_OFF + 32, swap),
      if from != 0 then Some(from) else None,
      UpToNul(hdr[UNION_OFF + 48..]),
      swap)
  }

  function DecodeEnd(hdr: seq<Byte>, swap: bool): EndRecord
    requires |hdr| == RECORD_LEN
  {
    EndRecord(FromStreamBytes(hdr, UNION_OFF, swap), Word64At(hdr, UNION_OFF + 32, swap))
  }

  /** The checksum carried in the trailing 32 bytes of every record. */
  function Embedded(hdr: seq<Byte>, swap: bool): Fletcher4
    requires |hdr| == RECORD_LEN
  {
    FromStreamBytes(hdr, CKSUM_OFF, swap)
  }

  /** Byte order: fixed by the magic of the very first record, kept afterwards. */
  function ByteOrder(c: Core, hdr: seq<Byte>): Option<bool>
    requires |hdr| == RECORD_LEN
  {
    if c.started then Some(c.swap)
    else if Word64At(hdr, UNION_OFF, false) == DMU_BACKUP_MAGIC then Some(false)
    else if Word64At(hdr, UNION_OFF, true) == DMU_BACKUP_MAGIC then Some(true)
    else None
  }

  // ---- Accepting a header --------------------------------------------------

  /** A record is accepted, with `payload` bytes to follow, or rejected. */
  datatype Handled =
    | Accept(core: Core, event: Option<Event>, payload: nat)
    | Reject(core: Core, error: StreamError)

  function Handle(c: Core, hdr: seq<Byte>): (r: Handled)
    requires |hdr| == RECORD_LEN
    ensures r.Accept? ==> r.payload % 4 == 0
  {
    match ByteOrder(c, hdr)
    case None => Reject(c, BadMagic(Word64At(hdr, UNION_OFF, false)))
    case Some(swap) =>
      var code := Word32At(hdr, 0, swap);
      if !c.started && code != 0 then Reject(c.(swap := swap), NoBegin) else
      var c1 := c.(swap := swap, started := true);
      match FromU32(code)
      case None => Reject(c1, UnknownRecordType(code))
      case Some(rt) =>
        var running := Sum(c.cksum, hdr[..CKSUM_OFF], swap);
        var embedded := Embedded(hdr, swap);
        if rt != Begin && !embedded.IsZero() && embedded != running
        then Reject(c1.(cksum := running), RecordChecksum(c.stats.bytes, c.stats.records))
        else
          var stats := c.stats.(records := c.stats.records + 1, bytes := c.stats.bytes + RECORD_LEN);
          Dispatch(c1.(cksum := Sum(c.cksum, hdr, swap), stats := stats), rt, hdr, c.cksum, c.stats.bytes)
  }

  /** The type-specific part; `c` has the header folded in, `before` is the checksum ahead of it. */
  function Dispatch(c: Core, rt: RecordType, hdr: seq<Byte>, before: Fletcher4, offset: nat): (r: Handled)
    requires |hdr| == RECORD_LEN
    ensures r.Accept? ==> r.payload == PayloadLen(rt, hdr, c.swap) && r.payload % 4 == 0
    ensures r.core.cksum == c.cksum && r.core.swap == c.swap && r.core.started == c.started
    ensures r.core.stats.bytes == c.stats.bytes && r.core.stats.records == c.stats.records
  {
    var n := PayloadLen(rt, hdr, c.swap);
    match rt
    case Begin =>
      var bh := DecodeBegin(hdr, c.swap);
      var begin := if c.begin.None? then Some(bh) else c.begin;
      Sized(c.(begin := begin, depth := Wrap32(c.depth + 1)), Some(BeginEvent(bh)), n)
    case End =>
      var end := DecodeEnd(hdr, c.swap);
      if !end.checksum.IsZero() && end.checksum != before
      then Reject(c, EndChecksum(offset, end.checksum, before))
      else
        var depth := if c.depth == 0 then 0 else c.depth - 1;
        Sized(c.(ends := c.ends + [end], depth := depth, finished := c.finished || depth == 0), Some(EndEvent(end)), n)
    case _ => Sized(c.(stats := Counted(c.stats, rt, n)), None, n)
  }

  /** The statistics after a record of a type that is only counted, with `n` bytes of payload. */
  function Counted(stats: Stats, rt: RecordType, n: nat): (r: Stats)
    ensures r.bytes == stats.bytes && r.records == stats.records
  {
    match rt
    case Object => stats.(objects := stats.objects + 1)
    case Write => stats.(writes := stats.writes + 1, writeBytes := Wrap64(stats.writeBytes + n))
    case Free | FreeObjects => stats.(frees := stats.frees + 1)
    case _ => stats
  }

  function Sized(c: Core, event: Option<Event>, n: nat): (r: Handled)
    ensures r.core == c
  {
    if n % 4 != 0 then Reject(c, UnalignedPayload(n)) else Accept(c, event, n)
  }
}
