/** The push parser: bytes arrive in slices of any size, and one buffer serves both for an
    incomplete header and for the odd bytes of a payload. */
module StreamParsing {
  import opened Bytes
  import opened Fletcher
  import opened StreamFormat
  import opened StreamReference

  datatype Result<+T> = Ok(value: T) | Err(error: StreamError)

  datatype Phase = HeaderPhase | PayloadPhase(remaining: nat)

  class StreamParser {
    var buf: seq<Byte>
    var phase: Phase
    var cksum: Fletcher4
    var swap: bool
    var started: bool
    var depth: Word32
    var stats: Stats
    var begin: Option<BeginHeader>
    var ends: seq<EndRecord>
    var finished: bool

    /** What the parser has computed so far. */
    ghost function State(): Core
      reads this
    {
      Core(cksum, swap, started, depth, stats, begin, ends, finished)
    }

    /** Where in a record the bytes seen so far stop. */
    ghost function Position(): Tail
      reads this
    {
      match phase
      case HeaderPhase => AtHeader(buf)
      case PayloadPhase(remaining) => InPayload(remaining, buf)
    }

    ghost predicate Valid()
      reads this
    {
      Position().Valid()
    }

    constructor ()
      ensures Valid() && State() == INITIAL && Position() == AtHeader([])
    {
      buf, phase, cksum, swap, started := [], HeaderPhase, ZERO, false, false;
      depth, stats, begin, ends, finished := 0, Stats(0, 0, 0, 0, 0, 0), None, [], false;
    }

    /** One slice has the effect of the reference parser, resumed where the slices before it
        stopped. After an error the parser stands at a record boundary. */
    method Feed(data: seq<Byte>) returns (r: Result<seq<Event>>)
      requires Valid()
      modifies this
      ensures Valid()
      ensures match Resume(old(State()), old(Position()), data)
        case Open(c, t, events) => r == Ok(events) && State() == c && Position() == t
        case Failed(c, e, _) => r == Err(e) && State() == c && Position() == AtHeader([])
    {
      var rest := data;
      var events := [];
      ghost var meaning := Resume(State(), Position(), data);
      while rest != []
        invariant Valid()
        invariant meaning == Prepend(events, Resume(State(), Position(), rest))
        decreases |rest|
      {
        if phase.PayloadPhase? {
          rest := TakePayload(rest);
        } else {
          var handled;
          rest, handled := TakeHeader(rest);
          if handled.Err? {
            return Err(handled.error);
          }
          PrependTwice(events, AsEvents(handled.value), Resume(State(), Position(), rest));
          if handled.value.Some? {
            events := events + [handled.value.value];
          } else {
            assert events + AsEvents(handled.value) == events;
          }
        }
      }
      ResumeNothing(State(), Position());
      assert events + [] == events;
      return Ok(events);
    }

    /** Consume what `data` holds of the payload: resumed on the rest, the reference means the same. */
    method TakePayload(data: seq<Byte>) returns (rest: seq<Byte>)
      requires Valid() && phase.PayloadPhase? && data != []
      modifies this
      ensures Valid() && |rest| < |data|
      ensures Resume(State(), Position(), rest) == Resume(old(State()), old(Position()), data)
    {
      hide Sum, Records, Payload;
      var remaining := phase.remaining;
      var take := if remaining < |data| then remaining else |data|;
      PayloadStep(State(), remaining, buf, data, take);
      ChecksumRagged(data[..take]);
      stats := stats.(bytes := stats.bytes + take);
      rest := data[take..];
      if remaining == take {
        FlushRagged();
        phase := HeaderPhase;
      } else {
        phase := PayloadPhase(remaining - take);
      }
    }

    /** Collect header bytes; once there are 312 of them, handle the record. */
    method TakeHeader(data: seq<Byte>) returns (rest: seq<Byte>, r: Result<Option<Event>>)
      requires Valid() && phase.HeaderPhase? && data != []
      modifies this
      ensures Valid() && |rest| < |data|
      ensures Resume(old(State()), old(Position()), data) == match r
        case Ok(event) => Prepend(AsEvents(event), Resume(State(), Position(), rest))
        case Err(e) => Failed(State(), e, [])
      ensures r.Err? ==> Position() == AtHeader([])
    {
      hide Records, Payload, Handle;
      var need := RECORD_LEN - |buf|;
      var take := if need < |data| then need else |data|;
      HeaderStep(State(), buf, data, take);
      buf := buf + data[..take];
      rest := data[take..];
      if |buf| < RECORD_LEN {
        return rest, Ok(None);
      }
      var hdr := buf[..RECORD_LEN];
      buf := buf[RECORD_LEN..];
      assert buf == [];
      r := Record(hdr);
    }

    /** At end of input: an error unless the stream stopped exactly between records. */
    method Finish() returns (r: Result<()>)
      ensures r == if Position() == AtHeader([]) then Ok(()) else Err(Truncated(stats.bytes))
    {
      if phase.HeaderPhase? && buf == [] {
        return Ok(());
      }
      return Err(Truncated(stats.bytes));
    }

    /** Fold in the whole words available; keep up to three odd bytes. */
    method ChecksumRagged(chunk: seq<Byte>)
      modifies this`buf, this`cksum
      ensures var t := old(buf) + chunk;
        cksum == Sum(old(cksum), t[..Aligned(|t|)], swap) && buf == t[Aligned(|t|)..]
    {
      if buf == [] && |chunk| % 4 == 0 {
        cksum := Update(cksum, chunk, swap);
        assert buf + chunk == chunk && chunk[..Aligned(|chunk|)] == chunk;
        return;
      }
      buf := buf + chunk;
      var aligned := |buf| - |buf| % 4;
      if aligned > 0 {
        var words := buf[..aligned];
        buf := buf[aligned..];
        cksum := Update(cksum, words, swap);
      }
    }

    /** Fold in odd bytes left at the end of a payload, padded with zeros to a word. */
    method FlushRagged()
      modifies this`buf, this`cksum
      ensures buf == []
      ensures old(buf) == [] ==> cksum == old(cksum)
      ensures cksum == Sum(old(cksum), old(buf) + Zeros((4 - |old(buf)| % 4) % 4), swap)
    {
      hide Words, Fold;
      if buf == [] {
        assert old(buf) + Zeros(0) == [];
        SumEmpty(cksum, swap);
      } else {
        var tail := buf;
        buf := [];
        while |tail| % 4 != 0
          invariant |old(buf)| <= |tail| <= |old(buf)| + (4 - |old(buf)| % 4) % 4
          invariant tail == old(buf) + Zeros(|tail| - |old(buf)|)
          decreases |old(buf)| + 4 - |tail|
        {
          tail := tail + [0];
        }
        cksum := Update(cksum, tail, swap);
      }
    }

    /** One complete header. */
    method Record(hdr: seq<Byte>) returns (r: Result<Option<Event>>)
      requires |hdr| == RECORD_LEN && phase == HeaderPhase
      modifies this
      ensures buf == old(buf) && Follows(Handle(old(State()), hdr), r)
    {
      hide Sum, Dispatch, PayloadLen, DecodeBegin, DecodeEnd, FromStreamBytes;
      var offset, index := stats.bytes, stats.records;
      if !started {
        var error := Start(hdr);
        if error.Some? {
          return Err(error.value);
        }
      }

      var code := Word32At(hdr, 0, swap);
      var rtype := FromU32(code);
      if rtype.None? {
        return Err(UnknownRecordType(code));
      }

      var before := cksum;
      var mismatch := CheckHeader(rtype.value, hdr);
      if mismatch {
        return Err(RecordChecksum(offset, index));
      }
      r := RecordBody(rtype.value, hdr, before, offset);
    }

    /** The very first record decides the byte order, and has to be a BEGIN. */
    method Start(hdr: seq<Byte>) returns (error: Option<StreamError>)
      requires |hdr| == RECORD_LEN && !started
      modifies this`swap, this`started
      ensures match ByteOrder(old(State()), hdr)
        case None => error == Some(BadMagic(Word64At(hdr, UNION_OFF, false))) && swap == old(swap) && !started
        case Some(order) =>
          && swap == order
          && (started <==> Word32At(hdr, 0, order) == 0)
          && error == if started then None else Some(NoBegin)
    {
      var magicLe, magicBe := Word64At(hdr, UNION_OFF, false), Word64At(hdr, UNION_OFF, true);
      if magicLe == DMU_BACKUP_MAGIC {
        swap := false;
      } else if magicBe == DMU_BACKUP_MAGIC {
        swap := true;
      } else {
        return Some(BadMagic(magicLe));
      }
      if Word32At(hdr, 0, swap) != 0 {
        return Some(NoBegin);
      }
      started := true;
      return None;
    }

    /** `mismatch` when a non-BEGIN header embeds a non-zero value other than the sum of all bytes
        ahead of it; then only that sum is kept. Otherwise the whole header is summed and counted. */
    method CheckHeader(rtype: RecordType, hdr: seq<Byte>) returns (mismatch: bool)
      requires |hdr| == RECORD_LEN
      modifies this`cksum, this`stats
      ensures var running := Sum(old(cksum), hdr[..CKSUM_OFF], swap);
        && (mismatch <==> rtype != Begin && !Embedded(hdr, swap).IsZero() && Embedded(hdr, swap) != running)
        && (mismatch ==> cksum == running && stats == old(stats))
      ensures !mismatch ==>
        && cksum == Sum(old(cksum), hdr, swap)
        && stats == old(stats).(records := old(stats).records + 1, bytes := old(stats).bytes + RECORD_LEN)
    {
      HeaderSum(cksum, hdr, swap);
      cksum := Update(cksum, hdr[..CKSUM_OFF], swap);
      var embedded := FromStreamBytes(hdr, CKSUM_OFF, swap);
      if rtype != Begin && !embedded.IsZero() && embedded != cksum {
        return true;
      }
      cksum := Update(cksum, hdr[CKSUM_OFF..], swap);
      stats := stats.(records := stats.records + 1, bytes := stats.bytes + RECORD_LEN);
      return false;
    }

    /** The parser has done what `h` says, and reports it as `r`. */
    ghost predicate Follows(h: Handled, r: Result<Option<Event>>)
      reads this
    {
      match h
      case Accept(c, event, n) =>
        r == Ok(event) && State() == c && phase == (if n > 0 then PayloadPhase(n) else HeaderPhase)
      case Reject(c, e) => r == Err(e) && State() == c && phase == HeaderPhase
    }

    /** Finish one accepted header, according to its type. */
    method RecordBody(rtype: RecordType, hdr: seq<Byte>, before: Fletcher4, offset: nat)
      returns (r: Result<Option<Event>>)
      requires |hdr| == RECORD_LEN && phase == HeaderPhase
      modifies this
      ensures buf == old(buf) && Follows(Dispatch(old(State()), rtype, hdr, before, offset), r)
    {
      hide FromStreamBytes, PayloadLen, DecodeBegin, DecodeEnd, Counted, Sized, State, Follows, Wrap32;
      assert State().swap == swap && State().stats == stats by { StateFields(); }
      var payload := PayloadLen(rtype, hdr, swap);
      match rtype {
        case Begin =>
          var bh := Open(hdr);
          r := Enter(payload, Some(BeginEvent(bh)));
        case End =>
          var end := Close(hdr, before, offset);
          if end.Err? {
            Refused(EndChecksum(offset, DecodeEnd(hdr, swap).checksum, before));
            return Err(end.error);
          }
          r := Enter(payload, Some(EndEvent(end.value)));
        case _ =>
          Count(rtype, payload);
          r := Enter(payload, None);
      }
    }

    lemma StateFields()
      ensures State().swap == swap && State().stats == stats
    {
    }

    lemma Refused(e: StreamError)
      requires phase == HeaderPhase
      ensures Follows(Reject(State(), e), Err(e))
    {
    }

    /** BEGIN: one level deeper, and the first header of all is kept. */
    method Open(hdr: seq<Byte>) returns (bh: BeginHeader)
      requires |hdr| == RECORD_LEN
      modifies this`begin, this`depth
      ensures bh == DecodeBegin(hdr, swap)
      ensures var c := old(State());
        State() == c.(begin := if c.begin.None? then Some(bh) else c.begin, depth := Wrap32(c.depth + 1))
    {
      bh := DecodeBegin(hdr, swap);
      if begin.None? {
        begin := Some(bh);
      }
      depth := Wrap32(depth + 1);
    }

    /** END: refused, with nothing changed, if it names a checksum other than `before`. */
    method Close(hdr: seq<Byte>, before: Fletcher4, offset: nat) returns (r: Result<EndRecord>)
      requires |hdr| == RECORD_LEN
      modifies this`ends, this`depth, this`finished
      ensures var c, end := old(State()), DecodeEnd(hdr, swap);
        if !end.checksum.IsZero() && end.checksum != before then
          r == Err(EndChecksum(offset, end.checksum, before)) && State() == c
        else
          var outer := if c.depth == 0 then 0 else c.depth - 1;
          && r == Ok(end)
          && State() == c.(ends := c.ends + [end], depth := outer, finished := c.finished || outer == 0)
    {
      var end := DecodeEnd(hdr, swap);
      if !end.checksum.IsZero() && end.checksum != before {
        return Err(EndChecksum(offset, end.checksum, before));
      }
      ends := ends + [end];
      depth := if depth == 0 then 0 else depth - 1;
      if depth == 0 {
        finished := true;
      }
      return Ok(end);
    }

    /** The other types only count. */
    method Count(rtype: RecordType, payload: nat)
      modifies this`stats
      ensures var c := old(State());
        State() == c.(stats := Counted(c.stats, rtype, payload))
    {
      match rtype {
        case Object =>
          stats := stats.(objects := stats.objects + 1);
        case Write =>
          stats := stats.(writes := stats.writes + 1, writeBytes := Wrap64(stats.writeBytes + payload));
        case Free | FreeObjects =>
          stats := stats.(frees := stats.frees + 1);
        case _ =>
      }
    }

    /** Expect the payload, unless its length is not a whole number of words. */
    method Enter(payload: nat, event: Option<Event>) returns (r: Result<Option<Event>>)
      requires phase == HeaderPhase
      modifies this`phase
      ensures Follows(Sized(old(State()), event, payload), r)
    {
      if payload % 4 != 0 {
        return Err(UnalignedPayload(payload));
      }
      phase := if payload > 0 then PayloadPhase(payload) else HeaderPhase;
      return Ok(event);
    }
  }

  // ---- One turn of the loop, on the reference side ---------------------------

  lemma PayloadStep(c: Core, n: nat, stray: seq<Byte>, s: seq<Byte>, take: nat)
    requires InPayload(n, stray).Valid()
    requires take == if n < |s| then n else |s|
    ensures var t := stray + s[..take];
      var c' := Absorb(c, t[..Aligned(|t|)], take);
      var next := if take == n then AtHeader([]) else InPayload(n - take, t[Aligned(|t|)..]);
      && next.Valid()
      && (take == n ==> t[Aligned(|t|)..] == [])
      && Resume(c, InPayload(n, stray), s) == Resume(c', next, s[take..])
  {
    var t := stray + s[..take];
    if take == n {
      assert t[..Aligned(|t|)] == t;
      assert [] + s[take..] == s[take..];
    } else {
      assert s[..take] == s && s[take..] == [];
      ResumeNothing(Absorb(c, t[..Aligned(|t|)], take), InPayload(n - take, t[Aligned(|t|)..]));
    }
  }

  lemma HeaderStep(c: Core, pending: seq<Byte>, s: seq<Byte>, take: nat)
    requires |pending| < RECORD_LEN
    requires take == if RECORD_LEN - |pending| < |s| then RECORD_LEN - |pending| else |s|
    ensures |pending| + take < RECORD_LEN ==>
      Resume(c, AtHeader(pending), s) == Resume(c, AtHeader(pending + s[..take]), s[take..])
    ensures |pending| + take == RECORD_LEN ==>
      var hdr := pending + s[..take];
      && hdr[..RECORD_LEN] == hdr
      && Resume(c, AtHeader(pending), s) ==
         match Handle(c, hdr)
         case Reject(c', e) => Failed(c', e, [])
         case Accept(c', ev, n) =>
           Prepend(AsEvents(ev), Resume(c', if n > 0 then InPayload(n, []) else AtHeader([]), s[take..]))
  {
    var hdr := pending + s[..take];
    assert hdr + s[take..] == pending + s;
    if |hdr| == RECORD_LEN {
      assert (pending + s)[..RECORD_LEN] == hdr && (pending + s)[RECORD_LEN..] == s[take..];
      var h := Handle(c, hdr);
      if h.Accept? && h.payload == 0 {
        NoPayload(h.core, s[take..]);
      }
    }
  }

  lemma HeaderSum(f: Fletcher4, hdr: seq<Byte>, swap: bool)
    requires |hdr| == RECORD_LEN
    ensures Sum(Sum(f, hdr[..CKSUM_OFF], swap), hdr[CKSUM_OFF..], swap) == Sum(f, hdr, swap)
  {
    SumConcat(f, hdr[..CKSUM_OFF], hdr[CKSUM_OFF..], swap);
    assert hdr == hdr[..CKSUM_OFF] + hdr[CKSUM_OFF..];
  }

  lemma NoPayload(c: Core, s: seq<Byte>)
    ensures Payload(c, 0, [], s) == Resume(c, AtHeader([]), s)
  {
    assert [] + s == s;
    assert [] + s[..0] == [];
    SumEmpty(c.cksum, c.swap);
  }
}
