/** Bucket keys, relative to the root: `<dataset>/<snapshot>/<file>`, and pins under `pins/`. */
module Keys {
  import opened Bytes
  import opened Manifests

  type Key = string

  // ---- Numbers in keys --------------------------------------------------------------------

  predicate IsHexDigit(c: char) { '0' <= c <= '9' || 'a' <= c <= 'f' || 'A' <= c <= 'F' }

  function Digit(c: char): (d: nat)
    requires IsHexDigit(c)
    ensures d < 16
  {
    if c <= '9' then c as nat - '0' as nat
    else if c <= 'F' then c as nat - 'A' as nat + 10
    else c as nat - 'a' as nat + 10
  }

  function DigitChar(d: nat): (c: char)
    requires d < 16
    ensures IsHexDigit(c) && Digit(c) == d && c != '/'
  {
    if d < 10 then (d + '0' as nat) as char else (d - 10 + 'a' as nat) as char
  }

  predicate AllHex(s: string) { forall i :: 0 <= i < |s| ==> IsHexDigit(s[i]) }

  /** The `len` low digits of `n` in base 16. */
  function HexDigits(n: nat, len: nat): (s: string)
    ensures |s| == len && AllHex(s)
  {
    if len == 0 then [] else HexDigits(n / 16, len - 1) + [DigitChar(n % 16)]
  }

  function HexValue(s: string): nat
    requires AllHex(s)
  {
    if s == [] then 0 else HexValue(s[..|s| - 1]) * 16 + Digit(s[|s| - 1])
  }

  function HexLimit(len: nat): nat { if len == 0 then 1 else 16 * HexLimit(len - 1) }

  lemma {:induction false} HexValueBound(s: string)
    requires AllHex(s)
    ensures HexValue(s) < HexLimit(|s|)
  {
    if s != [] {
      HexValueBound(s[..|s| - 1]);
    }
  }

  lemma {:induction false} HexReads(n: nat, len: nat)
    requires n < HexLimit(len)
    ensures HexValue(HexDigits(n, len)) == n
  {
    if len > 0 {
      HexReads(n / 16, len - 1);
      assert HexDigits(n, len)[..len - 1] == HexDigits(n / 16, len - 1);
    }
  }

  lemma SixteenDigits()
    ensures HexLimit(16) == U64
  {
    assert HexLimit(4) == 0x1_0000;
    assert HexLimit(8) == 0x1_0000_0000;
    assert HexLimit(12) == 0x1_0000_0000_0000;
  }

  /** A GUID as it is displayed: 16 digits. */
  function Hex(g: Guid): string { HexDigits(g, 16) }

  /** A GUID as it is parsed: exactly 16 hex digits, in either case. */
  function ParseGuid(s: string): Option<Guid> {
    if |s| == 16 && AllHex(s) then
      HexValueBound(s);
      SixteenDigits();
      Some(HexValue(s))
    else None
  }

  /** What is displayed parses back; so no two GUIDs share a directory or a pin. */
  lemma GuidRoundTrip(g: Guid, h: Guid)
    ensures ParseGuid(Hex(g)) == Some(g)
    ensures Hex(g) == Hex(h) ==> g == h
  {
    SixteenDigits();
    HexReads(g, 16);
    HexReads(h, 16);
  }

  /** `n` in decimal, padded with zeros to `width` digits. */
  function Decimal(n: nat, width: nat): (s: string)
    ensures AllHex(s)
    decreases n, width
  {
    if n < 10 && width <= 1 then [DigitChar(n)]
    else Decimal(n / 10, if width == 0 then 0 else width - 1) + [DigitChar(n % 10)]
  }

  function DecimalValue(s: string): nat
    requires AllHex(s)
  {
    if s == [] then 0 else DecimalValue(s[..|s| - 1]) * 10 + Digit(s[|s| - 1])
  }

  lemma {:induction false} DecimalReads(n: nat, width: nat)
    ensures DecimalValue(Decimal(n, width)) == n
    decreases n, width
  {
    if n < 10 && width <= 1 {
      assert [DigitChar(n)][..0] == [];
    } else {
      var w := if width == 0 then 0 else width - 1;
      DecimalReads(n / 10, w);
      assert Decimal(n, width)[..|Decimal(n, width)| - 1] == Decimal(n / 10, w);
    }
  }

  // ---- Paths ---------------------------------------------------------------------------------

  /** The pieces between slashes. */
  function Split(k: Key): (parts: seq<string>)
    ensures parts != []
  {
    if k == [] then [[]] else
    var parts := Split(k[1..]);
    if k[0] == '/' then [[]] + parts else [[k[0]] + parts[0]] + parts[1..]
  }

  predicate Plain(s: string) { '/' !in s }

  function Path(dir: string, sub: string, file: string): Key {
    dir + "/" + sub + "/" + file
  }

  lemma {:induction false} SplitPlain(s: string)
    requires Plain(s)
    ensures Split(s) == [s]
  {
    if s != [] {
      assert s[0] in s && [s[0]] + s[1..] == s;
      SplitPlain(s[1..]);
    }
  }

  lemma {:induction false} SplitFirst(s: string, rest: string)
    requires Plain(s)
    ensures Split(s + "/" + rest) == [s] + Split(rest)
  {
    var k := s + "/" + rest;
    if s == [] {
      assert k[1..] == rest;
    } else {
      assert k[1..] == s[1..] + "/" + rest;
      assert s[0] in s && [s[0]] + s[1..] == s;
      SplitFirst(s[1..], rest);
    }
  }

  /** A three-part key is the path of its parts, and a path of plain parts splits into them. */
  lemma SplitPath(dir: string, sub: string, file: string)
    requires Plain(dir) && Plain(sub) && Plain(file)
    ensures Split(Path(dir, sub, file)) == [dir, sub, file]
  {
    assert Path(dir, sub, file) == dir + "/" + (sub + "/" + file);
    SplitFirst(dir, sub + "/" + file);
    SplitFirst(sub, file);
    SplitPlain(file);
  }

  function Glue(parts: seq<string>): Key
    requires parts != []
  {
    if |parts| == 1 then parts[0] else parts[0] + "/" + Glue(parts[1..])
  }

  lemma GlueSlash(parts: seq<string>)
    requires parts != []
    ensures Glue([[]] + parts) == "/" + Glue(parts)
  {
    assert ([[]] + parts)[1..] == parts;
  }

  lemma GlueChar(c: char, parts: seq<string>)
    requires parts != []
    ensures Glue([[c] + parts[0]] + parts[1..]) == [c] + Glue(parts)
  {
    assert ([[c] + parts[0]] + parts[1..])[1..] == parts[1..];
  }

  lemma {:induction false} SplitGlues(k: Key)
    ensures Glue(Split(k)) == k
    ensures forall i :: 0 <= i < |Split(k)| ==> Plain(Split(k)[i])
  {
    if k != [] {
      SplitGlues(k[1..]);
      var parts := Split(k[1..]);
      assert k == [k[0]] + k[1..];
      if k[0] == '/' {
        GlueSlash(parts);
        assert Split(k) == [[]] + parts;
      } else {
        GlueChar(k[0], parts);
        assert Split(k) == [[k[0]] + parts[0]] + parts[1..];
      }
      hide Split, Glue;
    }
  }

  /** A key of three parts is the path of them. */
  lemma SplitThree(k: Key)
    requires |Split(k)| == 3
    ensures var parts := Split(k);
      k == Path(parts[0], parts[1], parts[2]) && Plain(parts[0]) && Plain(parts[1]) && Plain(parts[2])
  {
    SplitGlues(k);
    hide Split;
    var parts := Split(k);
    assert Glue(parts[1..][1..]) == parts[2];
    assert Path(parts[0], parts[1], parts[2]) == parts[0] + "/" + (parts[1] + "/" + parts[2]);
  }

  const MANIFEST := "manifest.json"
  const PENDING := "pending.json"

  function ChunkName(i: nat): string { "chunk-" + Decimal(i, 6) }

  function ManifestKey(dataset: Guid, snapshot: Guid): Key { Path(Hex(dataset), Hex(snapshot), MANIFEST) }
  function PendingKey(dataset: Guid, snapshot: Guid): Key { Path(Hex(dataset), Hex(snapshot), PENDING) }
  function ChunkKey(dataset: Guid, snapshot: Guid, i: nat): Key { Path(Hex(dataset), Hex(snapshot), ChunkName(i)) }

  /** A digit counts the same in either case. */
  lemma DigitsInEitherCase(i: nat)
    requires i < 16
    ensures IsHexDigit("0123456789abcdef"[i]) && Digit("0123456789abcdef"[i]) == i
    ensures IsHexDigit("0123456789ABCDEF"[i]) && Digit("0123456789ABCDEF"[i]) == i
  {}

  /** Digits, by example: the letters are lower-case, the zeros are in front. */
  lemma HexShape()
    ensures HexDigits(0xc0ff, 6) == "00c0ff"
  {
    assert HexDigits(0, 1) == "0";
    assert HexDigits(0, 2) == "00";
    assert HexDigits(0xc, 3) == "00c";
    assert HexDigits(0xc0, 4) == "00c0";
    assert HexDigits(0xc0f, 5) == "00c0f";
  }

  lemma DecimalShape()
    ensures Decimal(42, 6) == "000042" && Decimal(1234567, 6) == "1234567"
  {
    assert Decimal(0, 1) == "0";
    assert Decimal(0, 2) == "00";
    assert Decimal(0, 3) == "000";
    assert Decimal(0, 4) == "0000";
    assert Decimal(4, 5) == "00004";
    assert Decimal(1, 0) == "1";
    assert Decimal(12, 1) == "12";
    assert Decimal(123, 2) == "123";
    assert Decimal(1234, 3) == "1234";
    assert Decimal(12345, 4) == "12345";
    assert Decimal(123456, 5) == "123456";
  }

  /** Where things are stored. */
  lemma KeyShapes(d: Guid, s: Guid, i: nat)
    ensures |Hex(d)| == 16
    ensures ManifestKey(d, s) == Hex(d) + "/" + Hex(s) + "/" + "manifest.json"
    ensures PendingKey(d, s) == Hex(d) + "/" + Hex(s) + "/" + "pending.json"
    ensures ChunkKey(d, s, i) == Hex(d) + "/" + Hex(s) + "/" + "chunk-" + Decimal(i, 6)
  {
    hide Hex, Decimal;
    var dir := Hex(d) + "/" + Hex(s) + "/";
    assert dir + "chunk-" + Decimal(i, 6) == dir + ("chunk-" + Decimal(i, 6));
    assert |Hex(d)| == 16 by { HexPlain(d); }
  }

  lemma HexPlain(g: Guid)
    ensures Plain(Hex(g)) && Hex(g) != "pins" && |Hex(g)| == 16
  {
    assert |Hex(g)| == 16;
  }

  lemma ChunkNamePlain(i: nat)
    ensures Plain(ChunkName(i)) && ChunkName(i) != MANIFEST && ChunkName(i) != PENDING
  {
    assert ChunkName(i)[0] == 'c';
  }

  /** Different objects have different keys. */
  lemma KeysDistinct(d: Guid, s: Guid, i: nat, d': Guid, s': Guid, i': nat)
    ensures ChunkKey(d, s, i) == ChunkKey(d', s', i') ==> d == d' && s == s' && i == i'
    ensures ManifestKey(d, s) == ManifestKey(d', s') ==> d == d' && s == s'
    ensures PendingKey(d, s) == PendingKey(d', s') ==> d == d' && s == s'
    ensures ChunkKey(d, s, i) != ManifestKey(d', s') && ChunkKey(d, s, i) != PendingKey(d', s')
    ensures ManifestKey(d, s) != PendingKey(d', s')
  {
    hide Hex, Decimal, Path, Split;
    KeyParts(d, s, i);
    KeyParts(d', s', i');
    GuidRoundTrip(d, d');
    GuidRoundTrip(s, s');
    if ChunkName(i) == ChunkName(i') {
      assert Decimal(i, 6) == ChunkName(i)[6..] == ChunkName(i')[6..] == Decimal(i', 6);
      DecimalReads(i, 6);
      DecimalReads(i', 6);
    }
  }

  lemma KeyParts(d: Guid, s: Guid, i: nat)
    ensures Split(ChunkKey(d, s, i)) == [Hex(d), Hex(s), ChunkName(i)]
    ensures Split(ManifestKey(d, s)) == [Hex(d), Hex(s), MANIFEST]
    ensures Split(PendingKey(d, s)) == [Hex(d), Hex(s), PENDING]
    ensures ChunkName(i) != MANIFEST && ChunkName(i) != PENDING
  {
    hide Hex, Decimal, Split, Path;
    HexPlain(d);
    HexPlain(s);
    ChunkNamePlain(i);
    SplitPath(Hex(d), Hex(s), ChunkName(i));
    SplitPath(Hex(d), Hex(s), MANIFEST);
    SplitPath(Hex(d), Hex(s), PENDING);
  }
}
