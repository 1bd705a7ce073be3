/** Headers of applications/microtar/microtar.c, as records of the ustar interchange format. */
module TarFormat {

  // Unmodelled: a field of a header has no end.
  datatype Error = ReadFailed | SeekFailed | BadChecksum | NullRecord | NotFound | Unmodelled

  datatype Result<T> = Ok(value: T) | Err(error: Error)

  const BLOCK: nat := 512
  const REGULAR: int := 48 // '0'

  datatype Header = Header(mode: nat, owner: nat, size: nat, mtime: nat, kind: int, name: seq<int>, linkname: seq<int>)

  /** mtar_raw_header_t. */
  datatype Raw = Raw(
    name: seq<int>, mode: seq<int>, owner: seq<int>, group: seq<int>, size: seq<int>, mtime: seq<int>,
    checksum: seq<int>, kind: int, linkname: seq<int>, padding: seq<int>)

  predicate Shaped(r: Raw) {
    && |r.name| == 100 && |r.mode| == 8 && |r.owner| == 8 && |r.group| == 8 && |r.size| == 12 && |r.mtime| == 12
    && |r.checksum| == 8 && |r.linkname| == 100 && |r.padding| == 255
  }

  // The bytes in front of the checksum, and those behind it.
  function Front(r: Raw): seq<int> { r.name + (r.mode + (r.owner + (r.group + (r.size + r.mtime)))) }

  function Back(r: Raw): seq<int> { [r.kind] + (r.linkname + r.padding) }

  /** The record in memory. */
  function Bytes(r: Raw): seq<int> { Front(r) + (r.checksum + Back(r)) }

  /** Memory as a record. */
  function FromBytes(b: seq<int>): (r: Raw)
    requires |b| == BLOCK
    ensures Shaped(r)
  {
    var front, back := b[..148], b[156..];
    Raw(front[..100], front[100..][..8], front[100..][8..][..8], front[100..][8..][8..][..8],
        front[100..][8..][8..][8..][..12], front[100..][8..][8..][8..][12..],
        b[148..156], back[0], back[1..][..100], back[1..][100..])
  }

  lemma Peel(a: seq<int>, b: seq<int>)
    ensures (a + b)[..|a|] == a && (a + b)[|a|..] == b
  {
  }

  lemma Sections(r: Raw)
    requires Shaped(r)
    ensures |Front(r)| == 148 && |Back(r)| == 356 && |Bytes(r)| == BLOCK
    ensures Bytes(r)[..148] == Front(r) && Bytes(r)[148..156] == r.checksum && Bytes(r)[156..] == Back(r)
  {
    Peel(Front(r), r.checksum + Back(r));
    Peel(r.checksum, Back(r));
    var b := Bytes(r);
    assert b[148..156] == b[148..][..8];
    assert b[156..] == b[148..][8..];
  }

  lemma RawRoundTrip(r: Raw)
    requires Shaped(r)
    ensures |Bytes(r)| == BLOCK && FromBytes(Bytes(r)) == r
  {
    Sections(r);
    Peel(r.name, r.mode + (r.owner + (r.group + (r.size + r.mtime))));
    Peel(r.mode, r.owner + (r.group + (r.size + r.mtime)));
    Peel(r.owner, r.group + (r.size + r.mtime));
    Peel(r.group, r.size + r.mtime);
    Peel(r.size, r.mtime);
    Peel([r.kind], r.linkname + r.padding);
    Peel(r.linkname, r.padding);
  }

  // ---- Octal numbers ---------------------------------------------------------------------------------

  /** "%o". */
  function Octal(n: nat): seq<int> {
    if n < 8 then [48 + n] else Octal(n / 8) + [48 + n % 8]
  }

  predicate IsOctal(c: int) { 48 <= c <= 55 }

  predicate IsSpace(c: int) { c == 32 || 9 <= c <= 13 }

  /** The digits at the beginning of `s`, behind the value `high`. */
  function Digits(s: seq<int>, high: nat): nat
    decreases |s|
  {
    if |s| == 0 || !IsOctal(s[0]) then high else Digits(s[1..], 8 * high + s[0] - 48)
  }

  /** sscanf with "%o" on a field without sign: None when it converts nothing. */
  function ReadOctal(s: seq<int>): Result<nat>
    decreases |s|
  {
    if |s| == 0 then Err(BadChecksum)
    else if IsSpace(s[0]) then ReadOctal(s[1..])
    else if IsOctal(s[0]) then Ok(Digits(s, 0))
    else Err(BadChecksum)
  }

  /** A field on which sscanf stops before the next field. */
  predicate NumberEnds(s: seq<int>)
    decreases |s|
  {
    |s| > 0 && if IsSpace(s[0]) then NumberEnds(s[1..]) else IsOctal(s[0]) ==> DigitsEnd(s[1..])
  }

  predicate DigitsEnd(s: seq<int>)
    decreases |s|
  {
    |s| > 0 && (IsOctal(s[0]) ==> DigitsEnd(s[1..]))
  }

  /** What lies behind such a field is not read. */
  lemma {:induction false} NumberAlone(s: seq<int>, rest: seq<int>)
    requires NumberEnds(s)
    ensures ReadOctal(s + rest) == ReadOctal(s)
    decreases |s|
  {
    assert (s + rest)[1..] == s[1..] + rest;
    if IsSpace(s[0]) { NumberAlone(s[1..], rest); } else if IsOctal(s[0]) { DigitsAlone(s, rest, 0); }
  }

  lemma {:induction false} DigitsAlone(s: seq<int>, rest: seq<int>, high: nat)
    requires DigitsEnd(s)
    ensures Digits(s + rest, high) == Digits(s, high)
    decreases |s|
  {
    assert (s + rest)[1..] == s[1..] + rest;
    if IsOctal(s[0]) { DigitsAlone(s[1..], rest, 8 * high + s[0] - 48); }
  }

  function Power8(k: nat): nat {
    if k == 0 then 1 else 8 * Power8(k - 1)
  }

  /** A number is read back from its digits when something else follows. */
  lemma {:induction false} DigitsOfOctal(n: nat, rest: seq<int>)
    ensures Digits(Octal(n) + rest, 0) == Digits(rest, n)
    ensures |Octal(n)| > 0 && IsOctal(Octal(n)[0])
    decreases n
  {
    if n < 8 {
      assert (Octal(n) + rest)[1..] == rest;
    } else {
      DigitsOfOctal(n / 8, [48 + n % 8] + rest);
      assert Octal(n) + rest == Octal(n / 8) + ([48 + n % 8] + rest);
      assert ([48 + n % 8] + rest)[1..] == rest;
      assert Octal(n)[0] == Octal(n / 8)[0];
    }
  }

  lemma {:induction false} OctalLength(n: nat, k: nat)
    requires n < Power8(k) && k > 0
    ensures |Octal(n)| <= k
    decreases k
  {
    if n >= 8 { OctalLength(n / 8, k - 1); }
  }

  function Zeros(k: nat): seq<int> {
    seq(k, _ => 0)
  }

  /** A field of `width` bytes that begins with `s`. */
  function Field(s: seq<int>, width: nat): seq<int>
    requires |s| <= width
  {
    s + Zeros(width - |s|)
  }

  lemma ReadField(n: nat, width: nat)
    requires |Octal(n)| < width
    ensures ReadOctal(Field(Octal(n), width)) == Ok(n)
  {
    DigitsOfOctal(n, Zeros(width - |Octal(n)|));
  }

  lemma {:induction false} FieldEnds(n: nat, rest: seq<int>)
    requires DigitsEnd(rest)
    ensures NumberEnds(Octal(n) + rest) && DigitsEnd(Octal(n) + rest)
    decreases n
  {
    var last := [48 + n % 8] + rest;
    assert last[1..] == rest;
    if n < 8 {
      assert Octal(n) + rest == last;
    } else {
      FieldEnds(n / 8, last);
      assert Octal(n) + rest == Octal(n / 8) + last;
    }
  }

  /** Leading zeros change nothing. */
  lemma {:induction false} LeadingZeros(k: nat, s: seq<int>)
    ensures Digits(seq(k, _ => 48) + s, 0) == Digits(s, 0)
  {
    var z := seq(k, _ => 48);
    if k == 0 {
      assert z + s == s;
    } else {
      assert (z + s)[1..] == seq(k - 1, _ => 48) + s;
      LeadingZeros(k - 1, s);
    }
  }

  // ---- Checksums --------------------------------------------------------------------------------------

  function Sum(s: seq<int>): int {
    if |s| == 0 then 0 else Sum(s[..|s| - 1]) + s[|s| - 1]
  }

  predicate AreBytes(s: seq<int>) {
    forall i :: 0 <= i < |s| ==> 0 <= s[i] < 256
  }

  lemma {:induction false} SumBound(s: seq<int>)
    requires AreBytes(s)
    ensures 0 <= Sum(s) <= 255 * |s|
  {
    if |s| > 0 { SumBound(s[..|s| - 1]); }
  }

  /** The sum of all bytes of a record, with blanks in place of the checksum. */
  function Checksum(b: seq<int>): int
    requires |b| == BLOCK
  {
    256 + Sum(b[..148]) + Sum(b[156..])
  }

  /** checksum: two loops over the bytes of a record. */
  method ComputeChecksum(b: seq<int>) returns (sum: int)
    requires |b| == BLOCK
    ensures sum == Checksum(b)
  {
    sum := 256;
    for i := 0 to 148
      invariant sum == 256 + Sum(b[..i])
    {
      assert b[..i + 1][..i] == b[..i];
      sum := sum + b[i];
    }
    ghost var front := sum;
    for i := 156 to BLOCK
      invariant sum == front + Sum(b[156..i])
    {
      assert b[156..i + 1][..i - 156] == b[156..i];
      sum := sum + b[i];
    }
    assert b[156..BLOCK] == b[156..];
  }

  // ---- Headers ------------------------------------------------------------------------------------------

  predicate IsCString(s: seq<int>) {
    forall i :: 0 <= i < |s| ==> 0 < s[i] < 256
  }

  /** What fits in a record. */
  predicate Representable(h: Header) {
    && h.mode < Power8(7) && h.owner < Power8(7) && h.size < Power8(11) && h.mtime < Power8(11)
    && 0 <= h.kind < 256
    && |h.name| < 100 && IsCString(h.name) && |h.linkname| < 100 && IsCString(h.linkname)
  }

  function Octal6(n: nat): seq<int>
    requires |Octal(n)| <= 6
  {
    seq(6 - |Octal(n)|, _ => 48) + Octal(n)
  }

  lemma Widths(h: Header)
    requires Representable(h)
    ensures |Octal(h.mode)| < 8 && |Octal(h.owner)| < 8 && |Octal(h.size)| < 12 && |Octal(h.mtime)| < 12
  {
    OctalLength(h.mode, 7);
    OctalLength(h.owner, 7);
    OctalLength(h.size, 11);
    OctalLength(h.mtime, 11);
  }

  /** A record without its checksum. */
  function Unsigned(h: Header): (r: Raw)
    requires Representable(h)
    ensures Shaped(r)
  {
    Widths(h);
    Raw(Field(h.name, 100), Field(Octal(h.mode), 8), Field(Octal(h.owner), 8), Zeros(8), Field(Octal(h.size), 12),
        Field(Octal(h.mtime), 12), Zeros(8), if h.kind == 0 then REGULAR else h.kind, Field(h.linkname, 100), Zeros(255))
  }

  lemma {:induction false} OctalBytes(n: nat)
    ensures AreBytes(Octal(n))
  {
    if n >= 8 { OctalBytes(n / 8); }
  }

  /** The checksum has at most six digits. */
  lemma ChecksumFits(h: Header)
    requires Representable(h)
    ensures |Bytes(Unsigned(h))| == BLOCK && 0 <= Checksum(Bytes(Unsigned(h))) && |Octal(Checksum(Bytes(Unsigned(h))))| <= 6
  {
    var r := Unsigned(h);
    Sections(r);
    OctalBytes(h.mode);
    OctalBytes(h.owner);
    OctalBytes(h.size);
    OctalBytes(h.mtime);
    assert AreBytes(Front(r)) && AreBytes(Back(r));
    SumBound(Front(r));
    SumBound(Back(r));
    assert Power8(6) == 8 * Power8(5) && Power8(5) == 8 * Power8(4) && Power8(4) == 8 * Power8(3);
    assert Power8(3) == 8 * Power8(2) && Power8(2) == 8 * Power8(1) && Power8(1) == 8;
    OctalLength(Checksum(Bytes(r)), 6);
  }

  /** header_to_raw. */
  function ToRaw(h: Header): (r: Raw)
    requires Representable(h)
    ensures Shaped(r)
  {
    ChecksumFits(h);
    var r := Unsigned(h);
    r.(checksum := Octal6(Checksum(Bytes(r))) + [0, 32])
  }

  /** The string in a field. */
  function CStr(field: seq<int>): seq<int> {
    if |field| == 0 || field[0] == 0 then [] else [field[0]] + CStr(field[1..])
  }

  /** The number in a field; 0 where sscanf would leave it as it was. */
  function Number(field: seq<int>): nat {
    var n := ReadOctal(field);
    if n.Ok? then n.value else 0
  }

  /** Every field is read without running on into the next one. */
  predicate FieldsEnd(r: Raw) {
    && NumberEnds(r.mode) && NumberEnds(r.owner) && NumberEnds(r.size) && NumberEnds(r.mtime) && NumberEnds(r.checksum)
    && 0 in r.name && 0 in r.linkname
  }

  /** raw_to_header. */
  function ToHeader(r: Raw): Result<Header>
    requires Shaped(r)
  {
    Sections(r);
    if r.checksum[0] == 0 then Err(NullRecord)
    else if !FieldsEnd(r) then Err(Unmodelled)
    else if ReadOctal(r.checksum).Err? || ReadOctal(r.checksum).value != Checksum(Bytes(r)) then Err(BadChecksum)
    else Ok(Header(Number(r.mode), Number(r.owner), Number(r.size), Number(r.mtime), r.kind, CStr(r.name), CStr(r.linkname)))
  }

  /** What the bytes of a record say. */
  function Decode(b: seq<int>): Result<Header> {
    if |b| == BLOCK then ToHeader(FromBytes(b)) else Err(ReadFailed)
  }

  lemma {:induction false} CStrOfField(s: seq<int>, width: nat)
    requires |s| < width && IsCString(s)
    ensures CStr(Field(s, width)) == s
    decreases |s|
  {
    if |s| > 0 {
      CStrOfField(s[1..], width - 1);
      assert Field(s, width)[1..] == Field(s[1..], width - 1);
    }
  }

  /** strcpy of a field with a NUL does not see what lies behind it. */
  lemma {:induction false} StringAlone(s: seq<int>, rest: seq<int>)
    requires 0 in s
    ensures CStr(s + rest) == CStr(s)
    decreases |s|
  {
    assert (s + rest)[1..] == s[1..] + rest;
    if s[0] != 0 { StringAlone(s[1..], rest); }
  }

  /** What is written is what is read: a kind of 0 counts as a regular file. */
  function Normal(h: Header): Header {
    if h.kind == 0 then h.(kind := REGULAR) else h
  }

  lemma ChecksumRead(h: Header)
    requires Representable(h)
    ensures var r := ToRaw(h);
      && |Bytes(r)| == BLOCK && r.checksum[0] != 0
      && ReadOctal(r.checksum) == Ok(Checksum(Bytes(r)))
  {
    var base, r := Unsigned(h), ToRaw(h);
    ChecksumFits(h);
    Sections(base);
    Sections(r);
    assert Front(r) == Front(base) && Back(r) == Back(base);
    var n := Checksum(Bytes(base));
    var zeros := seq(6 - |Octal(n)|, _ => 48);
    DigitsOfOctal(n, [0, 32]);
    LeadingZeros(|zeros|, Octal(n) + [0, 32]);
    assert r.checksum == zeros + (Octal(n) + [0, 32]);
  }

  /** Every record that is written has fields that end. */
  lemma FieldsOfHeader(h: Header)
    requires Representable(h)
    ensures FieldsEnd(ToRaw(h))
  {
    var r := ToRaw(h);
    Widths(h);
    NumberField(h.mode, 8);
    NumberField(h.owner, 8);
    NumberField(h.size, 12);
    NumberField(h.mtime, 12);
    ChecksumField(h);
    assert r.name[|h.name|] == 0 && r.linkname[|h.linkname|] == 0;
  }

  lemma NumberField(n: nat, width: nat)
    requires |Octal(n)| < width
    ensures NumberEnds(Field(Octal(n), width))
  {
    FieldEnds(n, Zeros(width - |Octal(n)|));
  }

  lemma ChecksumField(h: Header)
    requires Representable(h)
    ensures NumberEnds(ToRaw(h).checksum)
  {
    ChecksumFits(h);
    var n := Checksum(Bytes(Unsigned(h)));
    var zeros := seq(6 - |Octal(n)|, _ => 48);
    FieldEnds(n, [0, 32]);
    ZerosEnd(|zeros|, Octal(n) + [0, 32]);
    assert ToRaw(h).checksum == zeros + (Octal(n) + [0, 32]);
  }

  lemma {:induction false} ZerosEnd(k: nat, s: seq<int>)
    requires NumberEnds(s) && DigitsEnd(s)
    ensures NumberEnds(seq(k, _ => 48) + s) && DigitsEnd(seq(k, _ => 48) + s)
  {
    var z := seq(k, _ => 48);
    if k == 0 {
      assert z + s == s;
    } else {
      assert (z + s)[1..] == seq(k - 1, _ => 48) + s;
      ZerosEnd(k - 1, s);
    }
  }

  lemma HeaderRoundTrip(h: Header)
    requires Representable(h)
    ensures ToHeader(ToRaw(h)) == Ok(Normal(h))
  {
    ChecksumRead(h);
    FieldsOfHeader(h);
    Widths(h);
    ReadField(h.mode, 8);
    ReadField(h.owner, 8);
    ReadField(h.size, 12);
    ReadField(h.mtime, 12);
    CStrOfField(h.name, 100);
    CStrOfField(h.linkname, 100);
  }

  lemma NullRecordRead(b: seq<int>)
    requires b == Zeros(BLOCK)
    ensures Decode(b) == Err(NullRecord)
  {
  }

  // ---- The ustar interchange format -----------------------------------------------------------------------

  /** Where the fields lie in a record, by their offsets. */
  lemma FieldsRead(b: seq<int>)
    requires |b| == 512
    ensures var r := FromBytes(b);
      && r.name == b[0..100] && r.mode == b[100..108] && r.owner == b[108..116] && r.group == b[116..124]
      && r.size == b[124..136] && r.mtime == b[136..148] && r.checksum == b[148..156] && r.kind == b[156]
      && r.linkname == b[157..257] && r.padding == b[257..512]
  {
    var front, back := b[..148], b[156..];
    assert front[100..][..8] == b[100..108] && front[100..][8..] == b[108..148];
    assert front[100..][8..][..8] == b[108..116] && front[100..][8..][8..] == b[116..148];
    assert front[100..][8..][8..][..8] == b[116..124] && front[100..][8..][8..][8..] == b[124..148];
    assert front[100..][8..][8..][8..][..12] == b[124..136] && front[100..][8..][8..][8..][12..] == b[136..148];
    assert back[1..] == b[157..];
  }

  /** And where they lie in what is written. */
  lemma FieldsWritten(r: Raw)
    requires Shaped(r)
    ensures var b := Bytes(r);
      && |b| == 512
      && b[0..100] == r.name && b[100..108] == r.mode && b[108..116] == r.owner && b[116..124] == r.group
      && b[124..136] == r.size && b[136..148] == r.mtime && b[148..156] == r.checksum && b[156] == r.kind
      && b[157..257] == r.linkname && b[257..512] == r.padding
  {
    RawRoundTrip(r);
    FieldsRead(Bytes(r));
  }

  /** What the fields of a record say, if it is read at all. */
  lemma RecordSays(b: seq<int>)
    requires |b| == 512 && Decode(b).Ok?
    ensures var h := Decode(b).value;
      && h.name == CStr(b[0..100]) && h.mode == Number(b[100..108]) && h.owner == Number(b[108..116])
      && h.size == Number(b[124..136]) && h.mtime == Number(b[136..148]) && h.kind == b[156] && h.linkname == CStr(b[157..257])
  {
    FieldsRead(b);
  }

  /** The fields that are written for a header. */
  lemma RecordWritten(h: Header)
    requires Representable(h)
    ensures var b := Bytes(ToRaw(h));
      && |b| == 512 && |Octal(h.mode)| < 8 && |Octal(h.owner)| < 8 && |Octal(h.size)| < 12 && |Octal(h.mtime)| < 12
      && b[0..100] == Field(h.name, 100) && b[100..108] == Field(Octal(h.mode), 8) && b[108..116] == Field(Octal(h.owner), 8)
      && b[116..124] == Zeros(8) && b[124..136] == Field(Octal(h.size), 12) && b[136..148] == Field(Octal(h.mtime), 12)
      && b[156] == (if h.kind == 0 then 48 else h.kind) && b[157..257] == Field(h.linkname, 100) && b[257..512] == Zeros(255)
      && b[154] == 0 && b[155] == 32
  {
    Widths(h);
    FieldsWritten(ToRaw(h));
    var b, r := Bytes(ToRaw(h)), ToRaw(h);
    assert b[154] == b[148..156][6] && b[155] == b[148..156][7];
  }

  lemma {:induction false} SumJoin(a: seq<int>, b: seq<int>)
    ensures Sum(a + b) == Sum(a) + Sum(b)
    decreases |b|
  {
    if |b| == 0 {
      assert a + b == a;
    } else {
      var n := |b| - 1;
      assert (a + b)[..|a + b| - 1] == a + b[..n];
      SumJoin(a, b[..n]);
    }
  }

  /** The checksum is the sum of all bytes of the record with blanks in place of its own eight. */
  lemma ChecksumIsSum(b: seq<int>)
    requires |b| == 512
    ensures Checksum(b) == Sum(b[..148] + [32, 32, 32, 32, 32, 32, 32, 32] + b[156..])
  {
    var blanks := [32, 32, 32, 32, 32, 32, 32, 32];
    SumJoin(b[..148], blanks);
    SumJoin(b[..148] + blanks, b[156..]);
    EightBlanks();
  }

  lemma EightBlanks()
    ensures Sum([32, 32, 32, 32, 32, 32, 32, 32]) == 256
  {
    var one, two, four := [32], [32, 32], [32, 32, 32, 32];
    assert one[..0] == [] && Sum(one) == Sum(one[..0]) + 32;
    assert two == one + one && four == two + two && four + four == [32, 32, 32, 32, 32, 32, 32, 32];
    SumJoin(one, one);
    SumJoin(two, two);
    SumJoin(four, four);
  }

  // ---- Octal numbers by their places ---------------------------------------------------------------------------

  /** The value of digits, least significant last. */
  function PlaceValue(s: seq<int>): int {
    if |s| == 0 then 0 else (s[0] - 48) * Power8(|s| - 1) + PlaceValue(s[1..])
  }

  lemma {:induction false} DigitsByPlace(s: seq<int>, high: nat)
    requires forall i :: 0 <= i < |s| ==> IsOctal(s[i])
    ensures Digits(s, high) == high * Power8(|s|) + PlaceValue(s)
    decreases |s|
  {
    if |s| > 0 {
      DigitsByPlace(s[1..], 8 * high + s[0] - 48);
      var p, d := Power8(|s| - 1), s[0] - 48;
      assert Power8(|s|) == 8 * p;
      assert (8 * high + d) * p == high * (8 * p) + d * p;
    }
  }

  /** "644" is 420, both ways. */
  lemma Permissions()
    ensures Octal(420) == [54, 52, 52]
    ensures ReadOctal([54, 52, 52, 0]) == Ok(420)
  {
    assert Octal(6) == [54] && Octal(52) == Octal(6) + [52] && Octal(420) == Octal(52) + [52];
    assert [54, 52, 52, 0] == Octal(420) + [0];
    DigitsOfOctal(420, [0]);
  }
}
