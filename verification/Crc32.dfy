/** The CRC-32 of applications/common/common.c: the table against the bit-by-bit definition in section 8
    of RFC 1952, and the fold over the chunks of a file. */
module Crc32 {

  // ---- Bit by bit --------------------------------------------------------------------------------------

  /** One bit of the reflected division: the polynomial 0xEDB88320 is subtracted if the low bit is 1. */
  function Bit(c: bv32): bv32 {
    (c >> 1) ^ ((c & 1) * 0xEDB88320)
  }

  function Bits(c: bv32, k: nat): bv32
    decreases k
  {
    if k == 0 then c else Bits(Bit(c), k - 1)
  }

  function BitStep(c: bv32, b: bv8): bv32 {
    Bits(c ^ (b as bv32), 8)
  }

  /** A register that takes in one element after the other. */
  function Fold<R, B>(step: (R, B) -> R, c: R, s: seq<B>): R {
    if |s| == 0 then c else step(Fold(step, c, s[..|s| - 1]), s[|s| - 1])
  }

  const ONES: bv32 := 0xFFFFFFFF

  /** The CRC, bit by bit, of a sequence of bytes that follows bytes with the CRC `before`. */
  function Crc(before: bv32, bytes: seq<bv8>): bv32 {
    Invert(Fold(BitStep, Invert(before), bytes))
  }

  function Invert(c: bv32): bv32 {
    c ^ ONES
  }

  // ---- The table ----------------------------------------------------------------------------------------

  function Pick(i: bv32, a: bv32, b: bv32, c: bv32, d: bv32, e: bv32, f: bv32, g: bv32, h: bv32): bv32 {
    if i == 0 then a else if i == 1 then b else if i == 2 then c else if i == 3 then d
    else if i == 4 then e else if i == 5 then f else if i == 6 then g else h
  }

  /** crc32_table, in its 32 rows. */
  function Table(x: bv32): bv32 {
    var row := x >> 3;
    if row == 0 then Pick(x & 7, 0, 1996959894, 3993919788, 2567524794, 124634137, 1886057615, 3915621685, 2657392035)
    else if row == 1 then Pick(x & 7, 249268274, 2044508324, 3772115230, 2547177864, 162941995, 2125561021, 3887607047, 2428444049)
    else if row == 2 then Pick(x & 7, 498536548, 1789927666, 4089016648, 2227061214, 450548861, 1843258603, 4107580753, 2211677639)
    else if row == 3 then Pick(x & 7, 325883990, 1684777152, 4251122042, 2321926636, 335633487, 1661365465, 4195302755, 2366115317)
    else if row == 4 then Pick(x & 7, 997073096, 1281953886, 3579855332, 2724688242, 1006888145, 1258607687, 3524101629, 2768942443)
    else if row == 5 then Pick(x & 7, 901097722, 1119000684, 3686517206, 2898065728, 853044451, 1172266101, 3705015759, 2882616665)
    else if row == 6 then Pick(x & 7, 651767980, 1373503546, 3369554304, 3218104598, 565507253, 1454621731, 3485111705, 3099436303)
    else if row == 7 then Pick(x & 7, 671266974, 1594198024, 3322730930, 2970347812, 795835527, 1483230225, 3244367275, 3060149565)
    else if row == 8 then Pick(x & 7, 1994146192, 31158534, 2563907772, 4023717930, 1907459465, 112637215, 2680153253, 3904427059)
    else if row == 9 then Pick(x & 7, 2013776290, 251722036, 2517215374, 3775830040, 2137656763, 141376813, 2439277719, 3865271297)
    else if row == 10 then Pick(x & 7, 1802195444, 476864866, 2238001368, 4066508878, 1812370925, 453092731, 2181625025, 4111451223)
    else if row == 11 then Pick(x & 7, 1706088902, 314042704, 2344532202, 4240017532, 1658658271, 366619977, 2362670323, 4224994405)
    else if row == 12 then Pick(x & 7, 1303535960, 984961486, 2747007092, 3569037538, 1256170817, 1037604311, 2765210733, 3554079995)
    else if row == 13 then Pick(x & 7, 1131014506, 879679996, 2909243462, 3663771856, 1141124467, 855842277, 2852801631, 3708648649)
    else if row == 14 then Pick(x & 7, 1342533948, 654459306, 3188396048, 3373015174, 1466479909, 544179635, 3110523913, 3462522015)
    else if row == 15 then Pick(x & 7, 1591671054, 702138776, 2966460450, 3352799412, 1504918807, 783551873, 3082640443, 3233442989)
    else if row == 16 then Pick(x & 7, 3988292384, 2596254646, 62317068, 1957810842, 3939845945, 2647816111, 81470997, 1943803523)
    else if row == 17 then Pick(x & 7, 3814918930, 2489596804, 225274430, 2053790376, 3826175755, 2466906013, 167816743, 2097651377)
    else if row == 18 then Pick(x & 7, 4027552580, 2265490386, 503444072, 1762050814, 4150417245, 2154129355, 426522225, 1852507879)
    else if row == 19 then Pick(x & 7, 4275313526, 2312317920, 282753626, 1742555852, 4189708143, 2394877945, 397917763, 1622183637)
    else if row == 20 then Pick(x & 7, 3604390888, 2714866558, 953729732, 1340076626, 3518719985, 2797360999, 1068828381, 1219638859)
    else if row == 21 then Pick(x & 7, 3624741850, 2936675148, 906185462, 1090812512, 3747672003, 2825379669, 829329135, 1181335161)
    else if row == 22 then Pick(x & 7, 3412177804, 3160834842, 628085408, 1382605366, 3423369109, 3138078467, 570562233, 1426400815)
    else if row == 23 then Pick(x & 7, 3317316542, 2998733608, 733239954, 1555261956, 3268935591, 3050360625, 752459403, 1541320221)
    else if row == 24 then Pick(x & 7, 2607071920, 3965973030, 1969922972, 40735498, 2617837225, 3943577151, 1913087877, 83908371)
    else if row == 25 then Pick(x & 7, 2512341634, 3803740692, 2075208622, 213261112, 2463272603, 3855990285, 2094854071, 198958881)
    else if row == 26 then Pick(x & 7, 2262029012, 4057260610, 1759359992, 534414190, 2176718541, 4139329115, 1873836001, 414664567)
    else if row == 27 then Pick(x & 7, 2282248934, 4279200368, 1711684554, 285281116, 2405801727, 4167216745, 1634467795, 376229701)
    else if row == 28 then Pick(x & 7, 2685067896, 3608007406, 1308918612, 956543938, 2808555105, 3495958263, 1231636301, 1047427035)
    else if row == 29 then Pick(x & 7, 2932959818, 3654703836, 1088359270, 936918000, 2847714899, 3736837829, 1202900863, 817233897)
    else if row == 30 then Pick(x & 7, 3183342108, 3401237130, 1404277552, 615818150, 3134207493, 3453421203, 1423857449, 601450431)
    else Pick(x & 7, 3009837614, 3294710456, 1567103746, 711928724, 3020668471, 3272380065, 1510334235, 755167117)
  }

  lemma LowerHalf(x: bv32)
    requires x <= 0x7F
    ensures Table(x) == Bit(Bit(Bit(Bit(Bit(Bit(Bit(Bit(x))))))))
  {
  }

  lemma UpperHalf(x: bv32)
    requires 0x7F < x <= 0xFF
    ensures Table(x) == Bit(Bit(Bit(Bit(Bit(Bit(Bit(Bit(x))))))))
  {
  }

  /** Every entry of the table is right. */
  lemma TableIsRight(x: bv32)
    requires x <= 0xFF
    ensures Table(x) == Bits(x, 8)
  {
    if x <= 0x7F { LowerHalf(x); } else { UpperHalf(x); }
    EightBits(x);
  }

  lemma EightBits(c: bv32)
    ensures Bits(c, 8) == Bit(Bit(Bit(Bit(Bit(Bit(Bit(Bit(c))))))))
  {
    var c4 := Bit(Bit(Bit(Bit(c))));
    assert Bits(c4, 4) == Bit(Bit(Bit(Bit(c4))));
  }

  // ---- A byte at a time -----------------------------------------------------------------------------------

  /** Division is linear: the three high bytes pass through while the low one is shifted out. */
  lemma HighBytesPass(c: bv32)
    ensures
      var c1 := (c >> 1) ^ ((c & 1) * 0xEDB88320);
      var c2 := (c1 >> 1) ^ ((c1 & 1) * 0xEDB88320);
      var c3 := (c2 >> 1) ^ ((c2 & 1) * 0xEDB88320);
      var c4 := (c3 >> 1) ^ ((c3 & 1) * 0xEDB88320);
      var c5 := (c4 >> 1) ^ ((c4 & 1) * 0xEDB88320);
      var c6 := (c5 >> 1) ^ ((c5 & 1) * 0xEDB88320);
      var c7 := (c6 >> 1) ^ ((c6 & 1) * 0xEDB88320);
      var c8 := (c7 >> 1) ^ ((c7 & 1) * 0xEDB88320);
      var d := c & 0xFF;
      var d1 := (d >> 1) ^ ((d & 1) * 0xEDB88320);
      var d2 := (d1 >> 1) ^ ((d1 & 1) * 0xEDB88320);
      var d3 := (d2 >> 1) ^ ((d2 & 1) * 0xEDB88320);
      var d4 := (d3 >> 1) ^ ((d3 & 1) * 0xEDB88320);
      var d5 := (d4 >> 1) ^ ((d4 & 1) * 0xEDB88320);
      var d6 := (d5 >> 1) ^ ((d5 & 1) * 0xEDB88320);
      var d7 := (d6 >> 1) ^ ((d6 & 1) * 0xEDB88320);
      var d8 := (d7 >> 1) ^ ((d7 & 1) * 0xEDB88320);
      c8 == d8 ^ (c >> 8)
  {
  }

  lemma HighBytes(c: bv32)
    ensures Bit(Bit(Bit(Bit(Bit(Bit(Bit(Bit(c)))))))) == Bit(Bit(Bit(Bit(Bit(Bit(Bit(Bit(c & 0xFF)))))))) ^ (c >> 8)
  {
    HighBytesPass(c);
  }

  /** One turn of the loop of soft_crc32 does eight bits. */
  lemma ByteAtOnce(c: bv32)
    ensures Bits(c, 8) == Table(c & 0xFF) ^ (c >> 8)
  {
    EightBits(c);
    EightBits(c & 0xFF);
    HighBytes(c);
    TableIsRight(c & 0xFF);
  }

  /** One turn of the loop of soft_crc32: the next byte through the table. */
  function Turn(c: bv32, b: bv8): bv32 {
    Table((c ^ (b as bv32)) & 0xFF) ^ (c >> 8)
  }

  function TableStep(z: bv32): bv32 {
    Table(z & 0xFF) ^ (z >> 8)
  }

  lemma TableStepIsRight()
    ensures forall z :: TableStep(z) == Bits(z, 8)
  {
    forall z ensures TableStep(z) == Bits(z, 8) { ByteAtOnce(z); }
  }

  /** A byte does not reach the bits that are shifted. */
  lemma ByteBelow(c: bv32, b: bv8)
    ensures (c ^ (b as bv32)) >> 8 == c >> 8
  {
  }

  lemma TurnIsTableStep(c: bv32, b: bv8)
    ensures Turn(c, b) == TableStep(c ^ (b as bv32))
  {
    ByteBelow(c, b);
  }

  lemma TurnIsEightBits(c: bv32, b: bv8)
    ensures Turn(c, b) == BitStep(c, b)
  {
    TableStepIsRight();
    TurnIsTableStep(c, b);
  }

  lemma TurnsAgree()
    ensures forall c, b :: Turn(c, b) == BitStep(c, b)
  {
    forall c, b ensures Turn(c, b) == BitStep(c, b) { TurnIsEightBits(c, b); }
  }

  // ---- The loops --------------------------------------------------------------------------------------------

  method Loop<R, B>(step: (R, B) -> R, before: R, s: seq<B>) returns (c: R)
    ensures c == Fold(step, before, s)
  {
    c := before;
    for i := 0 to |s|
      invariant c == Fold(step, before, s[..i])
    {
      assert s[..i + 1][..i] == s[..i];
      c := step(c, s[i]);
    }
    assert s[..|s|] == s;
  }

  lemma {:induction false} FoldJoin<R, B>(step: (R, B) -> R, c: R, a: seq<B>, b: seq<B>)
    ensures Fold(step, c, a + b) == Fold(step, Fold(step, c, a), b)
    decreases |b|
  {
    if |b| == 0 {
      assert a + b == a;
    } else {
      var n := |b| - 1;
      FoldJoin(step, c, a, b[..n]);
      assert (a + b)[..|a + b| - 1] == a + b[..n];
    }
  }

  lemma {:induction false} FoldSame<R, B>(f: (R, B) -> R, g: (R, B) -> R, c: R, s: seq<B>)
    requires forall r, b :: f(r, b) == g(r, b)
    ensures Fold(f, c, s) == Fold(g, c, s)
    decreases |s|
  {
    if |s| > 0 { FoldSame(f, g, c, s[..|s| - 1]); }
  }

  /** soft_crc32, driven by the table, is the CRC bit by bit. */
  method SoftCrc32(buf: seq<bv8>, before: bv32) returns (crc: bv32)
    ensures crc == Crc(before, buf)
  {
    var c := Loop(Turn, Invert(before), buf);
    TurnsAgree();
    FoldSame(Turn, BitStep, Invert(before), buf);
    crc := Invert(c);
  }

  lemma TwiceInverted(c: bv32)
    ensures Invert(Invert(c)) == c
  {
  }

  /** The CRC of a whole is the CRC of its end, begun with the CRC of its beginning. */
  lemma CrcJoin(before: bv32, a: seq<bv8>, b: seq<bv8>)
    ensures Crc(before, a + b) == Crc(Crc(before, a), b)
  {
    FoldJoin(BitStep, Invert(before), a, b);
    TwiceInverted(Fold(BitStep, Invert(before), a));
  }

  // ---- The check value ------------------------------------------------------------------------------------

  lemma FoldMore<R, B>(step: (R, B) -> R, c: R, s: seq<B>, b: B)
    ensures Fold(step, c, s + [b]) == step(Fold(step, c, s), b)
  {
    assert (s + [b])[..|s|] == s;
  }

  const NINE: seq<bv8> := [0x31, 0x32, 0x33, 0x34, 0x35, 0x36, 0x37, 0x38, 0x39]

  /** The register when some of the nine digits have been taken in. */
  const REGISTERS: seq<bv32> := [0xFFFFFFFF, 0x7C231048, 0xB0ACBB32, 0x77B79C2D, 0x641C1F5C,
    0x340AC5E3, 0xF68D2C9E, 0xAFFC9660, 0x651F2550, 0x340BC6D9]

  lemma RegisterStep(k: nat)
    requires k < 9
    ensures BitStep(REGISTERS[k], NINE[k]) == REGISTERS[k + 1]
  {
    EightBits(REGISTERS[k] ^ (NINE[k] as bv32));
  }

  lemma {:induction false} RegisterAfter(k: nat)
    requires k <= 9
    ensures Fold(BitStep, ONES, NINE[..k]) == REGISTERS[k]
  {
    if k > 0 {
      RegisterAfter(k - 1);
      assert NINE[..k - 1] + [NINE[k - 1]] == NINE[..k];
      FoldMore<bv32, bv8>(BitStep, ONES, NINE[..k - 1], NINE[k - 1]);
      RegisterStep(k - 1);
    }
  }

  /** The CRC of the nine digits "123456789" is 0xCBF43926. */
  lemma CheckValue()
    ensures Crc(0, NINE) == 0xCBF43926
  {
    RegisterAfter(9);
    assert NINE[..9] == NINE;
  }

  /** The bytes of a file that is read in these pieces. */
  function Whole(chunks: seq<seq<bv8>>): seq<bv8> {
    if |chunks| == 0 then [] else Whole(chunks[..|chunks| - 1]) + chunks[|chunks| - 1]
  }

  /** crcfile: the fold over whatever pieces the file is read in is the CRC of the file. */
  method CrcFile(chunks: seq<seq<bv8>>) returns (crc: bv32)
    ensures crc == Crc(0, Whole(chunks))
  {
    crc := 0;
    TwiceInverted(crc);
    assert chunks[..0] == [];
    for i := 0 to |chunks|
      invariant crc == Crc(0, Whole(chunks[..i]))
    {
      assert chunks[..i + 1][..i] == chunks[..i];
      CrcJoin(0, Whole(chunks[..i]), chunks[i]);
      crc := SoftCrc32(chunks[i], crc);
    }
    assert chunks[..|chunks|] == chunks;
  }
}
