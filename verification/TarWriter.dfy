/** Writing an archive with applications/microtar/microtar.c, and reading it again. */
module TarWriter {
  import opened Basics
  import opened TarFormat
  import opened TarArchive
  import opened TarWalk
  import opened TarReader

  /** All data of an entry that is written piece by piece. */
  function Concat(chunks: seq<seq<int>>): seq<int> {
    if |chunks| == 0 then [] else Concat(chunks[..|chunks| - 1]) + chunks[|chunks| - 1]
  }

  lemma ConcatMore(chunks: seq<seq<int>>, j: nat)
    requires j < |chunks|
    ensures Concat(chunks[..j + 1]) == Concat(chunks[..j]) + chunks[j]
  {
    assert chunks[..j + 1][..j] == chunks[..j];
  }

  lemma {:induction false} ConcatGrows(chunks: seq<seq<int>>, j: nat)
    requires j <= |chunks| && forall i :: 0 <= i < |chunks| ==> |chunks[i]| > 0
    ensures |Concat(chunks[..j])| <= |Concat(chunks)|
    ensures j < |chunks| ==> |Concat(chunks[..j])| < |Concat(chunks)|
    decreases |chunks|
  {
    if j == |chunks| {
      assert chunks[..j] == chunks;
    } else {
      var n := |chunks| - 1;
      ConcatGrows(chunks[..n], j);
      assert chunks[..n][..j] == chunks[..j];
    }
  }

  /** An entry to be written: its header, and its data in pieces none of which is empty. */
  datatype Item = Item(header: Header, chunks: seq<seq<int>>)

  predicate Writable(x: Item) {
    && Representable(x.header) && x.header.size == |Concat(x.chunks)| < UNSIGNED
    && forall i :: 0 <= i < |x.chunks| ==> |x.chunks[i]| > 0
  }

  function RecordOf(x: Item): Record
    requires Writable(x)
  {
    Record(Bytes(ToRaw(x.header)), Normal(x.header), Concat(x.chunks))
  }

  function Records(xs: seq<Item>): (rs: seq<Record>)
    requires forall i :: 0 <= i < |xs| ==> Writable(xs[i])
    ensures |rs| == |xs| && forall i :: 0 <= i < |xs| ==> rs[i] == RecordOf(xs[i])
  {
    seq(|xs|, i requires 0 <= i < |xs| => RecordOf(xs[i]))
  }

  lemma RecordIsReadable(x: Item)
    requires Writable(x)
    ensures WellSized(RecordOf(x)) && Decode(RecordOf(x).head) == Ok(RecordOf(x).header)
  {
    RawRoundTrip(ToRaw(x.header));
    HeaderRoundTrip(x.header);
  }

  lemma RecordsAreReadable(xs: seq<Item>)
    requires forall i :: 0 <= i < |xs| ==> Writable(xs[i])
    ensures AllReadable(Records(xs), Decode)
  {
    forall i | 0 <= i < |xs| ensures WellSized(Records(xs)[i]) && Decode(Records(xs)[i].head) == Ok(Records(xs)[i].header) {
      RecordIsReadable(xs[i]);
    }
    NullRecordRead(Zeros(BLOCK));
  }

  class Writer {
    var stream: seq<int>
    var pos: Unsigned
    var remaining: Unsigned

    constructor ()
      ensures stream == [] && pos == 0 && remaining == 0
    {
      stream, pos, remaining := [], 0, 0;
    }

    /** twrite at the end of the stream. */
    method Write(data: seq<int>)
      modifies this`stream, this`pos
      ensures stream == old(stream) + data && pos == (old(pos) + |data|) % UNSIGNED
    {
      stream := stream + data;
      pos := (pos + |data|) % UNSIGNED;
    }

    method WriteNulls(n: nat)
      modifies this`stream, this`pos
      ensures stream == old(stream) + Zeros(n) && pos == (old(pos) + n) % UNSIGNED
    {
      for i := 0 to n
        invariant stream == old(stream) + Zeros(i) && pos == (old(pos) + i) % UNSIGNED
      {
        assert Zeros(i) + [0] == Zeros(i + 1);
        ModulusSum(1, old(pos) + i);
        Write([0]);
      }
    }

    method WriteHeader(h: Header)
      requires Representable(h) && h.size < UNSIGNED
      modifies this
      ensures stream == old(stream) + Bytes(ToRaw(h)) && pos == (old(pos) + BLOCK) % UNSIGNED && remaining == h.size
    {
      var raw := ToRaw(h);
      Sections(raw);
      remaining := h.size;
      Write(Bytes(raw));
    }

    /** mtar_write_data: the last piece of an entry is padded to a full record. */
    method WriteData(data: seq<int>)
      requires |data| <= remaining
      modifies this
      ensures remaining == old(remaining) - |data|
      ensures var end := old(pos) + |data|;
        if remaining == 0 then pos == RoundUp(end) % UNSIGNED && stream == old(stream) + data + Zeros(RoundUp(end) - end)
        else pos == end % UNSIGNED && stream == old(stream) + data
    {
      Write(data);
      remaining := remaining - |data|;
      if remaining == 0 {
        var n := (RoundUp32(pos) + UNSIGNED - pos) % UNSIGNED;
        PaddingWraps(old(pos) + |data|);
        WriteNulls(n);
      }
    }

    method Finalize()
      modifies this`stream, this`pos
      ensures stream == old(stream) + Zeros(2 * BLOCK)
    {
      WriteNulls(2 * BLOCK);
    }

    /** One piece behind those that are `done`. */
    method WritePiece(chunk: seq<int>, ghost start: nat, ghost done: seq<int>, ghost before: seq<int>)
      requires |chunk| <= remaining && start % BLOCK == 0 && pos == (start + |done|) % UNSIGNED && stream == before + done
      modifies this
      ensures remaining == old(remaining) - |chunk|
      ensures var data := done + chunk;
        if remaining > 0 then stream == before + data && pos == (start + |data|) % UNSIGNED
        else stream == before + Fill(data) && pos == (start + RoundUp(|data|)) % UNSIGNED
    {
      ChunkPosition(start, |done|, |chunk|);
      LastPiece(before, done, chunk, start);
      WriteData(chunk);
    }

    /** The data of an entry, in any pieces. */
    method WriteChunks(chunks: seq<seq<int>>)
      requires forall i :: 0 <= i < |chunks| ==> |chunks[i]| > 0
      requires remaining == |Concat(chunks)| && pos % BLOCK == 0
      modifies this
      ensures stream == old(stream) + Fill(Concat(chunks)) && pos == (old(pos) + RoundUp(|Concat(chunks)|)) % UNSIGNED
    {
      ghost var start, data, done := pos, Concat(chunks), [];
      assert chunks[..0] == [];
      assert stream == stream + [];
      for j := 0 to |chunks|
        invariant done == Concat(chunks[..j]) && remaining == |data| - |done|
        invariant remaining > 0 || |data| == 0 ==> stream == old(stream) + done && pos == (start + |done|) % UNSIGNED
        invariant remaining == 0 && |data| > 0 ==> done == data && stream == old(stream) + Fill(data) && pos == (start + RoundUp(|data|)) % UNSIGNED
      {
        ConcatMore(chunks, j);
        ConcatGrows(chunks, j);
        ConcatGrows(chunks, j + 1);
        WritePiece(chunks[j], start, done, old(stream));
        done := done + chunks[j];
        if remaining == 0 { AllDone(chunks, j + 1); }
      }
      assert chunks[..|chunks|] == chunks;
      if |data| == 0 { assert Fill(data) == []; }
    }

    /** A header and its data. */
    method WriteItem(x: Item)
      requires Writable(x) && pos % BLOCK == 0
      modifies this
      ensures stream == old(stream) + (RecordOf(x).head + Fill(RecordOf(x).data))
      ensures pos == (old(pos) + (BLOCK + RoundUp(x.header.size))) % UNSIGNED && pos % BLOCK == 0
    {
      BlockPosition(pos, RoundUp(x.header.size));
      WriteHeader(x.header);
      ghost var head := Bytes(ToRaw(x.header));
      WriteChunks(x.chunks);
      Associate(old(stream), head, Fill(Concat(x.chunks)));
    }
  }

  /** The position behind a piece, and its padding, are those without wrap-around, modulo 2^32. */
  lemma ChunkPosition(start: nat, done: nat, n: nat)
    requires start % BLOCK == 0
    ensures var end, all := (start + done) % UNSIGNED + n, start + (done + n);
      && end % UNSIGNED == all % UNSIGNED
      && RoundUp(end) - end == RoundUp(all) - all && RoundUp(end) % UNSIGNED == (start + RoundUp(done + n)) % UNSIGNED
  {
    var end, all := (start + done) % UNSIGNED + n, start + (done + n);
    ModulusSum(n, start + done);
    SamePadding(end, all);
    Padding(start, done + n);
  }

  /** Positions stay at the beginning of a record. */
  lemma BlockPosition(pos: nat, n: nat)
    requires pos % BLOCK == 0 && n % BLOCK == 0
    ensures (pos + BLOCK) % UNSIGNED % BLOCK == 0
    ensures ((pos + BLOCK) % UNSIGNED + n) % UNSIGNED == (pos + (BLOCK + n)) % UNSIGNED
    ensures (pos + (BLOCK + n)) % UNSIGNED % BLOCK == 0
  {
    Blocks(pos, n);
    Blocks(pos, 0);
    ModulusSum(n, pos + BLOCK);
    Padded(pos + BLOCK);
    Padded(pos + (BLOCK + n));
  }

  lemma AllDone(chunks: seq<seq<int>>, j: nat)
    requires forall i :: 0 <= i < |chunks| ==> |chunks[i]| > 0
    requires j <= |chunks| && |Concat(chunks[..j])| == |Concat(chunks)|
    ensures j == |chunks| && Concat(chunks[..j]) == Concat(chunks)
  {
    ConcatGrows(chunks, j);
    assert chunks[..|chunks|] == chunks;
  }

  lemma LastPiece(base: seq<int>, done: seq<int>, last: seq<int>, start: nat)
    requires start % BLOCK == 0
    ensures var data := done + last; var end := start + |data|;
      && base + done + last == base + data
      && base + done + last + Zeros(RoundUp(end) - end) == base + Fill(data)
      && RoundUp(end) == start + RoundUp(|data|)
  {
    var data := done + last;
    Padding(start, |data|);
    assert base + done + last == base + data;
    Associate(base, data, Zeros(RoundUp(|data|) - |data|));
  }

  lemma Associate(a: seq<int>, b: seq<int>, c: seq<int>)
    ensures a + b + c == a + (b + c)
  {
  }

  /** From the beginning of a record, rounding up the position rounds up the length. */
  lemma Padding(start: nat, n: nat)
    requires start % BLOCK == 0
    ensures RoundUp(start + n) == start + RoundUp(n)
  {
  }

  /** The padding is the same when the position has wrapped. */
  lemma SamePadding(a: nat, b: nat)
    requires a % UNSIGNED == b % UNSIGNED
    ensures RoundUp(a) - a == RoundUp(b) - b && RoundUp(a) % UNSIGNED == RoundUp(b) % UNSIGNED
  {
    Padded(a);
    Padded(b);
    ModulusSum(RoundUp(a) - a, a);
    ModulusSum(RoundUp(b) - b, b);
  }

  lemma Padded(a: nat)
    ensures a % UNSIGNED % BLOCK == a % BLOCK
    ensures RoundUp(a) - a == RoundUp(a % UNSIGNED) - a % UNSIGNED
  {
    var r := a % UNSIGNED;
    var k := 0x80_0000 * (a / UNSIGNED);
    assert a == r + BLOCK * k;
    BlockModulus(r, k);
  }

  lemma {:induction false} BlockModulus(n: nat, k: nat)
    ensures (n + BLOCK * k) % BLOCK == n % BLOCK
  {
    if k > 0 { BlockModulus(n, k - 1); }
  }

  /** How mtar_write_data counts the padding, in unsigned numbers. */
  lemma PaddingWraps(end: nat)
    ensures var pos := end % UNSIGNED; var n := (RoundUp32(pos) + UNSIGNED - pos) % UNSIGNED;
      n == RoundUp(end) - end && (pos + n) % UNSIGNED == RoundUp(end) % UNSIGNED
  {
    var pos := end % UNSIGNED;
    Padded(end);
    PadUnsigned(pos, RoundUp(end) - end);
    ModulusSum(RoundUp(end) - end, end);
  }

  lemma PadUnsigned(pos: nat, n: nat)
    requires pos < UNSIGNED && n == RoundUp(pos) - pos
    ensures (RoundUp32(pos) + UNSIGNED - pos) % UNSIGNED == n
  {
    NotBeyond(pos);
    var r := RoundUp(pos);
    if r == UNSIGNED { assert RoundUp32(pos) == 0; } else { assert RoundUp32(pos) == r; }
  }

  lemma NotBeyond(pos: nat)
    requires pos < UNSIGNED
    ensures RoundUp(pos) <= UNSIGNED
  {
    assert UNSIGNED == BLOCK * 0x80_0000;
  }

  lemma LayMore(xs: seq<Item>, i: nat)
    requires i < |xs| && forall j :: 0 <= j < |xs| ==> Writable(xs[j])
    ensures Lay(Records(xs[..i + 1])) == Lay(Records(xs[..i])) + (RecordOf(xs[i]).head + Fill(RecordOf(xs[i]).data))
  {
    assert Records(xs[..i + 1])[..i] == Records(xs[..i]);
  }

  /** All entries, and the end of the archive. */
  method Pack(xs: seq<Item>) returns (stream: seq<int>)
    requires forall i :: 0 <= i < |xs| ==> Writable(xs[i])
    ensures stream == Archive(Records(xs))
  {
    var w := new Writer();
    ghost var laid := [];
    assert xs[..0] == [] && Lay(Records(xs[..0])) == [];
    for i := 0 to |xs|
      invariant w.stream == laid == Lay(Records(xs[..i])) && w.pos % BLOCK == 0
    {
      LayMore(xs, i);
      laid := Lay(Records(xs[..i + 1]));
      w.WriteItem(xs[i]);
    }
    assert xs[..|xs|] == xs;
    w.Finalize();
    stream := w.stream;
  }

  // ---- Packed and read again -------------------------------------------------------------------------------

  predicate AllWritable(xs: seq<Item>) {
    forall i :: 0 <= i < |xs| ==> Writable(xs[i])
  }

  /** Where the entry with index `i` will begin. */
  function Position(xs: seq<Item>, i: nat): nat
    requires i <= |xs|
  {
    if i == 0 then 0 else Position(xs, i - 1) + BLOCK + RoundUp(xs[i - 1].header.size)
  }

  lemma {:induction false} SamePositions(rs: seq<Record>, xs: seq<Item>, i: nat)
    requires |rs| == |xs| && i <= |xs| && forall j :: 0 <= j < |xs| ==> |rs[j].data| == xs[j].header.size
    ensures Start(rs, i) == Position(xs, i)
  {
    if i > 0 { SamePositions(rs, xs, i - 1); }
  }

  lemma PositionIsStart(xs: seq<Item>, i: nat)
    requires AllWritable(xs) && i <= |xs|
    ensures Start(Records(xs), i) == Position(xs, i)
  {
    SamePositions(Records(xs), xs, i);
  }

  /** The regular files with all their data; a kind of 0 counts as regular. */
  function PackedFrom(xs: seq<Item>, i: nat): seq<File>
    requires i <= |xs|
    decreases |xs| - i
  {
    if i == |xs| then []
    else (if Normal(xs[i].header).kind == REGULAR then [(xs[i].header.name, Concat(xs[i].chunks))] else []) + PackedFrom(xs, i + 1)
  }

  lemma {:induction false} SameFiles(rs: seq<Record>, xs: seq<Item>, i: nat)
    requires |rs| == |xs| && i <= |xs|
    requires forall j :: 0 <= j < |xs| ==> rs[j].data == Concat(xs[j].chunks) && rs[j].header == Normal(xs[j].header)
    ensures WholeFrom(rs, i) == PackedFrom(xs, i)
    decreases |xs| - i
  {
    if i < |xs| { SameFiles(rs, xs, i + 1); }
  }

  lemma PackedIsWhole(xs: seq<Item>)
    requires AllWritable(xs)
    ensures WholeFiles(Records(xs)) == PackedFrom(xs, 0)
  {
    SameFiles(Records(xs), xs, 0);
  }

  /** What is packed is unpacked as untar goes through it; as it was, with a buffer of any size, if the
      null record begins at an offset that can be sought. */
  method PackAndUntar(xs: seq<Item>, buffer: nat, turns: nat) returns (files: seq<File>, end: Option<Error>)
    requires buffer > 0 && AllWritable(xs)
    ensures Agrees(UntarFrom(Records(xs), 0, turns), files, end)
    ensures Position(xs, |xs|) <= LONG_MAX && turns >= |xs| ==> files == PackedFrom(xs, 0) && end == Some(NullRecord)
  {
    var stream := Pack(xs);
    RecordsAreReadable(xs);
    var tar := new Tar(stream, Decode);
    files, end := tar.Untar(buffer, turns, Records(xs));
    PositionIsStart(xs, |xs|);
    PackedIsWhole(xs);
    if Position(xs, |xs|) <= LONG_MAX && turns >= |xs| { Through(Records(xs), 0, turns); }
  }

  /** No entry in front of the one with index `n` has that name. */
  predicate NoneNamed(name: seq<int>, xs: seq<Item>, n: nat)
    requires n <= |xs|
  {
    forall i :: 0 <= i < n ==> xs[i].header.name != name
  }

  /** The index of the first entry with that name, or how many entries there are. */
  function FirstNamed(name: seq<int>, xs: seq<Item>, start: nat): (i: nat)
    requires start <= |xs| && NoneNamed(name, xs, start)
    ensures i <= |xs| && NoneNamed(name, xs, i)
    ensures i < |xs| ==> xs[i].header.name == name
    decreases |xs| - start
  {
    if start == |xs| || xs[start].header.name == name then start else FirstNamed(name, xs, start + 1)
  }

  /** Of what was packed, looking for a name finds the first entry that has it, if it begins at an offset
      that can be sought, and then its data can be read with a buffer of any size. MTAR_ENOTFOUND means
      that no entry has the name, if the end can be reached. */
  method PackAndFind(xs: seq<Item>, name: seq<int>, buffer: nat, turns: nat)
    returns (h: Option<Result<Header>>, data: seq<int>, err: Option<Error>)
    requires buffer > 0 && AllWritable(xs)
    ensures Delivers(Records(xs), FindFrom(Records(xs), name, 0, turns), h, data, err)
    ensures var i := FirstNamed(name, xs, 0); turns > |xs| && i < |xs| && Position(xs, i) + BLOCK <= LONG_MAX ==>
      h == Some(Ok(Normal(xs[i].header))) && data == Concat(xs[i].chunks) && err.None?
    ensures FirstNamed(name, xs, 0) == |xs| && turns > |xs| && Position(xs, |xs|) <= LONG_MAX ==> h == Some(Err(NotFound))
  {
    var stream := Pack(xs);
    RecordsAreReadable(xs);
    var tar := new Tar(stream, Decode);
    h, data, err := tar.FindAndRead(name, buffer, turns, Records(xs));
    if turns > |xs| { FoundFirst(name, xs, turns); }
  }

  /** What a search finds among the records is the first entry of that name. */
  lemma FoundFirst(name: seq<int>, xs: seq<Item>, turns: nat)
    requires AllWritable(xs) && turns > |xs|
    ensures var rs, i := Records(xs), FirstNamed(name, xs, 0);
      && Start(rs, i) == Position(xs, i)
      && (i < |xs| ==> rs[i].header == Normal(xs[i].header) && rs[i].data == Concat(xs[i].chunks))
      && (i < |xs| && Position(xs, i) <= LONG_MAX ==> FindFrom(rs, name, 0, turns) == Found(i))
      && (i == |xs| && Position(xs, i) <= LONG_MAX ==> FindFrom(rs, name, 0, turns) == Missed(NotFound))
  {
    var rs, i := Records(xs), FirstNamed(name, xs, 0);
    PositionIsStart(xs, i);
    forall j | 0 <= j < i ensures rs[j].header.name != name { assert xs[j].header.name != name; }
    assert Absent(name, rs, i);
    FindExactly(rs, name, i, turns);
  }

  // ---- Files that are lost ----------------------------------------------------------------------------------

  /** A regular file of `size` zeros. */
  function FileItem(name: seq<int>, size: nat): Item {
    Item(Header(0, 0, size, 0, REGULAR, name, []), [Zeros(size)])
  }

  lemma FileIsWritable(name: seq<int>, size: nat)
    requires |name| < 100 && IsCString(name) && 0 < size < UNSIGNED
    ensures Writable(FileItem(name, size)) && Concat(FileItem(name, size).chunks) == Zeros(size)
  {
    assert Power8(7) == 8 * Power8(6) && Power8(6) > 0;
    BigSize();
    OneChunk(Zeros(size));
  }

  lemma FirstIsWritable(name: seq<int>, size: nat, xs: seq<Item>)
    requires |name| < 100 && IsCString(name) && 0 < size < UNSIGNED && AllWritable(xs)
    ensures var all := [FileItem(name, size)] + xs;
      AllWritable(all) && Records(all)[0].header.name == name && Records(all)[0].header.kind == REGULAR && Records(all)[0].data == Zeros(size)
  {
    FileIsWritable(name, size);
    var all := [FileItem(name, size)] + xs;
    forall i | 0 <= i < |all| ensures Writable(all[i]) { if i > 0 { assert all[i] == xs[i - 1]; } }
    assert Records(all)[0] == RecordOf(all[0]);
  }

  /** A file of 2 GiB can be packed. untar writes an empty file for it, and loses everything behind it. */
  lemma BigFileIsLost(name: seq<int>, xs: seq<Item>, turns: nat)
    requires |name| < 100 && IsCString(name) && AllWritable(xs) && turns > 0
    ensures var all := [FileItem(name, 0x8000_0000)] + xs;
      AllWritable(all) && UntarFrom(Records(all), 0, turns) == Run([(name, [])], Ended(SeekFailed))
  {
    FirstIsWritable(name, 0x8000_0000, xs);
    FirstTooLong(Records([FileItem(name, 0x8000_0000)] + xs), turns);
  }

  /** Of three files of 1 GiB each the last is lost. */
  lemma ThirdIsLost(name: seq<int>, turns: nat)
    requires |name| < 100 && IsCString(name) && turns >= 3
    ensures var x := FileItem(name, 0x4000_0000); var f := (name, Zeros(0x4000_0000));
      AllWritable([x, x, x]) && UntarFrom(Records([x, x, x]), 0, turns) == Run([f, f], Ended(SeekFailed))
  {
    var x := FileItem(name, 0x4000_0000);
    FileIsWritable(name, 0x4000_0000);
    var rs := Records([x, x, x]);
    assert rs[0] == rs[1] == rs[2] == RecordOf(x);
    TwoReached(rs, turns);
    assert ReachedFrom(rs, 2) == [];
    assert ReachedFrom(rs, 1) == FileOf(rs[1], rs[1].data) + [];
  }

  lemma TwoReached(rs: seq<Record>, turns: nat)
    requires |rs| == 3 && turns >= 3 && |rs[0].data| == |rs[1].data| == |rs[2].data| == 0x4000_0000
    ensures Start(rs, 1) == 0x4000_0200 && Start(rs, 2) == 0x8000_0400 && Start(rs, 3) == 0xC000_0600
    ensures !OutOfReach(rs, 0) && !OutOfReach(rs, 1)
    ensures UntarFrom(rs, 0, turns) == Run(ReachedFrom(rs, 0), Ended(SeekFailed))
  {
    assert Start(rs, 0) == 0;
    assert Start(rs, 1) == Start(rs, 0) + BLOCK + 0x4000_0000;
    assert Start(rs, 2) == Start(rs, 1) + BLOCK + 0x4000_0000;
    assert Start(rs, 3) == Start(rs, 2) + BLOCK + 0x4000_0000;
    forall i | 0 <= i < |rs| && Start(rs, i) <= LONG_MAX ensures Start(rs, i + 1) < UNSIGNED {
      assert i == 0 || i == 1 || i == 2;
    }
    UntarReaches(rs, 0, turns);
  }

  /** On a file of 4 GiB less 512 bytes untar never ends: each turn writes it again, empty. */
  lemma UntarNeverEnds(name: seq<int>, xs: seq<Item>, turns: nat)
    requires |name| < 100 && IsCString(name) && AllWritable(xs)
    ensures var all := [FileItem(name, 0xFFFF_FE00)] + xs;
      AllWritable(all) && UntarFrom(Records(all), 0, turns).ending == Running && |UntarFrom(Records(all), 0, turns).files| == turns
  {
    FirstIsWritable(name, 0xFFFF_FE00, xs);
    var rs := Records([FileItem(name, 0xFFFF_FE00)] + xs);
    LargestEntry(rs, 0);
    NeverEnds(rs, 0, turns);
  }

  lemma OneChunk(s: seq<int>)
    ensures Concat([s]) == s
  {
    assert [s][..0] == [] && Concat([]) == [];
  }

  lemma BigSize()
    ensures Power8(11) == 0x2_0000_0000
  {
    assert Power8(1) == 8 && Power8(2) == 64 && Power8(3) == 512 && Power8(4) == 4096;
    assert Power8(5) == 8 * Power8(4) && Power8(6) == 8 * Power8(5) && Power8(7) == 8 * Power8(6) && Power8(8) == 8 * Power8(7);
    assert Power8(9) == 8 * Power8(8) && Power8(10) == 8 * Power8(9) && Power8(11) == 8 * Power8(10);
  }
}
