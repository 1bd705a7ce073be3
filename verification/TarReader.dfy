/** Reading an archive with applications/microtar/microtar.c, and the loop of untar in
    applications/common/common.c. */
module TarReader {
  import opened Basics
  import opened TarFormat
  import opened TarArchive
  import opened TarWalk

  // ---- What the calls do -----------------------------------------------------------------------------------

  // raw_to_header. The laws of the reader are the same for every format of headers.
  type Decoder = seq<int> -> Result<Header>

  /** The fields of mtar_t, and the stream behind it with its position. */
  datatype State = State(decode: Decoder, stream: seq<int>, cursor: nat, pos: nat, remaining: nat, lastHeader: nat)

  datatype Outcome<T> = Outcome(state: State, result: Result<T>)

  /** tread: `pos` advances even when the stream is too short. */
  function ReadStep(s: State, n: nat): Outcome<seq<int>> {
    var pos := (s.pos + n) % UNSIGNED;
    if s.cursor + n <= |s.stream| then
      Outcome(s.(cursor := s.cursor + n, pos := pos), Ok(s.stream[s.cursor..s.cursor + n]))
    else
      Outcome(s.(cursor := if s.cursor < |s.stream| then |s.stream| else s.cursor, pos := pos), Err(ReadFailed))
  }

  /** mtar_seek: an offset that is negative as a long is refused, and then `pos` and the stream part. */
  function SeekStep(s: State, p: nat): Outcome<()> {
    if p <= LONG_MAX then Outcome(s.(cursor := p, pos := p), Ok(()))
    else Outcome(s.(pos := p), Err(SeekFailed))
  }

  /** mtar_read_header. */
  function HeaderStep(s: State): Outcome<Header> {
    var o := ReadStep(s.(lastHeader := s.pos), BLOCK);
    if o.result.Err? then Outcome(o.state, Err(o.result.error))
    else
      var k := SeekStep(o.state, o.state.lastHeader);
      Outcome(k.state, if k.result.Err? then Err(k.result.error) else s.decode(o.result.value))
  }

  /** A seek by `n` from where a header was read. */
  function GoOn(o: Outcome<Header>, n: nat): Outcome<Header> {
    var k := SeekStep(o.state, (o.state.pos + n) % UNSIGNED);
    Outcome(k.state, if k.result.Err? then Err(k.result.error) else o.result)
  }

  /** mtar_next. */
  function NextStep(s: State): Outcome<Header> {
    NextAfter(HeaderStep(s))
  }

  function NextAfter(o: Outcome<Header>): Outcome<Header> {
    if o.result.Err? then o else GoOn(o, RoundUp32(o.result.value.size) + BLOCK)
  }

  /** The first part of mtar_read_data: at the header, go to the data behind it. */
  function OpenStep(s: State): Outcome<Header> {
    OpenAfter(HeaderStep(s))
  }

  function OpenAfter(o: Outcome<Header>): Outcome<Header> {
    if o.result.Err? then o
    else
      var k := GoOn(o, BLOCK);
      if k.result.Err? then k else Outcome(k.state.(remaining := o.result.value.size), k.result)
  }

  /** mtar_read_data. */
  function DataStep(s: State, n: nat): Outcome<seq<int>> {
    if s.remaining > 0 then TakeStep(s, n)
    else
      var o := OpenStep(s);
      if o.result.Err? then Outcome(o.state, Err(o.result.error)) else TakeStep(o.state, n)
  }

  function TakeStep(s: State, n: nat): Outcome<seq<int>> {
    var o := ReadStep(s, n);
    if o.result.Err? then o
    else
      var left := (o.state.remaining - n) % UNSIGNED;
      var after := o.state.(remaining := left);
      if left > 0 then Outcome(after, o.result)
      else
        var k := SeekStep(after, after.lastHeader);
        Outcome(k.state, if k.result.Err? then Err(k.result.error) else o.result)
  }

  // ---- Reading a well-formed archive --------------------------------------------------------------------------

  /** The bytes of every header say what the entry is, and zeros are the null record. */
  ghost predicate AllReadable(rs: seq<Record>, decode: Decoder) {
    && AllWellSized(rs) && decode(Zeros(BLOCK)) == Err(NullRecord)
    && forall i {:trigger rs[i].head} :: 0 <= i < |rs| ==> decode(rs[i].head) == Ok(rs[i].header)
  }

  /** The reader is at the entry `i`, or at the end. */
  ghost predicate AtEntry(s: State, rs: seq<Record>, i: nat) {
    && i <= |rs| && s.stream == Archive(rs) && s.remaining == 0
    && s.cursor == s.pos == Start(rs, i) <= LONG_MAX
  }

  /** An entry in a stream, by the position of its header. */
  datatype Place = Place(decode: Decoder, stream: seq<int>, p: nat, data: seq<int>)

  /** The header is there and says how long the data behind it are. */
  ghost predicate EntryIn(e: Place) {
    && e.p <= LONG_MAX && e.p + BLOCK + |e.data| <= |e.stream| && |e.data| < UNSIGNED
    && SaysSize(e.decode(e.stream[e.p..e.p + BLOCK]), |e.data|)
    && e.stream[e.p + BLOCK..e.p + BLOCK + |e.data|] == e.data
  }

  ghost predicate SaysSize(h: Result<Header>, size: nat) {
    h.Ok? && h.value.size == size
  }

  /** What the reader knows within an entry: `k` bytes have been read. When none or all have been, it
      is at the header. */
  ghost predicate Inside(s: State, e: Place, k: nat) {
    && s.stream == e.stream && s.decode == e.decode && EntryIn(e)
    && if k == 0 then s.cursor == s.pos == e.p && s.remaining == 0
       else
         && k < |e.data| && s.remaining == |e.data| - k && s.cursor == e.p + BLOCK + k
         && s.pos == s.cursor % UNSIGNED && s.lastHeader == e.p
  }

  lemma HeaderAt(s: State, b: seq<int>)
    requires s.cursor == s.pos <= LONG_MAX && s.pos + BLOCK <= |s.stream| && s.stream[s.pos..s.pos + BLOCK] == b
    ensures HeaderStep(s) == Outcome(s.(lastHeader := s.pos), s.decode(b))
  {
  }

  /** What the header is there: that of an entry, or the null record behind the last. */
  function HeaderOf(rs: seq<Record>, i: nat): Result<Header> {
    if i < |rs| then Ok(rs[i].header) else Err(NullRecord)
  }

  lemma HeaderRead(s: State, rs: seq<Record>, i: nat)
    requires AllReadable(rs, s.decode) && AtEntry(s, rs, i)
    ensures HeaderStep(s) == Outcome(s.(lastHeader := s.pos), HeaderOf(rs, i))
  {
    if i < |rs| {
      RecordAt(rs, i);
      HeaderAt(s, rs[i].head);
    } else {
      EndAt(rs);
      HeaderAt(s, Zeros(BLOCK));
    }
  }

  // ---- From entry to entry ------------------------------------------------------------------------------------

  lemma NextPosition(p: nat, size: nat)
    ensures (p + (RoundUp32(size) + BLOCK)) % UNSIGNED == (p + BLOCK + RoundUp(size)) % UNSIGNED
  {
    ModulusSum(p + BLOCK, RoundUp(size));
    assert p + (RoundUp32(size) + BLOCK) == p + BLOCK + RoundUp(size) % UNSIGNED;
  }

  /** From a header to the position `p`, modulo 2^32, or not. */
  lemma Going(o: Outcome<Header>, p: nat)
    requires o.result.Ok? && p == o.state.pos + BLOCK + RoundUp(o.result.value.size)
    ensures p <= LONG_MAX ==> NextAfter(o) == Outcome(o.state.(cursor := p, pos := p), o.result)
    ensures NextAfter(o) ==
      if p % UNSIGNED <= LONG_MAX then Outcome(o.state.(cursor := p % UNSIGNED, pos := p % UNSIGNED), o.result)
      else Outcome(o.state.(pos := p % UNSIGNED), Err(SeekFailed))
  {
    NextPosition(o.state.pos, o.result.value.size);
  }

  /** A header cannot be read at a position that cannot be sought. */
  lemma HeaderStuck(s: State)
    requires s.pos > LONG_MAX && s.cursor + BLOCK <= |s.stream|
    ensures HeaderStep(s).result == Err(SeekFailed)
  {
  }

  /** mtar_next goes from an entry to where the next begins, modulo 2^32. If that cannot be sought, the
      next header cannot be read either. */
  lemma NextRead(s: State, rs: seq<Record>, i: nat)
    requires AllReadable(rs, s.decode) && i < |rs| && AtEntry(s, rs, i)
    ensures var o := NextStep(s);
      match HopFrom(rs, i)
      case To(j) => AtEntry(o.state, rs, j)
      case Stuck => HeaderStep(o.state).result == Err(SeekFailed)
      case Astray => true
  {
    HeaderRead(s, rs, i);
    RecordAt(rs, i);
    var p := Start(rs, i + 1);
    Going(HeaderStep(s), p);
    if p % UNSIGNED > LONG_MAX { HeaderStuck(NextStep(s).state); }
  }

  ghost function PlaceOf(rs: seq<Record>, i: nat, decode: Decoder): Place
    requires i < |rs|
  {
    Place(decode, Archive(rs), Start(rs, i), rs[i].data)
  }

  lemma EntryThere(s: State, rs: seq<Record>, i: nat)
    requires AllReadable(rs, s.decode) && i < |rs| && AtEntry(s, rs, i)
    ensures Inside(s, PlaceOf(rs, i, s.decode), 0)
  {
    RecordAt(rs, i);
    assert s.decode(rs[i].head) == Ok(rs[i].header);
  }

  /** Going from the header to the data. */
  lemma Opening(s: State, e: Place)
    requires Inside(s, e, 0)
    ensures var o, q := OpenStep(s), e.p + BLOCK;
      if q <= LONG_MAX then o.result.Ok? && o.state == s.(cursor := q, pos := q, remaining := |e.data|, lastHeader := e.p)
      else o.result == Err(SeekFailed)
  {
    HeaderAt(s, s.stream[e.p..e.p + BLOCK]);
  }

  /** mtar_read_data returns the next bytes of the entry, for every way of cutting it. */
  lemma DataRead(s: State, e: Place, k: nat, n: nat)
    requires Inside(s, e, k) && 0 < n && k + n <= |e.data| && e.p + BLOCK <= LONG_MAX
    ensures var o := DataStep(s, n);
      o.result == Ok(e.data[k..k + n]) && Inside(o.state, e, if k + n == |e.data| then 0 else k + n)
  {
    if k == 0 {
      Opening(s, e);
      TakeRead(OpenStep(s).state, e, k, n);
    } else {
      TakeRead(s, e, k, n);
    }
  }

  lemma TakeRead(s: State, e: Place, k: nat, n: nat)
    requires EntryIn(e) && 0 < n && k + n <= |e.data| && s.stream == e.stream && s.decode == e.decode
    requires s.cursor == e.p + BLOCK + k && s.pos == s.cursor % UNSIGNED && s.lastHeader == e.p && s.remaining == |e.data| - k
    ensures var o := TakeStep(s, n);
      o.result == Ok(e.data[k..k + n]) && Inside(o.state, e, if k + n == |e.data| then 0 else k + n)
  {
    Inner(s.stream, e.p + BLOCK, |e.data|, k, n);
    var left := s.remaining - n;
    assert left % UNSIGNED == left;
    ModulusSum(n, s.cursor);
  }

  /** The data behind the last header that can be sought cannot. */
  lemma DataUnread(s: State, e: Place, n: nat)
    requires Inside(s, e, 0) && e.p + BLOCK > LONG_MAX
    ensures DataStep(s, n).result == Err(SeekFailed)
  {
    Opening(s, e);
  }

  lemma JoinSlices(s: seq<int>, k: nat, n: nat)
    requires k + n <= |s|
    ensures s[..k] + s[k..k + n] == s[..k + n]
  {
  }

  // ---- What the reader's loops promise ------------------------------------------------------------------------

  /** The data can be read, or none of it. */
  ghost predicate PartRead(s: State, e: Place, k: nat, n: nat, r: Result<seq<int>>)
    requires k + n <= |e.data|
  {
    if e.p + BLOCK > LONG_MAX then r == Err(SeekFailed)
    else r == Ok(e.data[k..k + n]) && Inside(s, e, if k + n == |e.data| then 0 else k + n)
  }

  ghost predicate AllRead(s: State, e: Place, size: nat, data: seq<int>, err: Option<Error>) {
    if size > 0 && e.p + BLOCK > LONG_MAX then data == [] && err == Some(SeekFailed)
    else data == (if size == 0 then [] else e.data) && err.None? && Inside(s, e, 0)
  }

  ghost predicate Extraction(s: State, rs: seq<Record>, i: nat, files: seq<File>, err: Option<Error>)
    requires i < |rs|
  {
    if OutOfReach(rs, i) then files == FileOf(rs[i], []) && err == Some(SeekFailed)
    else files == FileOf(rs[i], Extracted(rs[i].data)) && err.None? && AtEntry(s, rs, i)
  }

  ghost predicate Landed(s: State, rs: seq<Record>, hop: Hop, h: Result<Header>) {
    match hop
    case To(j) => AtEntry(s, rs, j) && h == HeaderOf(rs, j)
    case Stuck => h == Err(SeekFailed)
    case Astray => true
  }

  function ErrorOf(h: Result<Header>): Option<Error> {
    if h.Err? then Some(h.error) else None
  }

  /** A run of untar as it was predicted. Where it reads headers where there are none, only what went
      before is known. */
  predicate Agrees(goal: Run, files: seq<File>, end: Option<Error>) {
    match goal.ending
    case Ended(e) => files == goal.files && end == Some(e)
    case Running => files == goal.files && end.None?
    case Lost => goal.files <= files
  }

  /** Where the reader is, and what has been written on the way. */
  ghost predicate OnTheWay(s: State, rs: seq<Record>, i: nat, left: nat, h: Result<Header>, files: seq<File>, goal: Run) {
    AtEntry(s, rs, i) && h == HeaderOf(rs, i) && goal == Behind(files, UntarFrom(rs, i, left))
  }

  /** What one turn adds to the run. */
  lemma TurnAgrees(rs: seq<Record>, i: nat, left: nat, files: seq<File>, more: seq<File>, goal: Run)
    requires i < |rs| && goal == Behind(files, UntarFrom(rs, i, left + 1))
    ensures OutOfReach(rs, i) && more == FileOf(rs[i], []) ==> Agrees(goal, files + more, Some(SeekFailed))
    ensures !OutOfReach(rs, i) && more == FileOf(rs[i], Extracted(rs[i].data)) ==>
      goal == Behind(files + more, UntarHop(rs, HopFrom(rs, i), left))
  {
    if !OutOfReach(rs, i) {
      var f := FileOf(rs[i], Extracted(rs[i].data));
      var rest := UntarHop(rs, HopFrom(rs, i), left).files;
      assert files + (f + rest) == files + f + rest;
    }
  }

  /** What a search returns. Where it reads headers where there are none, nothing is known. */
  ghost predicate Answers(s: State, rs: seq<Record>, goal: Search, r: Option<Result<Header>>) {
    match goal
    case Found(i) => i < |rs| && r == Some(Ok(rs[i].header)) && AtEntry(s, rs, i)
    case Missed(e) => r == Some(Err(e))
    case Searching => r.None?
    case Strayed => true
  }

  /** And the data of what was found. */
  ghost predicate Delivers(rs: seq<Record>, goal: Search, r: Option<Result<Header>>, data: seq<int>, err: Option<Error>) {
    match goal
    case Found(i) =>
      && i < |rs| && r == Some(Ok(rs[i].header))
      && if |rs[i].data| > 0 && Start(rs, i) + BLOCK > LONG_MAX then data == [] && err == Some(SeekFailed)
         else data == rs[i].data && err.None?
    case Missed(e) => r == Some(Err(e)) && data == []
    case Searching => r.None? && data == []
    case Strayed => true
  }

  class Tar {
    const decode: Decoder
    var stream: seq<int>
    var cursor: nat
    var pos: nat
    var remaining: nat // remaining_data
    var lastHeader: nat // last_header

    constructor (stream: seq<int>, decode: Decoder)
      ensures Now() == State(decode, stream, 0, 0, 0, 0) && this.decode == decode
    {
      this.stream, this.decode := stream, decode;
      cursor, pos, remaining, lastHeader := 0, 0, 0, 0;
    }

    ghost function Now(): State
      reads this
    {
      State(decode, stream, cursor, pos, remaining, lastHeader)
    }

    method Read(n: nat) returns (r: Result<seq<int>>)
      modifies this`cursor, this`pos
      ensures Outcome(Now(), r) == ReadStep(old(Now()), n)
    {
      pos := (pos + n) % UNSIGNED;
      if cursor + n <= |stream| {
        r := Ok(stream[cursor..cursor + n]);
        cursor := cursor + n;
      } else {
        r := Err(ReadFailed);
        if cursor < |stream| { cursor := |stream|; }
      }
    }

    method Seek(p: nat) returns (r: Result<()>)
      modifies this`cursor, this`pos
      ensures Outcome(Now(), r) == SeekStep(old(Now()), p)
    {
      r := Err(SeekFailed);
      if p <= LONG_MAX {
        cursor := p;
        r := Ok(());
      }
      pos := p;
    }

    /** mtar_rewind. */
    method Rewind()
      modifies this
      ensures Now() == State(decode, old(stream), 0, 0, 0, 0)
    {
      remaining, lastHeader := 0, 0;
      var r := Seek(0);
    }

    method ReadHeader() returns (r: Result<Header>)
      modifies this
      ensures Outcome(Now(), r) == HeaderStep(old(Now()))
    {
      lastHeader := pos;
      var raw := Read(BLOCK);
      if raw.Err? { return Err(raw.error); }
      var k := Seek(lastHeader);
      r := if k.Err? then Err(k.error) else decode(raw.value);
    }

    method Next() returns (r: Result<Header>)
      modifies this
      ensures Outcome(Now(), r) == NextStep(old(Now()))
    {
      r := ReadHeader();
      if r.Ok? {
        var n := RoundUp32(r.value.size) + BLOCK;
        var k := Seek((pos + n) % UNSIGNED);
        if k.Err? { return Err(k.error); }
      }
    }

    method ReadData(n: nat) returns (r: Result<seq<int>>)
      modifies this
      ensures Outcome(Now(), r) == DataStep(old(Now()), n)
    {
      if remaining == 0 {
        var h := OpenData();
        if h.Err? { return Err(h.error); }
      }
      r := TakeData(n);
    }

    method OpenData() returns (r: Result<Header>)
      modifies this
      ensures Outcome(Now(), r) == OpenStep(old(Now()))
    {
      r := ReadHeader();
      if r.Ok? {
        var k := Seek((pos + BLOCK) % UNSIGNED);
        if k.Err? { return Err(k.error); }
        remaining := r.value.size;
      }
    }

    method TakeData(n: nat) returns (r: Result<seq<int>>)
      modifies this
      ensures Outcome(Now(), r) == TakeStep(old(Now()), n)
    {
      r := Read(n);
      if r.Ok? {
        remaining := (remaining - n) % UNSIGNED;
        if remaining == 0 {
          var k := Seek(lastHeader);
          if k.Err? { r := Err(k.error); }
        }
      }
    }

    /** mtar_read_data within an entry, if the reader is in one. */
    method ReadPart(n: nat, ghost e: Option<Place>, ghost k: nat) returns (r: Result<seq<int>>)
      requires n > 0 && (e.Some? ==> Inside(Now(), e.value, k) && k + n <= |e.value.data| && (k > 0 ==> e.value.p + BLOCK <= LONG_MAX))
      modifies this
      ensures e.Some? ==> PartRead(Now(), e.value, k, n, r)
    {
      if e.Some? {
        if e.value.p + BLOCK <= LONG_MAX { DataRead(Now(), e.value, k, n); } else { DataUnread(Now(), e.value, n); }
      }
      r := ReadData(n);
    }

    /** The inner loop of untar, with a buffer of any size: the data of one entry, or what could be read
        before an error. */
    method ReadAll(size: nat, buffer: nat, ghost e: Option<Place>) returns (data: seq<int>, err: Option<Error>)
      requires buffer > 0 && (e.Some? ==> Inside(Now(), e.value, 0) && (size == 0 || size == |e.value.data|))
      modifies this
      ensures e.Some? ==> AllRead(Now(), e.value, size, data, err)
    {
      var left: nat := size;
      data, err := [], None;
      while left > 0
        invariant left <= size
        invariant e.Some? ==> data == e.value.data[..size - left] && Inside(Now(), e.value, if left == 0 then 0 else size - left)
        invariant e.Some? && left < size ==> e.value.p + BLOCK <= LONG_MAX
      {
        var n := if left > buffer then buffer else left;
        if e.Some? { JoinSlices(e.value.data, size - left, n); }
        var chunk := ReadPart(n, e, size - left);
        if chunk.Err? { return data, Some(chunk.error); }
        data := data + chunk.value;
        left := left - n;
      }
      assert e.Some? ==> e.value.data[..|e.value.data|] == e.value.data;
    }

    /** The body of the loop of untar: the file that is written, if any, and the error. */
    method ExtractOne(h: Header, buffer: nat, ghost rs: seq<Record>, ghost at: Option<nat>) returns (files: seq<File>, err: Option<Error>)
      requires buffer > 0
      requires at.Some? ==> AllReadable(rs, decode) && at.value < |rs| && AtEntry(Now(), rs, at.value) && h == rs[at.value].header
      modifies this
      ensures at.Some? ==> Extraction(Now(), rs, at.value, files, err)
    {
      ghost var e := if at.Some? then Some(PlaceOf(rs, at.value, decode)) else None;
      if at.Some? { EntryThere(Now(), rs, at.value); }
      var size := if ToInt(h.size) > 0 then ToInt(h.size) else 0;
      var data;
      data, err := ReadAll(size, buffer, e);
      files := if h.kind == REGULAR then [(h.name, data)] else [];
    }

    /** To the next entry, and its header: the end of both loops below. */
    method Advance(ghost rs: seq<Record>, ghost at: Option<nat>) returns (h: Result<Header>)
      requires at.Some? ==> AllReadable(rs, decode) && at.value < |rs| && AtEntry(Now(), rs, at.value)
      modifies this
      ensures at.Some? ==> Landed(Now(), rs, HopFrom(rs, at.value), h)
    {
      if at.Some? { NextRead(Now(), rs, at.value); }
      var skipped := Next();
      if at.Some? && HopFrom(rs, at.value).To? { HeaderRead(Now(), rs, HopFrom(rs, at.value).index); }
      h := ReadHeader();
    }

    /** The first `turns` turns of untar, without the file system: the files in the order in which they
        are written, and the error that ended the loop, if it has ended. */
    method Untar(buffer: nat, turns: nat, ghost rs: seq<Record>) returns (files: seq<File>, end: Option<Error>)
      requires buffer > 0 && AllReadable(rs, decode) && AtEntry(Now(), rs, 0)
      modifies this
      ensures Agrees(UntarFrom(rs, 0, turns), files, end)
    {
      ghost var goal := UntarFrom(rs, 0, turns);
      ghost var at: Option<nat> := Some(0);
      files := [];
      HeaderRead(Now(), rs, 0);
      var h := ReadHeader();
      var left: nat := turns;
      assert goal == Behind([], goal);
      while h.Ok? && left > 0
        invariant at.Some? ==> at.value <= |rs| && OnTheWay(Now(), rs, at.value, left, h, files, goal)
        invariant at.None? ==> Agrees(goal, files, ErrorOf(h)) && (goal.ending == Lost || h.Err?)
        decreases left
      {
        var more, err := ExtractOne(h.value, buffer, rs, at);
        left := left - 1;
        if err.Some? {
          if at.Some? { TurnAgrees(rs, at.value, left, files, more, goal); }
          return files + more, err;
        }
        h := Advance(rs, at);
        if at.Some? {
          ghost var hop := HopFrom(rs, at.value);
          TurnAgrees(rs, at.value, left, files, more, goal);
          at := if hop.To? then Some(hop.index) else None;
        }
        files := files + more;
      }
      end := ErrorOf(h);
    }

    /** The first `turns` turns of mtar_find. */
    method Find(name: seq<int>, turns: nat, ghost rs: seq<Record>) returns (r: Option<Result<Header>>)
      requires AllReadable(rs, decode) && stream == Archive(rs)
      modifies this
      ensures Answers(Now(), rs, FindFrom(rs, name, 0, turns), r)
    {
      Rewind();
      ghost var goal := FindFrom(rs, name, 0, turns);
      ghost var at: Option<nat> := Some(0);
      HeaderRead(Now(), rs, 0);
      var h := ReadHeader();
      var left: nat := turns;
      while h.Ok? && left > 0
        invariant at.Some? ==> at.value <= |rs| && AtEntry(Now(), rs, at.value) && h == HeaderOf(rs, at.value)
        invariant at.Some? ==> goal == FindFrom(rs, name, at.value, left)
        invariant at.None? ==> goal == Strayed || (goal == Missed(SeekFailed) && h == Err(SeekFailed))
        decreases left
      {
        if h.value.name == name { return Some(h); }
        h := Advance(rs, at);
        left := left - 1;
        if at.Some? {
          ghost var hop := HopFrom(rs, at.value);
          at := if hop.To? then Some(hop.index) else None;
        }
      }
      r := if h.Ok? then None else Some(Err(if h.error == NullRecord then NotFound else h.error));
    }

    /** Finding an entry and reading its data, with a buffer of any size. */
    method FindAndRead(name: seq<int>, buffer: nat, turns: nat, ghost rs: seq<Record>)
      returns (r: Option<Result<Header>>, data: seq<int>, err: Option<Error>)
      requires buffer > 0 && AllReadable(rs, decode) && stream == Archive(rs)
      modifies this
      ensures Delivers(rs, FindFrom(rs, name, 0, turns), r, data, err)
    {
      ghost var goal := FindFrom(rs, name, 0, turns);
      r := Find(name, turns, rs);
      data, err := [], None;
      if r.Some? && r.value.Ok? {
        ghost var e := if goal.Found? then Some(PlaceOf(rs, goal.index, decode)) else None;
        if goal.Found? { EntryThere(Now(), rs, goal.index); }
        data, err := ReadAll(r.value.value.size, buffer, e);
      }
    }
  }
}
