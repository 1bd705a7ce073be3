/** Going through an archive from entry to entry, as mtar_next of applications/microtar/microtar.c does:
    what the loops of untar in applications/common/common.c and of mtar_find make of it. Positions are
    32-bit numbers and offsets of the file are longs. */
module TarWalk {
  import opened TarFormat
  import opened TarArchive

  lemma ModulusSum(a: nat, b: nat)
    ensures (a + b % UNSIGNED) % UNSIGNED == (a + b) % UNSIGNED
  {
    var q := b / UNSIGNED;
    assert a + b == a + b % UNSIGNED + UNSIGNED * q;
    ModulusAdd(a + b % UNSIGNED, q);
  }

  lemma {:induction false} ModulusAdd(n: nat, k: nat)
    ensures (n + UNSIGNED * k) % UNSIGNED == n % UNSIGNED
  {
    if k > 0 { ModulusAdd(n, k - 1); }
  }

  /** Where mtar_next leads: to an entry or the end, to an offset that cannot be sought, or to a place
      where no entry begins. */
  datatype Hop = To(index: nat) | Stuck | Astray

  /** The entry that begins at `p`, among the first `n` or behind them. */
  function Landing(rs: seq<Record>, p: nat, n: nat): (h: Hop)
    requires n <= |rs|
    ensures h.To? ==> h.index <= n && Start(rs, h.index) == p
    ensures h == Astray ==> forall j :: 0 <= j <= n ==> Start(rs, j) != p
    ensures h != Stuck
  {
    if Start(rs, n) == p then To(n) else if n == 0 then Astray else Landing(rs, p, n - 1)
  }

  /** The beginning of the next entry, as an unsigned number. */
  function HopFrom(rs: seq<Record>, i: nat): (h: Hop)
    requires i < |rs|
    ensures h.To? ==> h.index <= |rs| && Start(rs, h.index) <= LONG_MAX
  {
    var p := Start(rs, i + 1);
    if p <= LONG_MAX then To(i + 1)
    else if p % UNSIGNED > LONG_MAX then Stuck
    else Landing(rs, p % UNSIGNED, |rs|)
  }

  // ---- What untar does with an archive ---------------------------------------------------------------------------

  // A file: its name and what is written to it.
  type File = (seq<int>, seq<int>)

  /** A size as an int. */
  function ToInt(n: nat): int {
    if n % UNSIGNED <= LONG_MAX then n % UNSIGNED else n % UNSIGNED - UNSIGNED
  }

  /** untar counts down an int, so it reads nothing of an entry of 2 GiB or more. */
  function Extracted(data: seq<int>): seq<int> {
    if |data| <= LONG_MAX then data else []
  }

  /** The data of the entry has to be read, and cannot be. */
  predicate OutOfReach(rs: seq<Record>, i: nat)
    requires i < |rs|
  {
    Start(rs, i) + BLOCK > LONG_MAX && |Extracted(rs[i].data)| > 0
  }

  function FileOf(r: Record, data: seq<int>): seq<File> {
    if r.header.kind == REGULAR then [(r.header.name, data)] else []
  }

  /** How the loop ends, if it does. Lost means that it reads headers where there are none. */
  datatype Ending = Ended(error: Error) | Running | Lost

  datatype Run = Run(files: seq<File>, ending: Ending)

  function Behind(files: seq<File>, r: Run): Run {
    Run(files + r.files, r.ending)
  }

  /** The first `turns` turns of the loop of untar, from the entry `i` on. */
  function UntarFrom(rs: seq<Record>, i: nat, turns: nat): Run
    requires i <= |rs|
    decreases turns, 0
  {
    if i == |rs| then Run([], Ended(NullRecord))
    else if turns == 0 then Run([], Running)
    else if OutOfReach(rs, i) then Run(FileOf(rs[i], []), Ended(SeekFailed))
    else Behind(FileOf(rs[i], Extracted(rs[i].data)), UntarHop(rs, HopFrom(rs, i), turns - 1))
  }

  function UntarHop(rs: seq<Record>, h: Hop, turns: nat): Run
    requires h.To? ==> h.index <= |rs|
    decreases turns, 1
  {
    match h
    case To(j) => UntarFrom(rs, j, turns)
    case Stuck => Run([], Ended(SeekFailed))
    case Astray => Run([], Lost)
  }

  /** The regular files from the entry `i` on, with all their data. */
  function WholeFrom(rs: seq<Record>, i: nat): seq<File>
    requires i <= |rs|
    decreases |rs| - i
  {
    if i == |rs| then [] else FileOf(rs[i], rs[i].data) + WholeFrom(rs, i + 1)
  }

  function WholeFiles(rs: seq<Record>): seq<File> {
    WholeFrom(rs, 0)
  }

  /** What can be reached to the end is unpacked completely. */
  lemma {:induction false} Through(rs: seq<Record>, i: nat, turns: nat)
    requires i <= |rs| && Start(rs, |rs|) <= LONG_MAX && turns >= |rs| - i
    ensures UntarFrom(rs, i, turns) == Run(WholeFrom(rs, i), Ended(NullRecord))
    decreases |rs| - i
  {
    if i < |rs| {
      StartGrows(rs, i + 1, |rs|);
      Through(rs, i + 1, turns - 1);
    }
  }

  lemma {:induction false} NeverThrough(rs: seq<Record>, i: nat, turns: nat)
    requires i <= |rs| && Start(rs, i) <= LONG_MAX < Start(rs, |rs|)
    ensures UntarFrom(rs, i, turns).ending != Ended(NullRecord)
    decreases turns
  {
    if turns > 0 && HopFrom(rs, i).To? { NeverThrough(rs, HopFrom(rs, i).index, turns - 1); }
  }

  /** untar gets to the end of the archive, with all files whole, if and only if the null record begins
      at an offset that can be sought. */
  lemma ThroughExactly(rs: seq<Record>, turns: nat)
    requires turns >= |rs|
    ensures UntarFrom(rs, 0, turns) == Run(WholeFiles(rs), Ended(NullRecord)) <==> Start(rs, |rs|) <= LONG_MAX
    ensures UntarFrom(rs, 0, turns).ending == Ended(NullRecord) <==> Start(rs, |rs|) <= LONG_MAX
  {
    if Start(rs, |rs|) <= LONG_MAX { Through(rs, 0, turns); } else { NeverThrough(rs, 0, turns); }
  }

  /** The data of the entry can be read, and is. */
  predicate Reached(rs: seq<Record>, i: nat)
    requires i < |rs|
  {
    Start(rs, i) <= LONG_MAX && |rs[i].data| <= LONG_MAX && !OutOfReach(rs, i)
  }

  predicate IsRegular(rs: seq<Record>, i: nat)
    requires i < |rs|
  {
    rs[i].header.kind == REGULAR
  }

  /** No entry that can be reached is so large that the position behind it is beyond 2^32. */
  predicate NoWrap(rs: seq<Record>) {
    forall i :: 0 <= i < |rs| && Start(rs, i) <= LONG_MAX ==> Start(rs, i + 1) < UNSIGNED
  }

  /** Every regular entry from `i` on is reached. */
  predicate AllReached(rs: seq<Record>, i: nat) {
    forall k :: i <= k < |rs| && IsRegular(rs, k) ==> Reached(rs, k)
  }

  /** The files of the entries that begin at an offset that can be sought, from the entry `i` on. */
  function ReachedFrom(rs: seq<Record>, i: nat): seq<File>
    requires i <= |rs|
    decreases |rs| - i
  {
    if i == |rs| || Start(rs, i) > LONG_MAX then []
    else FileOf(rs[i], if OutOfReach(rs, i) then [] else Extracted(rs[i].data)) + ReachedFrom(rs, i + 1)
  }

  /** One turn, while no position goes beyond 2^32. */
  lemma OneTurn(rs: seq<Record>, i: nat, turns: nat)
    requires NoWrap(rs) && i < |rs| && Start(rs, i) <= LONG_MAX && turns > 0
    ensures !OutOfReach(rs, i) && Start(rs, i + 1) <= LONG_MAX ==>
      UntarFrom(rs, i, turns) == Behind(FileOf(rs[i], Extracted(rs[i].data)), UntarFrom(rs, i + 1, turns - 1))
    ensures OutOfReach(rs, i) || Start(rs, i + 1) > LONG_MAX ==>
      UntarFrom(rs, i, turns) == Run(FileOf(rs[i], if OutOfReach(rs, i) then [] else Extracted(rs[i].data)), Ended(SeekFailed))
    ensures OutOfReach(rs, i) ==> Start(rs, i + 1) > LONG_MAX
  {
    if Start(rs, i + 1) > LONG_MAX { assert Start(rs, i + 1) % UNSIGNED == Start(rs, i + 1); }
  }

  lemma ReachedStep(rs: seq<Record>, i: nat)
    requires i < |rs| && Start(rs, i) <= LONG_MAX
    ensures Start(rs, i + 1) <= LONG_MAX ==>
      ReachedFrom(rs, i) == FileOf(rs[i], if OutOfReach(rs, i) then [] else Extracted(rs[i].data)) + ReachedFrom(rs, i + 1)
    ensures Start(rs, i + 1) > LONG_MAX ==> ReachedFrom(rs, i) == FileOf(rs[i], if OutOfReach(rs, i) then [] else Extracted(rs[i].data))
  {
    if Start(rs, i + 1) > LONG_MAX { assert ReachedFrom(rs, i + 1) == []; }
  }

  /** The last turn, behind which nothing can be sought. */
  lemma LastTurn(rs: seq<Record>, i: nat, turns: nat)
    requires NoWrap(rs) && i < |rs| && Start(rs, i) <= LONG_MAX < Start(rs, i + 1) && turns > 0
    ensures UntarFrom(rs, i, turns) == Run(ReachedFrom(rs, i), Ended(SeekFailed)) && Start(rs, |rs|) > LONG_MAX
  {
    OneTurn(rs, i, turns);
    ReachedStep(rs, i);
    StartGrows(rs, i + 1, |rs|);
  }

  /** A turn that others follow. */
  lemma NextTurn(rs: seq<Record>, i: nat, turns: nat)
    requires NoWrap(rs) && i < |rs| && Start(rs, i) <= LONG_MAX && Start(rs, i + 1) <= LONG_MAX && turns > 0
    requires UntarFrom(rs, i + 1, turns - 1).files == ReachedFrom(rs, i + 1)
    ensures UntarFrom(rs, i, turns) == Run(ReachedFrom(rs, i), UntarFrom(rs, i + 1, turns - 1).ending)
  {
    OneTurn(rs, i, turns);
    ReachedStep(rs, i);
  }

  /** While no position goes beyond 2^32, untar writes the files of exactly these entries, and fails to
      seek unless the null record can be reached. */
  lemma {:induction false} UntarReaches(rs: seq<Record>, i: nat, turns: nat)
    requires NoWrap(rs) && i <= |rs| && Start(rs, i) <= LONG_MAX && turns >= |rs| - i
    ensures var r := UntarFrom(rs, i, turns);
      r.files == ReachedFrom(rs, i) && r.ending == Ended(if Start(rs, |rs|) <= LONG_MAX then NullRecord else SeekFailed)
    decreases |rs| - i
  {
    if i < |rs| {
      if Start(rs, i + 1) <= LONG_MAX {
        UntarReaches(rs, i + 1, turns - 1);
        NextTurn(rs, i, turns);
      } else {
        LastTurn(rs, i, turns);
      }
    }
  }

  lemma {:induction false} NoFiles(rs: seq<Record>, i: nat)
    requires i <= |rs|
    ensures WholeFrom(rs, i) == [] <==> forall k :: i <= k < |rs| ==> !IsRegular(rs, k)
    decreases |rs| - i
  {
    if i < |rs| {
      NoFiles(rs, i + 1);
      assert |WholeFrom(rs, i)| == (if IsRegular(rs, i) then 1 else 0) + |WholeFrom(rs, i + 1)|;
    }
  }

  /** Beyond an entry behind which nothing can be sought, nothing is reached. */
  lemma NothingBehind(rs: seq<Record>, i: nat)
    requires i < |rs| && Start(rs, i + 1) > LONG_MAX
    ensures AllReached(rs, i + 1) <==> WholeFrom(rs, i + 1) == []
  {
    NoFiles(rs, i + 1);
    forall k | i + 1 <= k < |rs| ensures !Reached(rs, k) { StartGrows(rs, i + 1, k); }
  }

  lemma FirstFile(a: seq<File>, b: seq<File>, r: Record, data: seq<int>)
    ensures FileOf(r, data) + a == FileOf(r, r.data) + b <==> a == b && (r.header.kind == REGULAR ==> data == r.data)
  {
    var x, y := FileOf(r, data) + a, FileOf(r, r.data) + b;
    assert x[|FileOf(r, data)|..] == a && y[|FileOf(r, r.data)|..] == b;
    if r.header.kind == REGULAR { assert x[0].1 == data && y[0].1 == r.data; }
  }

  lemma {:induction false} FilesFrom(rs: seq<Record>, i: nat)
    requires i <= |rs| && Start(rs, i) <= LONG_MAX
    ensures ReachedFrom(rs, i) == WholeFrom(rs, i) <==> AllReached(rs, i)
    decreases |rs| - i
  {
    if i < |rs| {
      assert AllReached(rs, i) <==> (IsRegular(rs, i) ==> Reached(rs, i)) && AllReached(rs, i + 1);
      if Start(rs, i + 1) <= LONG_MAX { FilesFrom(rs, i + 1); } else { NothingBehind(rs, i); }
      FirstFile(ReachedFrom(rs, i + 1), WholeFrom(rs, i + 1), rs[i], if OutOfReach(rs, i) then [] else Extracted(rs[i].data));
    }
  }

  /** While no position goes beyond 2^32, untar writes all files whole if and only if every regular
      entry is smaller than 2 GiB and begins, like its data, at an offset that can be sought. */
  lemma FilesExactly(rs: seq<Record>, turns: nat)
    requires NoWrap(rs) && turns >= |rs|
    ensures UntarFrom(rs, 0, turns).files == WholeFiles(rs) <==> AllReached(rs, 0)
  {
    UntarReaches(rs, 0, turns);
    FilesFrom(rs, 0);
  }

  /** Behind a first entry that is too long nothing is found. */
  lemma FirstTooLong(rs: seq<Record>, turns: nat)
    requires |rs| > 0 && turns > 0 && LONG_MAX < BLOCK + RoundUp(|rs[0].data|) < UNSIGNED
    ensures UntarFrom(rs, 0, turns) == Run(FileOf(rs[0], Extracted(rs[0].data)), Ended(SeekFailed))
  {
    assert Start(rs, 1) == Start(rs, 0) + BLOCK + RoundUp(|rs[0].data|);
  }

  /** Where mtar_next leads back to the same entry, untar never ends and writes the file again and again. */
  lemma {:induction false} NeverEnds(rs: seq<Record>, i: nat, turns: nat)
    requires i < |rs| && HopFrom(rs, i) == To(i) && !OutOfReach(rs, i)
    ensures var r := UntarFrom(rs, i, turns); r.ending == Running && (IsRegular(rs, i) ==> |r.files| == turns)
    decreases turns
  {
    if turns > 0 { NeverEnds(rs, i, turns - 1); }
  }

  /** That is so for an entry of 4 GiB less 512 bytes, wherever it is. */
  lemma LargestEntry(rs: seq<Record>, i: nat)
    requires i < |rs| && Start(rs, i) <= LONG_MAX && RoundUp(|rs[i].data|) == UNSIGNED - BLOCK
    ensures HopFrom(rs, i) == To(i) && !OutOfReach(rs, i)
  {
    HopsTo(rs, i, Start(rs, i + 1), i);
    LandsThere(rs, i, |rs|);
  }

  lemma HopsTo(rs: seq<Record>, i: nat, p: nat, j: nat)
    requires i < |rs| && j <= |rs| && p == Start(rs, i + 1) == Start(rs, j) + UNSIGNED && Start(rs, j) <= LONG_MAX
    ensures HopFrom(rs, i) == Landing(rs, Start(rs, j), |rs|)
  {
    assert p % UNSIGNED == Start(rs, j);
  }

  /** Only one entry begins at a place. */
  lemma {:induction false} LandsThere(rs: seq<Record>, i: nat, n: nat)
    requires i <= n <= |rs|
    ensures Landing(rs, Start(rs, i), n) == To(i)
    decreases n
  {
    if i < n {
      StartGrows(rs, i, n);
      LandsThere(rs, i, n - 1);
    }
  }

  // ---- What mtar_find does with an archive -------------------------------------------------------------------------

  datatype Search = Found(index: nat) | Missed(error: Error) | Searching | Strayed

  /** The first `turns` turns of the loop of mtar_find, from the entry `i` on. */
  function FindFrom(rs: seq<Record>, name: seq<int>, i: nat, turns: nat): Search
    requires i <= |rs|
    decreases turns
  {
    if i == |rs| then Missed(NotFound)
    else if turns == 0 then Searching
    else if rs[i].header.name == name then Found(i)
    else
      match HopFrom(rs, i)
      case To(j) => FindFrom(rs, name, j, turns - 1)
      case Stuck => Missed(SeekFailed)
      case Astray => Strayed
  }

  /** None of the first `n` entries has that name. */
  predicate Absent(name: seq<int>, rs: seq<Record>, n: nat)
    requires n <= |rs|
  {
    forall i :: 0 <= i < n ==> rs[i].header.name != name
  }

  /** The entry is the first of that name. */
  predicate IsFirst(name: seq<int>, rs: seq<Record>, i: nat) {
    i < |rs| && rs[i].header.name == name && Absent(name, rs, i)
  }

  lemma {:induction false} FindReached(rs: seq<Record>, name: seq<int>, i: nat, n: nat, turns: nat)
    requires i <= n <= |rs| && Start(rs, n) <= LONG_MAX && Absent(name, rs, n) && turns >= |rs| - i
    ensures FindFrom(rs, name, i, turns) == FindFrom(rs, name, n, turns - (n - i))
    decreases n - i
  {
    if i < n {
      StartGrows(rs, i + 1, n);
      FindReached(rs, name, i + 1, n, turns - 1);
    }
  }

  lemma {:induction false} FindOnly(rs: seq<Record>, name: seq<int>, i: nat, turns: nat)
    requires i <= |rs| && Start(rs, i) <= LONG_MAX
    ensures var r := FindFrom(rs, name, i, turns);
      && (r.Found? ==> r.index < |rs| && rs[r.index].header.name == name && Start(rs, r.index) <= LONG_MAX)
      && (r == Missed(NotFound) ==> Start(rs, |rs|) <= LONG_MAX)
    decreases turns
  {
    if i < |rs| && turns > 0 && HopFrom(rs, i).To? { FindOnly(rs, name, HopFrom(rs, i).index, turns - 1); }
  }

  /** Some entry is the first of that name, or none has it. */
  lemma {:induction false} FirstOrNone(name: seq<int>, rs: seq<Record>, n: nat) returns (i: nat)
    requires n <= |rs|
    ensures i <= n && Absent(name, rs, i) && (i < n ==> IsFirst(name, rs, i))
  {
    if n == 0 { return 0; }
    i := FirstOrNone(name, rs, n - 1);
    if i == n - 1 && rs[i].header.name != name { i := n; }
  }

  lemma OneFirst(name: seq<int>, rs: seq<Record>, i: nat, j: nat)
    requires IsFirst(name, rs, i) && j <= |rs| && Absent(name, rs, j) && (j < |rs| ==> IsFirst(name, rs, j))
    ensures i == j
  {
  }

  /** mtar_find finds an entry if and only if it is the first of that name and begins at an offset that
      can be sought; it says MTAR_ENOTFOUND if and only if there is none and the end can be sought. */
  lemma FindExactly(rs: seq<Record>, name: seq<int>, i: nat, turns: nat)
    requires turns > |rs|
    ensures FindFrom(rs, name, 0, turns) == Found(i) <==> IsFirst(name, rs, i) && Start(rs, i) <= LONG_MAX
    ensures FindFrom(rs, name, 0, turns) == Missed(NotFound) <==> Absent(name, rs, |rs|) && Start(rs, |rs|) <= LONG_MAX
  {
    var first := FirstOrNone(name, rs, |rs|);
    FindOnly(rs, name, 0, turns);
    if Start(rs, first) <= LONG_MAX {
      FindReached(rs, name, 0, first, turns);
    } else {
      FindBefore(rs, name, 0, first, turns);
    }
    if IsFirst(name, rs, i) { OneFirst(name, rs, i, first); }
    if first < |rs| && Start(rs, |rs|) <= LONG_MAX { StartGrows(rs, first, |rs|); }
  }

  /** While no position goes beyond 2^32, a search for what cannot be reached ends with MTAR_ESEEKFAIL. */
  lemma {:induction false} FindStuck(rs: seq<Record>, name: seq<int>, i: nat, n: nat, turns: nat)
    requires NoWrap(rs) && i <= n <= |rs| && Start(rs, i) <= LONG_MAX < Start(rs, n) && Absent(name, rs, n) && turns >= |rs| - i
    ensures FindFrom(rs, name, i, turns) == Missed(SeekFailed)
    decreases n - i
  {
    if Start(rs, i + 1) <= LONG_MAX { FindStuck(rs, name, i + 1, n, turns - 1); }
  }

  /** A name whose first entry cannot be sought is not found. */
  lemma {:induction false} FindBefore(rs: seq<Record>, name: seq<int>, i: nat, n: nat, turns: nat)
    requires i <= n <= |rs| && Start(rs, i) <= LONG_MAX < Start(rs, n) && Absent(name, rs, n)
    ensures var r := FindFrom(rs, name, i, turns); !r.Found? && r != Missed(NotFound)
    decreases turns
  {
    if turns > 0 {
      var h := HopFrom(rs, i);
      if h.To? {
        if n < h.index { StartGrows(rs, n, h.index); }
        FindBefore(rs, name, h.index, n, turns - 1);
      }
    }
  }
}
