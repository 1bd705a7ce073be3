/** The bytes of an archive as applications/microtar/microtar.c lays them out. */
module TarArchive {
  import opened TarFormat

  const UNSIGNED: nat := 0x1_0000_0000 // pos, last_header and remaining_data are unsigned
  const LONG_MAX: nat := 0x7fff_ffff // the largest offset that fseek takes

  type Unsigned = n: nat | n < UNSIGNED

  /** The next multiple of the size of a record. */
  function RoundUp(n: nat): (r: nat)
    ensures r >= n && r % BLOCK == 0 && r - n < BLOCK
  {
    n + (BLOCK - n % BLOCK) % BLOCK
  }

  /** round_up: 0 for the last lengths below 2^32. */
  function RoundUp32(n: nat): (r: nat)
    ensures r % BLOCK == 0 && (n <= UNSIGNED - BLOCK ==> r == RoundUp(n))
    ensures UNSIGNED - BLOCK < n < UNSIGNED ==> r == 0
  {
    RoundUp(n) % UNSIGNED
  }

  // ---- The bytes of an archive ----------------------------------------------------------------------

  /** An entry as it lies in the stream: the bytes of its header, what they say, and its data. */
  datatype Record = Record(head: seq<int>, header: Header, data: seq<int>)

  predicate WellSized(r: Record) {
    |r.head| == BLOCK && r.header.size == |r.data| < 0x1_0000_0000
  }

  predicate AllWellSized(rs: seq<Record>) {
    forall i :: 0 <= i < |rs| ==> WellSized(rs[i])
  }

  function Fill(data: seq<int>): (r: seq<int>)
    ensures |r| == RoundUp(|data|) && r[..|data|] == data
  {
    data + Zeros(RoundUp(|data|) - |data|)
  }

  function Lay(rs: seq<Record>): seq<int> {
    if |rs| == 0 then [] else Lay(rs[..|rs| - 1]) + (rs[|rs| - 1].head + Fill(rs[|rs| - 1].data))
  }

  /** The entries, and two records of zeros. */
  function Archive(rs: seq<Record>): seq<int> {
    Lay(rs) + Zeros(2 * BLOCK)
  }

  /** Where the entry with index `i` begins. */
  function Start(rs: seq<Record>, i: nat): nat
    requires i <= |rs|
  {
    if i == 0 then 0 else Start(rs, i - 1) + BLOCK + RoundUp(|rs[i - 1].data|)
  }

  lemma {:induction false} StartGrows(rs: seq<Record>, i: nat, j: nat)
    requires i <= j <= |rs|
    ensures Start(rs, i) + BLOCK * (j - i) <= Start(rs, j)
    decreases j
  {
    if i < j { StartGrows(rs, i, j - 1); }
  }

  lemma Blocks(a: nat, b: nat)
    requires a % BLOCK == 0 && b % BLOCK == 0
    ensures (a + (BLOCK + b)) % BLOCK == 0
  {
  }

  /** The first entries are the beginning of the stream. */
  lemma {:induction false} Prefix(rs: seq<Record>, i: nat)
    requires AllWellSized(rs) && i <= |rs|
    ensures |Lay(rs[..i])| == Start(rs, i) <= |Lay(rs)| && Lay(rs)[..Start(rs, i)] == Lay(rs[..i])
    decreases |rs| + i
  {
    if i < |rs| {
      var n := |rs| - 1;
      Prefix(rs[..n], i);
      assert rs[..n][..i] == rs[..i];
      SameStart(rs[..n], rs, i);
    } else if i > 0 {
      var n := |rs| - 1;
      assert rs[..i] == rs;
      Prefix(rs[..n], n);
      assert rs[..n][..n] == rs[..n];
      SameStart(rs[..n], rs, n);
    }
  }

  lemma {:induction false} SameStart(a: seq<Record>, b: seq<Record>, i: nat)
    requires i <= |a| <= |b| && a == b[..|a|]
    ensures Start(a, i) == Start(b, i)
  {
    if i > 0 { SameStart(a, b, i - 1); }
  }

  /** Header and data are where the reader looks for them. */
  lemma RecordAt(rs: seq<Record>, i: nat)
    requires AllWellSized(rs) && i < |rs|
    ensures var s, p, r := Archive(rs), Start(rs, i), rs[i];
      && Start(rs, i + 1) == p + BLOCK + RoundUp(|r.data|) <= |s| - 2 * BLOCK
      && s[p..p + BLOCK] == r.head
      && s[p + BLOCK..p + BLOCK + |r.data|] == r.data
  {
    var s, p, r := Archive(rs), Start(rs, i), rs[i];
    var all := Lay(rs[..i + 1]);
    Prefix(rs, i);
    Prefix(rs, i + 1);
    assert rs[..i + 1][..i] == rs[..i];
    assert all == Lay(rs[..i]) + (r.head + Fill(r.data));
    Within(Lay(rs[..i]), r.head, Fill(r.data), s);
    Inner(s, p + BLOCK, |Fill(r.data)|, 0, |r.data|);
    assert Fill(r.data)[0..|r.data|] == r.data;
  }

  lemma Within(a: seq<int>, b: seq<int>, c: seq<int>, s: seq<int>)
    requires |a + (b + c)| <= |s| && s[..|a + (b + c)|] == a + (b + c)
    ensures s[|a|..|a| + |b|] == b && s[|a| + |b|..|a| + |b| + |c|] == c
  {
    var all := a + (b + c);
    assert forall k :: 0 <= k < |all| ==> s[k] == s[..|all|][k];
    assert s[|a|..|a| + |b|] == all[|a|..|a| + |b|];
    assert s[|a| + |b|..|a| + |b| + |c|] == all[|a| + |b|..|a| + |b| + |c|];
  }

  lemma Inner(s: seq<int>, p: nat, len: nat, k: nat, n: nat)
    requires p + len <= |s| && k + n <= len
    ensures s[p + k..p + k + n] == s[p..p + len][k..k + n]
  {
    var a, b := s[p..p + len][k..k + n], s[p + k..p + k + n];
    assert |a| == |b| && forall j :: 0 <= j < n ==> a[j] == s[p..p + len][k + j] == b[j];
  }

  /** Behind the last entry there is a record of zeros. */
  lemma EndAt(rs: seq<Record>)
    requires AllWellSized(rs)
    ensures Start(rs, |rs|) == |Lay(rs)| == |Archive(rs)| - 2 * BLOCK
    ensures Archive(rs)[Start(rs, |rs|)..Start(rs, |rs|) + BLOCK] == Zeros(BLOCK)
  {
    Prefix(rs, |rs|);
    assert rs[..|rs|] == rs;
  }
}
