/** Mutexes with priority inheritance: rt-thread/src/ipc.c and scheduler_comm.c.

    A smaller number is a more urgent priority. The threads and mutexes of one system are the
    sets `threads` and `mutexes` of a `Kernel`. One method is one lock section, so a run of the
    system is a sequence of calls, in any order, of the methods of `Kernel`. */
module PriorityInheritance {
  import opened Basics

  const PRIORITY_MAX: nat := 32
  const NO_WAITER: nat := 0xff
  const HOLD_MAX: nat := 0xff

  datatype Err = EOK | ERROR | ETIMEOUT | EFULL

  class Thread {
    const initPriority: nat
    var priority: nat
    var suspended: bool
    var closed: bool
    var error: Err
    var pending: Mutex?
    var taken: seq<Mutex>
    // Program counter: the mutex whose take call this thread has not yet returned from.
    var blockedIn: Mutex?

    constructor (initPriority: nat)
      ensures this.initPriority == initPriority == priority
      ensures !suspended && !closed && error == EOK && pending == null && taken == [] && blockedIn == null
    {
      this.initPriority, priority := initPriority, initPriority;
      suspended, closed, error, pending, taken, blockedIn := false, false, EOK, null, [], null;
    }
  }

  class Mutex {
    var owner: Thread?
    var priority: nat
    var hold: nat
    var waiters: seq<Thread>

    constructor ()
      ensures owner == null && priority == NO_WAITER && hold == 0 && waiters == []
    {
      owner, priority, hold, waiters := null, NO_WAITER, 0, [];
    }
  }

  function Without<T(==)>(s: seq<T>, x: T): seq<T> {
    if s == [] then [] else if s[0] == x then s[1..] else [s[0]] + Without(s[1..], x)
  }

  lemma WithoutAt<T>(s: seq<T>, x: T) returns (k: nat)
    requires x in s && Distinct(s)
    ensures k < |s| && s[k] == x && Without(s, x) == s[..k] + s[k + 1..]
    ensures forall i :: 0 <= i < |s| && i != k ==> s[i] != x
  {
    k :| 0 <= k < |s| && s[k] == x;
    WithoutFirst(s, x, k);
  }

  lemma {:induction false} WithoutFirst<T>(s: seq<T>, x: T, k: nat)
    requires k < |s| && s[k] == x && forall i :: 0 <= i < k ==> s[i] != x
    ensures Without(s, x) == s[..k] + s[k + 1..]
  {
    if k > 0 {
      WithoutFirst(s[1..], x, k - 1);
      assert s[..k] + s[k + 1..] == [s[0]] + (s[1..][..k - 1] + s[1..][k..]);
    }
  }

  lemma {:induction false} WithoutAbsent<T>(s: seq<T>, x: T)
    requires x !in s
    ensures Without(s, x) == s
  {
    if s != [] { WithoutAbsent(s[1..], x); }
  }

  lemma LessOne<T>(s: set<T>, x: T)
    ensures s - {x} == s || s - {x} < s
  {
    if x !in s { assert s - {x} == s; }
  }

  // ---- Total of a sequence of priorities, for termination -------------------------------

  ghost function Total(s: seq<nat>): nat {
    if s == [] then 0 else s[0] + Total(s[1..])
  }

  lemma {:induction false} TotalUpdate(s: seq<nat>, i: nat, v: nat)
    requires i < |s|
    ensures Total(s[i := v]) == Total(s) - s[i] + v
  {
    if i == 0 {
      assert s[i := v][1..] == s[1..];
    } else {
      assert s[i := v][1..] == s[1..][i - 1 := v];
      TotalUpdate(s[1..], i - 1, v);
    }
  }

  // ---- Sorted wait lists -----------------------------------------------------------------

  /** The priority of `t`, counting `who` as if it still had priority `was`. */
  ghost function PriorityAs(t: Thread, who: Thread, was: nat): nat
    reads t`priority
  {
    if t == who then was else t.priority
  }

  /** `a` is more urgent than `b`, or as urgent and longer in its place. */
  ghost predicate Before(a: Thread, b: Thread, since: map<Thread, nat>)
    reads a`priority, b`priority
  {
    a.priority < b.priority || (a.priority == b.priority && a in since && b in since && since[a] < since[b])
  }

  /** `w` is the one of `s` that has been longest in its place among the most urgent. */
  ghost predicate Foremost(w: Thread, s: seq<Thread>, since: map<Thread, nat>)
    reads s`priority, w`priority
  {
    w in s && forall y :: y in s && y != w ==> Before(w, y, since)
  }

  ghost predicate SortedAs(s: seq<Thread>, who: Thread, was: nat, since: map<Thread, nat>)
    reads s`priority
  {
    forall i, j :: 0 <= i < j < |s| ==>
      if s[i] == who || s[j] == who then PriorityAs(s[i], who, was) <= PriorityAs(s[j], who, was)
      else Before(s[i], s[j], since)
  }

  /** More urgent threads stand in front; equally urgent ones in the order in which they came to their places. */
  ghost predicate Sorted(s: seq<Thread>, since: map<Thread, nat>)
    reads s`priority
  {
    forall i, j :: 0 <= i < j < |s| ==> Before(s[i], s[j], since)
  }

  /** What `_mutex_update_priority` stores. */
  ghost function FirstPriority(m: Mutex): nat
    reads m`waiters, m.waiters`priority
  {
    if m.waiters == [] then NO_WAITER else m.waiters[0].priority
  }

  /** `s'` is `s` with `t` put behind everybody who is at least as urgent. */
  ghost predicate Placed(s: seq<Thread>, t: Thread, k: nat, s': seq<Thread>)
    reads s`priority, s'`priority, t`priority
  {
    && k <= |s| && s' == s[..k] + [t] + s[k..]
    && (forall i :: 0 <= i < k ==> s[i].priority <= t.priority)
    && (k < |s| ==> t.priority < s[k].priority)
  }

  /** rt_susp_list_enqueue with RT_IPC_FLAG_PRIO. */
  method Enqueue(s: seq<Thread>, t: Thread) returns (s': seq<Thread>, ghost k: nat)
    ensures Placed(s, t, k, s') && |s'| == |s| + 1 && t in s'
    ensures forall x :: x in s' ==> x == t || x in s
  {
    var n := 0;
    while n < |s| && t.priority >= s[n].priority
      invariant 0 <= n <= |s|
      invariant forall i :: 0 <= i < n ==> s[i].priority <= t.priority
    {
      n := n + 1;
    }
    k := n;
    s' := s[..n] + [t] + s[n..];
    assert s'[n] == t;
  }

  /** Everybody else has been longer in its place. */
  ghost predicate Newest(s: seq<Thread>, t: Thread, since: map<Thread, nat>) {
    t in since && forall x :: x in s && x != t ==> x in since && since[x] < since[t]
  }

  lemma PlacedSorted(s: seq<Thread>, t: Thread, k: nat, s': seq<Thread>, since: map<Thread, nat>)
    requires Placed(s, t, k, s') && Sorted(s, since) && t !in s && Newest(s, t, since)
    ensures Sorted(s', since)
  {
    forall i, j | 0 <= i < j < |s'| ensures Before(s'[i], s'[j], since) {
      if i < k && j > k { assert s'[i] == s[i] && s'[j] == s[j - 1]; }
      if i > k { assert s'[i] == s[i - 1] && s'[j] == s[j - 1]; }
      if i == k { assert s'[j] == s[j - 1] && s[k].priority <= s[j - 1].priority; }
    }
  }

  ghost predicate SameMembers<T>(s: seq<T>, s': seq<T>) {
    |s'| == |s| && (forall x :: x in s' ==> x in s) && (forall x :: x in s ==> x in s')
  }

  /** rt_list_remove and rt_susp_list_enqueue of a thread whose priority was `was` when it was
      last put in its place. */
  method Reinsert(s: seq<Thread>, t: Thread, ghost was: nat, ghost since: map<Thread, nat>) returns (s': seq<Thread>, ghost k: nat)
    requires Distinct(s) && t in s && SortedAs(s, t, was, since) && Newest(s, t, since)
    ensures Placed(Without(s, t), t, k, s')
    ensures Distinct(s') && SameMembers(s, s') && Sorted(s', since)
    ensures t.priority <= was ==> s'[0].priority <= PriorityAs(s[0], t, was)
    ensures t.priority >= was ==> s'[0].priority >= PriorityAs(s[0], t, was)
  {
    var rest := Without(s, t);
    s', k := Enqueue(rest, t);
    RestOf(s, t, was, rest, since);
    BackAgain(s, t, rest, k);
    PlacedSorted(rest, t, k, s', since);
    FirstMoves(s, t, was, s', since);
  }

  lemma RestOf(s: seq<Thread>, t: Thread, was: nat, rest: seq<Thread>, since: map<Thread, nat>)
    requires Distinct(s) && t in s && SortedAs(s, t, was, since) && rest == Without(s, t)
    ensures Sorted(rest, since) && t !in rest && forall x :: x in rest ==> x in s
  {
    var k := WithoutAt(s, t);
    SortedRest(s, t, was, k, since);
    RemovedMembers(s, k);
  }

  lemma BackAgain<T>(s: seq<T>, t: T, rest: seq<T>, n: nat)
    requires Distinct(s) && t in s && rest == Without(s, t) && n <= |rest|
    ensures var s' := rest[..n] + [t] + rest[n..];
            Distinct(s') && SameMembers(s, s')
  {
    var k := WithoutAt(s, t);
    RemovedMembers(s, k);
    InsertedMembers(rest, n, t);
  }

  lemma FirstMoves(s: seq<Thread>, t: Thread, was: nat, s': seq<Thread>, since: map<Thread, nat>)
    requires t in s && SortedAs(s, t, was, since) && Sorted(s', since) && SameMembers(s, s')
    ensures t.priority <= was ==> s'[0].priority <= PriorityAs(s[0], t, was)
    ensures t.priority >= was ==> s'[0].priority >= PriorityAs(s[0], t, was)
  {
    assert s[0] in s' && s'[0] in s && t in s';
  }

  lemma SortedRest(s: seq<Thread>, t: Thread, was: nat, k: nat, since: map<Thread, nat>)
    requires k < |s| && s[k] == t && SortedAs(s, t, was, since)
    requires forall i :: 0 <= i < |s| && i != k ==> s[i] != t
    ensures Sorted(s[..k] + s[k + 1..], since)
  {
    var r := s[..k] + s[k + 1..];
    forall i, j | 0 <= i < j < |r| ensures Before(r[i], r[j], since) {
      var i', j' := if i < k then i else i + 1, if j < k then j else j + 1;
      assert r[i] == s[i'] && r[j] == s[j'];
    }
  }

  /** Taking a thread out of a wait list keeps the order and the first priority, unless it was the first. */
  lemma SortedWithout(s: seq<Thread>, k: nat, since: map<Thread, nat>)
    requires Sorted(s, since) && k < |s|
    ensures var r := s[..k] + s[k + 1..];
      Sorted(r, since) && (r != [] ==> s[0].priority <= r[0].priority) && (r != [] && k > 0 ==> r[0] == s[0])
  {
    var r := s[..k] + s[k + 1..];
    forall i, j | 0 <= i < j < |r| ensures Before(r[i], r[j], since) {
      var i', j' := if i < k then i else i + 1, if j < k then j else j + 1;
      assert r[i] == s[i'] && r[j] == s[j'];
    }
  }

  lemma RemovedMembers<T>(s: seq<T>, k: nat)
    requires Distinct(s) && k < |s|
    ensures var r := s[..k] + s[k + 1..];
            Distinct(r) && s[k] !in r && forall x :: x in s <==> x == s[k] || x in r
  {
    var r := s[..k] + s[k + 1..];
    assert forall i :: 0 <= i < |r| ==> r[i] == s[if i < k then i else i + 1];
    forall i | 0 <= i < |s| && i != k ensures s[i] in r {
      assert s[i] == r[if i < k then i else i - 1];
    }
  }

  lemma InsertedMembers<T>(r: seq<T>, n: nat, t: T)
    requires Distinct(r) && n <= |r| && t !in r
    ensures var s := r[..n] + [t] + r[n..];
            Distinct(s) && forall x :: x in s <==> x == t || x in r
  {
    var s := r[..n] + [t] + r[n..];
    assert forall i :: 0 <= i < |s| ==> s[i] == if i < n then r[i] else if i == n then t else r[i - 1];
    forall i | 0 <= i < |r| ensures r[i] in s {
      assert r[i] == s[if i < n then i else i + 1];
    }
    assert s[n] == t;
  }

  // ---- Inherited priority -----------------------------------------------------------------

  /** `p` is the minimum of the initial priority of `t` and the priorities of all mutexes it holds. */
  ghost predicate IsEffective(t: Thread, p: nat)
    reads t`taken, t.taken`priority
  {
    && p <= t.initPriority
    && (forall m :: m in t.taken ==> p <= m.priority)
    && (p == t.initPriority || exists m :: m in t.taken && m.priority == p)
  }

  /** _thread_get_mutex_priority, with every ceiling 0xFF. */
  method GetMutexPriority(t: Thread) returns (p: nat)
    ensures IsEffective(t, p)
  {
    p := t.initPriority;
    for n := 0 to |t.taken|
      invariant p <= t.initPriority
      invariant forall i :: 0 <= i < n ==> p <= t.taken[i].priority
      invariant p == t.initPriority || exists m :: m in t.taken && m.priority == p
    {
      if p > t.taken[n].priority {
        p := t.taken[n].priority;
      }
    }
  }

  lemma OneMoreMember(s: seq<Mutex>, n: nat)
    requires n < |s| && Distinct(s)
    ensures s[..n + 1] == s[..n] + [s[n]] && s[n] !in s[..n]
  {
  }

  datatype Event = Granted(t: Thread, m: Mutex) | Released(t: Thread, m: Mutex)

  ghost function Balance(log: seq<Event>, t: Thread, m: Mutex): int {
    if log == [] then 0
    else Balance(log[..|log| - 1], t, m)
         + (if log[|log| - 1] == Granted(t, m) then 1 else if log[|log| - 1] == Released(t, m) then -1 else 0)
  }

  ghost function Concat(parts: seq<seq<Event>>): seq<Event> {
    if parts == [] then [] else Concat(parts[..|parts| - 1]) + parts[|parts| - 1]
  }

  /** Releases by `caller`, and grants that each follow one of the same mutex. */
  ghost predicate ReleasedBy(es: seq<Event>, caller: Thread) {
    forall i :: 0 <= i < |es| ==> ReleasedAt(es, i, caller)
  }

  ghost predicate ReleasedAt(es: seq<Event>, i: nat, caller: Thread)
    requires i < |es|
  {
    if es[i].Released? then es[i].t == caller else i > 0 && es[i - 1] == Released(caller, es[i].m)
  }

  lemma ReleasedJoin(a: seq<Event>, b: seq<Event>, caller: Thread)
    requires ReleasedBy(a, caller) && ReleasedBy(b, caller)
    ensures ReleasedBy(a + b, caller)
  {
    var es := a + b;
    forall i | 0 <= i < |es| ensures ReleasedAt(es, i, caller) {
      if i < |a| { assert ReleasedAt(a, i, caller); } else { assert ReleasedAt(b, i - |a|, caller); }
    }
  }

  // ---- Releasing one mutex after the other ---------------------------------------------------------------

  /** The owner of a mutex, how often it holds it, and who waits. */
  datatype Entry = Entry(owner: Thread?, hold: nat, waiters: seq<Thread>)

  /** What a release by `caller` causes. */
  ghost function EntryEvents(caller: Thread, m: Mutex, e: Entry): seq<Event> {
    if e.owner != caller then []
    else if e.hold > 1 || e.waiters == [] then [Released(caller, m)]
    else [Released(caller, m), Granted(e.waiters[0], m)]
  }

  /** What one release of each mutex of a list causes. */
  ghost function ListEvents(book: map<Mutex, Entry>, caller: Thread, list: seq<Mutex>): seq<Event> {
    if list == [] then []
    else
      var m := list[|list| - 1];
      ListEvents(book, caller, list[..|list| - 1]) + if m in book then EntryEvents(caller, m, book[m]) else []
  }

  ghost predicate EntryReleased(caller: Thread, e: Entry, e': Entry) {
    if e.owner == caller then e'.owner == caller <==> e.hold > 1 else e'.owner == e.owner
  }

  /** The mutexes of `list` have been released once, and no others. */
  ghost predicate ListReleased(book: map<Mutex, Entry>, book': map<Mutex, Entry>, caller: Thread, list: seq<Mutex>) {
    && book.Keys == book'.Keys
    && forall m :: m in book && m in book' ==> if m in list then EntryReleased(caller, book[m], book'[m]) else book[m] == book'[m]
  }

  lemma OneMoreReleased(book: map<Mutex, Entry>, book': map<Mutex, Entry>, caller: Thread, list: seq<Mutex>, m: Mutex, e: Entry)
    requires ListReleased(book, book', caller, list) && m in book && m !in list && EntryReleased(caller, book[m], e)
    ensures ListReleased(book, book'[m := e], caller, list + [m])
  {
  }

  lemma OneMoreEvent(past: seq<Event>, book: map<Mutex, Entry>, caller: Thread, list: seq<Mutex>, m: Mutex)
    requires m in book
    ensures past + ListEvents(book, caller, list + [m]) == past + ListEvents(book, caller, list) + EntryEvents(caller, m, book[m])
  {
    assert (list + [m])[..|list|] == list;
  }

  lemma {:induction false} NoEvents(book: map<Mutex, Entry>, caller: Thread, list: seq<Mutex>)
    requires forall m :: m in list && m in book ==> book[m].owner != caller
    ensures ListEvents(book, caller, list) == []
  {
    if list != [] { NoEvents(book, caller, list[..|list| - 1]); }
  }

  lemma {:induction false} EventsOfCaller(book: map<Mutex, Entry>, caller: Thread, list: seq<Mutex>)
    ensures ReleasedBy(ListEvents(book, caller, list), caller)
  {
    if list != [] {
      var m := list[|list| - 1];
      var last := if m in book then EntryEvents(caller, m, book[m]) else [];
      EventsOfCaller(book, caller, list[..|list| - 1]);
      forall i | 0 <= i < |last| ensures ReleasedAt(last, i, caller) {
      }
      ReleasedJoin(ListEvents(book, caller, list[..|list| - 1]), last, caller);
    }
  }

  lemma {:induction false} BalanceAppend(a: seq<Event>, b: seq<Event>, t: Thread, m: Mutex)
    ensures Balance(a + b, t, m) == Balance(a, t, m) + Balance(b, t, m)
  {
    if b == [] {
      assert a + b == a;
    } else {
      assert (a + b)[..|a + b| - 1] == a + b[..|b| - 1];
      BalanceAppend(a, b[..|b| - 1], t, m);
    }
  }

  // ---- Who came to its place when ----------------------------------------------------------------------

  /** When each thread came to its place, the moment that comes next, and all priorities. */
  datatype Moment = Moment(since: map<Thread, nat>, now: nat, priority: map<Thread, nat>)

  /** The priority of `t` is changed, and it comes to its place anew. */
  ghost function Moved(a: Moment, t: Thread, p: nat): Moment {
    Moment(a.since[t := a.now], a.now + 1, a.priority[t := p])
  }

  ghost predicate Known(a: Moment, ts: set<Thread>) {
    forall x {:trigger KnownThread(a, x)} :: x in ts ==> KnownThread(a, x)
  }

  ghost predicate KnownThread(a: Moment, x: Thread) {
    x in a.priority && x in a.since && a.since[x] < a.now
  }

  /** Whoever has not come to its place anew between `a` and `b` has its priority still. */
  ghost predicate Steady(a: Moment, b: Moment, ts: set<Thread>) {
    && a.now <= b.now && Known(a, ts) && Known(b, ts)
    && forall x {:trigger SteadyThread(a, b, x)} :: x in ts ==> SteadyThread(a, b, x)
  }

  ghost predicate SteadyThread(a: Moment, b: Moment, x: Thread) {
    && KnownThread(a, x) && KnownThread(b, x)
    && if a.since[x] == b.since[x] then a.priority[x] == b.priority[x] else a.now <= b.since[x]
  }

  /** Whoever has, has another priority now. */
  ghost predicate OnlyMoved(a: Moment, b: Moment, ts: set<Thread>) {
    forall x {:trigger MovedThread(a, b, x)} :: x in ts ==> MovedThread(a, b, x)
  }

  ghost predicate MovedThread(a: Moment, b: Moment, x: Thread) {
    KnownThread(a, x) && KnownThread(b, x) && (a.since[x] == b.since[x] || a.priority[x] != b.priority[x])
  }

  /** And all priorities have moved in one direction. */
  ghost predicate Drifted(a: Moment, b: Moment, ts: set<Thread>, up: bool) {
    forall x {:trigger DriftedThread(a, b, x, up)} :: x in ts ==> DriftedThread(a, b, x, up)
  }

  ghost predicate DriftedThread(a: Moment, b: Moment, x: Thread, up: bool) {
    && KnownThread(a, x) && KnownThread(b, x)
    && (a.since[x] == b.since[x] || if up then b.priority[x] < a.priority[x] else b.priority[x] > a.priority[x])
  }

  lemma SteadyMoved(a: Moment, b: Moment, ts: set<Thread>, t: Thread, p: nat)
    requires Steady(a, b, ts) && t in ts
    ensures Steady(a, Moved(b, t, p), ts)
  {
    forall x | x in ts ensures SteadyThread(a, Moved(b, t, p), x) { assert SteadyThread(a, b, x); }
  }

  lemma DriftedMoved(a: Moment, b: Moment, ts: set<Thread>, up: bool, t: Thread, p: nat)
    requires Steady(a, b, ts) && Drifted(a, b, ts, up) && t in ts
    requires t in b.priority && if up then p < b.priority[t] else p > b.priority[t]
    ensures Drifted(a, Moved(b, t, p), ts, up)
  {
    forall x | x in ts ensures DriftedThread(a, Moved(b, t, p), x, up) {
      assert SteadyThread(a, b, x) && DriftedThread(a, b, x, up);
    }
  }

  lemma DriftedSame(a: Moment, ts: set<Thread>, up: bool)
    requires Known(a, ts)
    ensures Drifted(a, a, ts, up)
  {
    forall x | x in ts ensures DriftedThread(a, a, x, up) { assert KnownThread(a, x); }
  }

  lemma DriftedOnly(a: Moment, b: Moment, ts: set<Thread>, up: bool)
    requires Drifted(a, b, ts, up)
    ensures OnlyMoved(a, b, ts)
  {
    forall x | x in ts ensures MovedThread(a, b, x) { assert DriftedThread(a, b, x, up); }
  }

  /** `t` has begun to wait. */
  ghost function Joined(a: Moment, t: Thread): Moment {
    Moment(a.since[t := a.now], a.now + 1, a.priority)
  }

  lemma JoinedThen(a: Moment, c: Moment, ts: set<Thread>, t: Thread, exact: bool)
    requires Known(a, ts) && t in ts && Steady(Joined(a, t), c, ts) && (exact ==> OnlyMoved(Joined(a, t), c, ts))
    ensures Steady(a, c, ts) && (exact ==> OnlyMoved(a, c, ts - {t})) && t in c.since && a.now <= c.since[t]
  {
    forall x | x in ts ensures SteadyThread(a, c, x) { assert SteadyThread(Joined(a, t), c, x) && KnownThread(a, x); }
    if exact {
      forall x | x in ts - {t} ensures MovedThread(a, c, x) { assert MovedThread(Joined(a, t), c, x) && KnownThread(a, x); }
    }
    assert SteadyThread(Joined(a, t), c, t);
  }

  lemma SteadySame(a: Moment, ts: set<Thread>)
    requires Known(a, ts)
    ensures Steady(a, a, ts) && OnlyMoved(a, a, ts)
  {
    forall x | x in ts ensures SteadyThread(a, a, x) && MovedThread(a, a, x) { assert KnownThread(a, x); }
  }

  lemma SteadyJoin(a: Moment, b: Moment, c: Moment, ts: set<Thread>)
    requires Steady(a, b, ts) && Steady(b, c, ts)
    ensures Steady(a, c, ts)
  {
    forall x | x in ts ensures SteadyThread(a, c, x) { assert SteadyThread(a, b, x) && SteadyThread(b, c, x); }
  }

  /** `x` stands somewhere in front of `y`. */
  ghost predicate Ahead(s: seq<Thread>, x: Thread, y: Thread) {
    exists i, j :: 0 <= i < j < |s| && s[i] == x && s[j] == y
  }

  /** `x` has not come to its place anew; or, if that is only for another priority, has its priority still. */
  ghost predicate Unmoved(a: Moment, b: Moment, x: Thread, exact: bool) {
    && x in a.since && x in b.since && x in a.priority && x in b.priority
    && (a.since[x] == b.since[x] || (exact && a.priority[x] == b.priority[x]))
  }

  /** Those who wait on and have not moved are in the same order. */
  ghost predicate OrderKept(a: Moment, b: Moment, s: seq<Thread>, s': seq<Thread>, exact: bool) {
    forall x, y :: Ahead(s, x, y) && x in s' && y in s' && Unmoved(a, b, x, exact) && Unmoved(a, b, y, exact) ==> Ahead(s', x, y)
  }

  // What an operation is about: a thread, a mutex, what may be stale, a wait list and a position in it.
  datatype Scene = Scene(t: Thread, m: Mutex, sm: set<Mutex>, st: set<Thread>, list: seq<Thread>, k: nat)

  datatype Outcome = Returned(err: Err) | Suspended

  datatype Step =
    | Take(t: Thread, m: Mutex, timeout: int)
    | Release(t: Thread, m: Mutex)
    | Timeout(t: Thread)
    | Resume(t: Thread)
    | Delete(t: Thread, caller: Thread)
    | Exit(t: Thread)
    | Sleep(t: Thread)
    | Wake(t: Thread)

  class Kernel {
    const threads: set<Thread>
    const mutexes: set<Mutex>
    // The threads once each, in some order.
    ghost const roster: seq<Thread>
    // Every take that was granted and every release that was done, in order.
    ghost var log: seq<Event>
    // When each thread came to its place: when it began to wait, or when its priority was last changed.
    ghost var moment: Moment

    ghost predicate Universe() {
      Distinct(roster) && (forall t :: t in threads ==> t in roster) && (forall t :: t in roster ==> t in threads)
    }

    // ---- Who owns, holds and waits for what -------------------------------------------------

    ghost predicate Links()
      reads threads`taken, threads`suspended, threads`closed, threads`error, threads`pending, threads`blockedIn
      reads mutexes`owner, mutexes`hold, mutexes`waiters
    {
      Universe() && Owners() && Calls()
    }

    /** A mutex is in the taken list of its owner, once, and in no other. */
    ghost predicate Owners()
      reads threads`taken, mutexes`owner, mutexes`hold
    {
      && (forall t :: t in threads ==> TakenLinks(t))
      && (forall m :: m in mutexes ==> OwnerLinks(m))
    }

    ghost predicate TakenLinks(t: Thread)
      reads t`taken, mutexes`owner
    {
      && Distinct(t.taken)
      && forall m :: m in t.taken ==> m in mutexes && m.owner == t
    }

    ghost predicate OwnerLinks(m: Mutex)
      reads m`owner, m`hold, threads`taken
    {
      && (m.owner != null ==> m.owner in threads && m in m.owner.taken && 1 <= m.hold <= HOLD_MAX)
      && (m.owner == null ==> m.hold == 0)
    }

    ghost predicate Calls()
      reads threads`suspended, threads`closed, threads`error, threads`pending, threads`blockedIn
      reads mutexes`owner, mutexes`waiters
    {
      && (forall t :: t in threads ==> CallLinks(t))
      && (forall m :: m in mutexes ==> WaitLinks(m))
    }

    /** The four places a thread can be in: outside a take, waiting, granted, timed out. */
    ghost predicate CallLinks(t: Thread)
      reads t`suspended, t`closed, t`error, t`pending, t`blockedIn, mutexes`owner, mutexes`waiters
    {
      if t.blockedIn == null then
        t.pending == null
      else
        && t.blockedIn in mutexes && !t.closed
        && if t.suspended then
             t.pending == t.blockedIn && t in t.blockedIn.waiters
           else if t.error == EOK then
             t.pending == null && t.blockedIn.owner == t
           else
             t.pending == t.blockedIn && t.blockedIn.owner != t
    }

    ghost predicate WaitLinks(m: Mutex)
      reads m`owner, m`waiters, threads`suspended, threads`error, threads`blockedIn
    {
      && Distinct(m.waiters)
      && (m.waiters != [] ==> m.owner != null)
      && forall t :: t in m.waiters ==>
           t in threads && t.suspended && t.blockedIn == m && m.owner != t && t.error == EOK
    }

    // ---- Priorities ----------------------------------------------------------------------------

    ghost predicate Bounded()
      reads threads`priority, this`moment
    {
      InRange() && Dated()
    }

    ghost predicate InRange()
      reads threads`priority
    {
      forall t :: t in threads ==> t.priority < PRIORITY_MAX && t.initPriority < PRIORITY_MAX
    }

    ghost predicate Dated()
      reads threads`priority, this`moment
    {
      Known(moment, threads) && forall t {:trigger DatedThread(t)} :: t in threads ==> DatedThread(t)
    }

    ghost predicate DatedThread(t: Thread)
      reads t`priority, this`moment
    {
      KnownThread(moment, t) && moment.priority[t] == t.priority
    }

    /** Every thread is at least as urgent as every mutex it holds; outside `st` its priority is
        exactly the minimum. */
    ghost predicate ThreadsSettled(st: set<Thread>)
      reads threads`taken, threads`priority, mutexes`priority
    {
      forall t :: t in threads ==> (forall m :: m in t.taken ==> m in mutexes) && SettledThread(t, t in st)
    }

    ghost predicate SettledThread(t: Thread, stale: bool)
      reads t`taken, t`priority, t.taken`priority
    {
      && t.priority <= t.initPriority
      && (forall m :: m in t.taken ==> t.priority <= m.priority)
      && (!stale ==> IsEffective(t, t.priority))
    }

    /** Every mutex is at least as urgent as everybody who waits for it, and the wait list is
        sorted; outside `sm` its priority is exactly that of the first waiter. */
    ghost predicate MutexesSettled(sm: set<Mutex>)
      reads mutexes`waiters, mutexes`priority, threads`priority, this`moment
    {
      forall m :: m in mutexes ==> (forall t :: t in m.waiters ==> t in threads) && SettledMutex(m, m in sm)
    }

    ghost predicate SettledMutex(m: Mutex, stale: bool)
      reads m`waiters, m`priority, m.waiters`priority, this`moment
    {
      && Sorted(m.waiters, moment.since)
      && m.priority <= FirstPriority(m)
      && (!stale ==> m.priority == FirstPriority(m))
    }

    /** `hold` is what the owner took minus what it released, and nobody else has anything. */
    ghost predicate Accounted()
      reads this`log, mutexes`owner, mutexes`hold
    {
      forall t, m :: t in threads && m in mutexes ==> Balance(log, t, m) == Share(t, m)
    }

    /** The invariant of all runs. All priority facts hold outside `sm` and `st`, and the
        inequalities hold everywhere. */
    ghost predicate Valid(sm: set<Mutex>, st: set<Thread>)
      reads this, threads, mutexes
    {
      Links() && Bounded() && ThreadsSettled(st) && MutexesSettled(sm) && Accounted()
    }

    /** Every mutex has the priority of its first waiter and every thread the minimum of its
        initial priority and the priorities of the mutexes it holds. */
    ghost predicate Exact()
      reads this, threads, mutexes
    {
      Valid({}, {})
    }

    // ---- The inheritance loop ---------------------------------------------------------

    ghost function Priorities(): seq<nat>
      requires Universe()
      reads threads
    {
      seq(|roster|, i requires 0 <= i < |roster| reads threads => roster[i].priority)
    }

    ghost function Headroom(): seq<nat>
      requires Universe()
      reads threads
    {
      seq(|roster|, i requires 0 <= i < |roster| reads threads => Room(roster[i].priority))
    }

    ghost function Room(p: nat): nat {
      if p < PRIORITY_MAX then PRIORITY_MAX - p else 0
    }

    /** How far the priorities can still move in one direction. */
    ghost function Slack(up: bool): nat
      requires Universe()
      reads threads
    {
      Total(if up then Priorities() else Headroom())
    }

    /** Nobody but `t` has come to its place anew, and if it has not, it has its priority still. */
    twostate predicate Retimed(t: Thread)
      reads this, t
    {
      (SameTimes() && t.priority == old(t.priority)) || moment == Moved(old(moment), t, t.priority)
    }

    twostate lemma RetimedSteady(t: Thread)
      requires old(Dated()) && Retimed(t) && t in threads
      ensures Steady(old(moment), moment, threads)
    {
      forall x | x in threads ensures SteadyThread(old(moment), moment, x) { assert old(DatedThread(x)); }
      forall x | x in threads ensures KnownThread(moment, x) { assert old(DatedThread(x)); }
    }

    /** Everybody is known again after a change. */
    twostate lemma PlaceMoved(t: Thread)
      requires old(Dated()) && t in threads && moment == Moved(old(moment), t, t.priority)
      requires forall x :: x in threads && x != t ==> x.priority == old(x.priority)
      ensures Dated() && Latest(t)
    {
      forall x | x in threads ensures DatedThread(x) && (x != t ==> moment.since[x] < moment.since[t]) { assert old(DatedThread(x)); }
      forall x | x in threads ensures KnownThread(moment, x) { assert DatedThread(x); }
    }

    /** And after one thread has begun to wait. */
    twostate lemma PlaceTaken(t: Thread)
      requires old(Dated()) && t in threads && moment == Joined(old(moment), t)
      requires forall x :: x in threads ==> x.priority == old(x.priority)
      ensures Dated() && Latest(t)
    {
      forall x | x in threads ensures DatedThread(x) && (x != t ==> moment.since[x] < moment.since[t]) { assert old(DatedThread(x)); }
      forall x | x in threads ensures KnownThread(moment, x) { assert DatedThread(x); }
    }

    twostate lemma SlackMoved(t: Thread)
      requires Universe() && t in threads && forall x :: x in threads && x != t ==> x.priority == old(x.priority)
      ensures t.priority < old(t.priority) < PRIORITY_MAX ==> Slack(true) < old(Slack(true))
      ensures old(t.priority) < t.priority < PRIORITY_MAX ==> Slack(false) < old(Slack(false))
    {
      var was, room := old(Priorities()), old(Headroom());
      var k :| 0 <= k < |roster| && roster[k] == t;
      assert Priorities() == was[k := t.priority];
      TotalUpdate(was, k, t.priority);
      assert Headroom() == room[k := Room(t.priority)];
      TotalUpdate(room, k, Room(t.priority));
    }

    /** rt_sched_thread_change_priority. */
    method ChangePriority(t: Thread, p: nat)
      requires Universe() && Bounded() && t in threads
      requires p < PRIORITY_MAX
      modifies t`priority, this`moment
      ensures t.priority == p && Bounded()
      ensures Retimed(t) && moment == Moved(old(moment), t, p) && Latest(t)
      ensures p < old(t.priority) ==> Slack(true) < old(Slack(true))
      ensures p > old(t.priority) ==> Slack(false) < old(Slack(false))
    {
      t.priority, moment := p, Moved(moment, t, p);
      SlackMoved(t);
      PlaceMoved(t);
    }

    /** Like MutexesSettled, except that the wait lists do not know yet that the priority of
        `t` is no longer `was`. */
    ghost predicate MutexesUnsettled(t: Thread, was: nat, sm: set<Mutex>)
      reads mutexes`waiters, mutexes`priority, threads`priority, t`priority, this`moment
    {
      forall m :: m in mutexes ==> (forall x :: x in m.waiters ==> x in threads) && UnsettledMutex(m, t, was, m in sm)
    }

    ghost predicate UnsettledMutex(m: Mutex, t: Thread, was: nat, stale: bool)
      reads m`waiters, m`priority, m.waiters`priority, t`priority, this`moment
    {
      var first := if m.waiters == [] then NO_WAITER else PriorityAs(m.waiters[0], t, was);
      SortedAs(m.waiters, t, was, moment.since) && m.priority <= first && (!stale ==> m.priority == first)
    }

    lemma NobodyWaits(t: Thread, was: nat, sm: set<Mutex>)
      requires Calls() && MutexesUnsettled(t, was, sm)
      requires !t.suspended || t.blockedIn == null
      ensures MutexesSettled(sm)
    {
      forall m | m in mutexes ensures SettledMutex(m, m in sm) {
        assert UnsettledMutex(m, t, was, m in sm);
        assert WaitLinks(m) && t !in m.waiters;
      }
    }

    twostate predicate SameTimes()
      reads this
    {
      moment == old(moment)
    }

    /** Nobody came to its place after `t`. */
    ghost predicate Latest(t: Thread)
      reads this`moment
    {
      t in moment.since && forall x :: x in threads && x != t ==> x in moment.since && moment.since[x] < moment.since[t]
    }

    /** Only the order in which threads wait for `m`, and its priority, have changed. */
    twostate predicate Reordered(m: Mutex)
      reads m, threads, mutexes, this
    {
      && SameTimes()
      && m in mutexes && Distinct(m.waiters) && SameMembers(old(m.waiters), m.waiters)
      && m.owner == old(m.owner) && m.hold == old(m.hold)
      && SameCalls(threads) && SameHoldings(threads) && SameMutexes(mutexes - {m})
    }

    twostate lemma ReorderedLinks(m: Mutex)
      requires old(Links()) && Reordered(m)
      ensures Links()
    {
      assert old(WaitLinks(m));
      forall x | x in threads ensures CallLinks(x) && TakenLinks(x) { assert old(CallLinks(x)) && old(TakenLinks(x)); }
      forall x | x in mutexes ensures WaitLinks(x) && OwnerLinks(x) { assert old(WaitLinks(x)) && old(OwnerLinks(x)); }
    }

    /** When `c.t`, whose priority was `c.k`, is back in order, its mutex is settled. */
    twostate lemma ReorderedMutexes(c: Scene)
      requires old(MutexesUnsettled(c.t, c.k, c.sm)) && Reordered(c.m) && Calls()
      requires c.t.suspended && c.t.blockedIn == c.m
      requires Sorted(c.m.waiters, moment.since) && c.m.priority == FirstPriority(c.m)
      ensures MutexesSettled(c.sm - {c.m})
    {
      forall x | x in mutexes && x != c.m ensures c.t !in x.waiters && x.waiters == old(x.waiters) && x.priority == old(x.priority) {
        assert WaitLinks(x);
      }
      assert forall t :: t in c.m.waiters ==> t in old(c.m.waiters);
      OthersSettled(c);
    }

    /** The lists in which `c.t` is not have not noticed. */
    twostate lemma OthersSettled(c: Scene)
      requires old(MutexesUnsettled(c.t, c.k, c.sm)) && c.m in mutexes
      requires forall x :: x in mutexes && x != c.m ==> c.t !in x.waiters && x.waiters == old(x.waiters) && x.priority == old(x.priority)
      requires (forall t :: t in threads ==> t.priority == old(t.priority)) && SameTimes()
      requires Sorted(c.m.waiters, moment.since) && c.m.priority == FirstPriority(c.m) && forall t :: t in c.m.waiters ==> t in old(c.m.waiters)
      ensures MutexesSettled(c.sm - {c.m})
    {
      forall x | x in mutexes ensures (forall t :: t in x.waiters ==> t in threads) && SettledMutex(x, x in c.sm - {c.m}) {
        if x != c.m { assert old(UnsettledMutex(x, c.t, c.k, x in c.sm)); }
      }
    }

    /** And only the owner of that mutex may be out of date. */
    twostate lemma ReorderedThreads(c: Scene)
      requires old(ThreadsSettled(c.st)) && Reordered(c.m) && Owners()
      ensures forall x :: x in threads && x != c.m.owner ==> SettledThread(x, x in c.st)
    {
      forall x | x in threads && x != c.m.owner ensures SettledThread(x, x in c.st) {
        assert old(SettledThread(x, x in c.st)) && TakenLinks(x);
        assert c.m !in x.taken;
      }
    }

    /** No priority of a thread has changed. */
    twostate lemma ReorderedSlack(m: Mutex)
      requires Universe() && old(Bounded()) && Reordered(m)
      ensures Bounded() && Slack(true) == old(Slack(true)) && Slack(false) == old(Slack(false))
    {
      assert Priorities() == old(Priorities()) && Headroom() == old(Headroom());
    }

    /** The new priority `c.k` of the owner `c.t` moves in the direction in which that of its mutex moved. */
    twostate lemma OwnerMoves(c: Scene)
      requires old(IsEffective(c.t, c.t.priority)) && IsEffective(c.t, c.k) && c.m in c.t.taken
      requires c.t.taken == old(c.t.taken) && c.t.priority == old(c.t.priority)
      requires forall x :: x in c.t.taken && x != c.m ==> x.priority == old(x.priority)
      ensures c.m.priority <= old(c.m.priority) ==> c.k <= c.t.priority
      ensures c.m.priority >= old(c.m.priority) ==> c.k >= c.t.priority
    {
    }

    /** Moves a suspended thread to its place and refreshes the priority of the mutex it waits
        for: rt_list_remove, rt_susp_list_enqueue, _mutex_update_priority. */
    method Requeue(t: Thread, ghost was: nat) returns (ghost k: nat)
      requires Links() && t in threads && t.suspended && t.pending != null
      requires SortedAs(t.pending.waiters, t, was, moment.since) && Latest(t)
      modifies t.pending`waiters, t.pending`priority
      ensures Links() && Reordered(t.pending)
      ensures Placed(Without(old(t.pending.waiters), t), t, k, t.pending.waiters)
      ensures Sorted(t.pending.waiters, moment.since) && t.pending.priority == FirstPriority(t.pending)
      ensures old(t.pending.waiters) != [] && t.pending.owner != null
      ensures t.priority <= was ==> t.pending.priority <= old(PriorityAs(t.pending.waiters[0], t, was))
      ensures t.priority >= was ==> t.pending.priority >= old(PriorityAs(t.pending.waiters[0], t, was))
    {
      assert CallLinks(t) && WaitLinks(t.pending);
      k := Rearrange(t, t.pending, was);
      ReorderedLinks(t.pending);
    }

    method Rearrange(t: Thread, m: Mutex, ghost was: nat) returns (ghost k: nat)
      requires m in mutexes && Distinct(m.waiters) && t in m.waiters && forall x :: x in m.waiters ==> x in threads
      requires SortedAs(m.waiters, t, was, moment.since) && Latest(t)
      modifies m`waiters, m`priority
      ensures Distinct(m.waiters) && SameMembers(old(m.waiters), m.waiters) && Placed(Without(old(m.waiters), t), t, k, m.waiters)
      ensures Sorted(m.waiters, moment.since) && m.priority == FirstPriority(m)
      ensures t.priority <= was ==> m.priority <= old(PriorityAs(m.waiters[0], t, was))
      ensures t.priority >= was ==> m.priority >= old(PriorityAs(m.waiters[0], t, was))
    {
      var list;
      list, k := Reinsert(m.waiters, t, was, moment.since);
      m.waiters := list;
      m.priority := m.waiters[0].priority;
    }

    /** One turn of the inheritance loop: the priority of `t` has just changed from `was`. The
        wait list of `t` is put in order and the owner of its mutex is recomputed. */
    method Propagate(t: Thread, ghost was: nat, ghost sm: set<Mutex>, ghost st: set<Thread>)
      returns (owner: Thread, p: nat)
      requires Links() && Bounded() && t in threads && t.suspended && t.pending != null
      requires MutexesUnsettled(t, was, sm) && ThreadsSettled(st) && Latest(t)
      modifies t.pending`waiters, t.pending`priority
      ensures Links() && Bounded() && Slack(true) == old(Slack(true)) && Slack(false) == old(Slack(false))
      ensures p < PRIORITY_MAX
      ensures t.pending.owner == owner && owner in threads && IsEffective(owner, p)
      ensures MutexesSettled(sm - {t.pending})
      ensures forall x :: x in threads && x != owner ==> SettledThread(x, x in st)
      ensures t.pending !in sm && owner !in st ==>
                (t.priority <= was ==> p <= owner.priority) && (t.priority >= was ==> p >= owner.priority)
    {
      var m := t.pending;
      assert CallLinks(t) && UnsettledMutex(m, t, was, m in sm);
      ghost var k := Requeue(t, was);
      owner := m.owner;
      p := GetMutexPriority(owner);
      ghost var c := Scene(t, m, sm, st, [], was);
      assert WaitLinks(m) && OwnerLinks(m);
      ReorderedMutexes(c);
      ReorderedThreads(c);
      ReorderedSlack(m);
      assert old(SettledThread(owner, owner in st));
      if owner !in st { OwnerMoves(Scene(owner, m, sm, st, [], p)); }
    }

    /** Sets the priority of one thread when everything else is settled. */
    method Disturb(t: Thread, p: nat, ghost sm: set<Mutex>, ghost st: set<Thread>)
      requires Links() && Bounded() && t in threads && p < PRIORITY_MAX && IsEffective(t, p)
      requires MutexesSettled(sm)
      requires forall x :: x in threads && x != t ==> SettledThread(x, x in st)
      modifies t`priority, this`moment
      ensures Links() && Bounded() && t.priority == p
      ensures moment == Moved(old(moment), t, p) && Latest(t)
      ensures MutexesUnsettled(t, old(t.priority), sm) && ThreadsSettled(st - {t})
      ensures p < old(t.priority) ==> Slack(true) < old(Slack(true))
      ensures p > old(t.priority) ==> Slack(false) < old(Slack(false))
    {
      ghost var was := t.priority;
      ChangePriority(t, p);
      DisturbedMutexes((t, was, sm));
      DisturbedThreads((t, st));
    }

    /** Only the priority of one thread has changed. */
    twostate lemma DisturbedMutexes(c: (Thread, nat, set<Mutex>))
      requires old(MutexesSettled(c.2)) && c.1 == old(c.0.priority) && c.0 in threads && moment == Moved(old(moment), c.0, c.0.priority)
      requires forall x :: x in threads && x != c.0 ==> x.priority == old(x.priority)
      requires forall m :: m in mutexes ==> m.waiters == old(m.waiters) && m.priority == old(m.priority)
      ensures MutexesUnsettled(c.0, c.1, c.2)
    {
      forall m | m in mutexes ensures UnsettledMutex(m, c.0, c.1, m in c.2) {
        assert old(SettledMutex(m, m in c.2));
      }
    }

    twostate lemma DisturbedThreads(c: (Thread, set<Thread>))
      requires c.0 in threads && Owners() && IsEffective(c.0, c.0.priority)
      requires forall x :: x in threads && x != c.0 ==> old(SettledThread(x, x in c.1)) && x.priority == old(x.priority)
      requires forall x :: x in threads ==> x.taken == old(x.taken)
      requires forall m :: m in mutexes ==> m.priority == old(m.priority)
      ensures ThreadsSettled(c.1 - {c.0})
    {
      forall x | x in threads ensures (forall m :: m in x.taken ==> m in mutexes) && SettledThread(x, x in c.1 - {c.0}) {
        assert TakenLinks(x) && (x != c.0 ==> old(SettledThread(x, x in c.1)));
      }
    }

    /** One turn of the loop of _thread_update_priority, for a thread that waits for a mutex. */
    method Turn(cur: Thread, ghost was: nat, ghost sm: set<Mutex>, ghost st: set<Thread>)
      returns (next: Thread, more: bool, ghost was': nat, ghost sm': set<Mutex>, ghost st': set<Thread>)
      requires Links() && Bounded() && cur in threads && cur.suspended && cur.pending != null
      requires MutexesUnsettled(cur, was, sm) && ThreadsSettled(st) && Latest(cur)
      modifies threads`priority, mutexes`waiters, mutexes`priority, this`moment
      ensures Links() && Bounded() && next in threads && ThreadsSettled(st')
      ensures (sm' == sm || sm' < sm) && (st' == st || st' < st)
      ensures more ==> MutexesUnsettled(next, was', sm') && next.priority != was' && Latest(next)
      ensures next in old(moment).priority && was' == old(moment).priority[next]
      ensures moment == if more then Moved(old(moment), next, next.priority) else old(moment)
      ensures !more ==> MutexesSettled(sm')
      ensures more && sm' == sm && st' == st ==>
                && (old(cur.priority) <= was ==> next.priority <= was' && Slack(true) < old(Slack(true)))
                && (old(cur.priority) >= was ==> next.priority >= was' && Slack(false) < old(Slack(false)))
    {
      var owner, p := Propagate(cur, was, sm, st);
      ghost var pm: Mutex := cur.pending;
      next, was', sm', st' := owner, owner.priority, sm - {pm}, st - {owner};
      LessOne(sm, pm);
      LessOne(st, owner);
      assert DatedThread(owner);
      more := p != owner.priority;
      if more {
        Disturb(owner, p, sm', st);
      }
    }

    /** In every wait list those who have not moved are in the same order. */
    twostate predicate Queued(exact: bool)
      reads this, mutexes
    {
      forall m :: m in mutexes ==> OrderKept(old(moment), moment, old(m.waiters), m.waiters, exact)
    }

    twostate lemma OrderOfTwo(q: (Mutex, Thread, Thread))
      requires q.0 in mutexes && old(Dated()) && Dated() && q.1 in threads && q.2 in threads
      requires old(Sorted(q.0.waiters, moment.since)) && Sorted(q.0.waiters, moment.since)
      requires Ahead(old(q.0.waiters), q.1, q.2) && q.1 in q.0.waiters && q.2 in q.0.waiters
      requires Steady(old(moment), moment, threads) && Unmoved(old(moment), moment, q.1, false) && Unmoved(old(moment), moment, q.2, false)
      ensures Ahead(q.0.waiters, q.1, q.2)
    {
      var s, x, y := q.0.waiters, q.1, q.2;
      assert old(Before(x, y, moment.since));
      assert old(DatedThread(x)) && old(DatedThread(y)) && DatedThread(x) && DatedThread(y);
      assert SteadyThread(old(moment), moment, x) && SteadyThread(old(moment), moment, y);
      var k, l :| 0 <= k < |s| && 0 <= l < |s| && s[k] == x && s[l] == y;
      assert x != y && !Before(y, x, moment.since);
    }

    ghost predicate AllSorted()
      reads mutexes`waiters, threads`priority, this`moment
    {
      forall m :: m in mutexes ==> (forall x :: x in m.waiters ==> x in threads) && Sorted(m.waiters, moment.since)
    }

    lemma SettledSorted(sm: set<Mutex>)
      requires MutexesSettled(sm)
      ensures AllSorted()
    {
      forall m | m in mutexes ensures (forall x :: x in m.waiters ==> x in threads) && Sorted(m.waiters, moment.since) {
        assert SettledMutex(m, m in sm);
      }
    }

    /** As all lists are sorted by urgency and time, before and after. */
    twostate lemma QueuesKept(e: (bool, Thread?))
      requires old(Dated()) && Dated() && old(AllSorted()) && AllSorted()
      requires Steady(old(moment), moment, threads) && (e.0 ==> OnlyMoved(old(moment), moment, threads - {e.1}))
      requires e.0 ==> forall m :: m in mutexes ==> e.1 !in old(m.waiters)
      ensures Queued(e.0)
    {
      forall m | m in mutexes ensures OrderKept(old(moment), moment, old(m.waiters), m.waiters, e.0) {
        forall x, y | Ahead(old(m.waiters), x, y) && x in m.waiters && y in m.waiters && Unmoved(old(moment), moment, x, e.0) && Unmoved(old(moment), moment, y, e.0)
          ensures Ahead(m.waiters, x, y)
        {
          if e.0 { assert MovedThread(old(moment), moment, x) && MovedThread(old(moment), moment, y); }
          OrderOfTwo((m, x, y));
        }
      }
    }

    /** The new priority of `thread`, and the loop. Whatever the wait graph, with cycles or without, the loop
        ends, because each turn either settles something stale or moves one more priority in the
        direction the last one moved. */
    method Inherit(thread: Thread, p: nat, ghost sm: set<Mutex>, ghost st: set<Thread>)
      requires Links() && Bounded() && thread in threads
      requires p < PRIORITY_MAX && p != thread.priority && IsEffective(thread, p)
      requires MutexesSettled(sm)
      requires forall x :: x in threads && x != thread ==> SettledThread(x, x in st)
      modifies threads`priority, mutexes`waiters, mutexes`priority, this`moment
      ensures Links() && Bounded() && MutexesSettled(sm)
      ensures ThreadsSettled(st - {thread}) && ThreadsSettled(st)
      ensures Steady(old(moment), moment, threads) && (sm == {} && st <= {thread} ==> OnlyMoved(old(moment), moment, threads))
    {
      var cur, more := thread, true;
      ghost var sm', st', was, start := sm, st - {thread}, thread.priority, moment;
      ghost var up := p < was;
      assert DatedThread(thread);
      SteadySame(start, threads);
      DriftedSame(start, threads, up);
      Disturb(cur, p, sm, st);
      ghost var slack := Slack(cur.priority < was);
      SteadyMoved(start, start, threads, thread, p);
      DriftedMoved(start, start, threads, up, thread, p);
      while more && cur.suspended
        invariant Links() && Bounded() && cur in threads
        invariant sm' <= sm && st' <= st - {thread} && ThreadsSettled(st')
        invariant more ==> MutexesUnsettled(cur, was, sm') && Latest(cur)
        invariant more ==> cur.priority != was && slack == Slack(cur.priority < was)
        invariant !more ==> MutexesSettled(sm')
        invariant Steady(start, moment, threads)
        invariant sm == {} && st <= {thread} ==> Drifted(start, moment, threads, up) && (more ==> (cur.priority < was) == up)
        decreases sm', st', slack, more
      {
        if cur.pending != null {
          ghost var sm0, st0, slack0, here := sm', st', slack, moment;
          cur, more, was, sm', st' := Turn(cur, was, sm', st');
          if more {
            slack := Slack(cur.priority < was);
            SteadyMoved(start, here, threads, cur, cur.priority);
            if sm == {} && st <= {thread} { DriftedMoved(start, here, threads, up, cur, cur.priority); }
          }
          assert sm' == sm0 && st' == st0 && more ==> slack < slack0;
        } else {
          assert CallLinks(cur);
          NobodyWaits(cur, was, sm');
          more := false;
        }
      }
      if more {
        NobodyWaits(cur, was, sm');
      }
      if sm == {} && st <= {thread} { DriftedOnly(start, moment, threads, up); }
      SettledWider(sm', st', sm, st - {thread});
      SettledWider(sm', st', sm, st);
    }

    /** _thread_update_priority. Only what was stale before, apart from `thread`, can still be stale after; and
        in every wait list those whose priority has not changed are in the same order. */
    method UpdatePriority(thread: Thread, p: nat, ghost sm: set<Mutex>, ghost st: set<Thread>)
      requires Links() && Bounded() && thread in threads
      requires p < PRIORITY_MAX && p != thread.priority && IsEffective(thread, p)
      requires MutexesSettled(sm)
      requires forall x :: x in threads && x != thread ==> SettledThread(x, x in st)
      modifies threads`priority, mutexes`waiters, mutexes`priority, this`moment
      ensures Links() && Bounded() && MutexesSettled(sm)
      ensures ThreadsSettled(st - {thread}) && ThreadsSettled(st)
      ensures Steady(old(moment), moment, threads) && (sm == {} && st <= {thread} ==> OnlyMoved(old(moment), moment, threads))
      ensures Queued(sm == {} && st <= {thread})
    {
      SettledSorted(sm);
      Inherit(thread, p, sm, st);
      SettledSorted(sm);
      assert threads - {null} == threads;
      QueuesKept((sm == {} && st <= {thread}, null));
    }

    lemma SettledWider(sm: set<Mutex>, st: set<Thread>, sm': set<Mutex>, st': set<Thread>)
      requires Links() && MutexesSettled(sm) && ThreadsSettled(st) && sm <= sm' && st <= st'
      ensures MutexesSettled(sm') && ThreadsSettled(st')
    {
      forall m | m in mutexes ensures SettledMutex(m, m in sm') {
        assert SettledMutex(m, m in sm);
      }
      forall t | t in threads ensures SettledThread(t, t in st') {
        assert SettledThread(t, t in st);
      }
    }

    // ---- The operations, one lock section each ---------------------------------------------

    ghost predicate Running(t: Thread)
      reads t`suspended, t`closed, t`blockedIn
    {
      t in threads && !t.suspended && !t.closed && t.blockedIn == null
    }

    ghost function Share(t: Thread, m: Mutex): nat
      reads m`owner, m`hold
    {
      if m.owner == t then m.hold else 0
    }

    /** The log has grown by `es`, and the holds have moved by as much. */
    twostate lemma Posted(es: seq<Event>)
      requires old(Accounted()) && log == old(log) + es
      requires forall t, m :: t in threads && m in mutexes ==> Share(t, m) == old(Share(t, m)) + Balance(es, t, m)
      ensures Accounted()
    {
      forall t, m | t in threads && m in mutexes ensures Balance(log, t, m) == Share(t, m) {
        BalanceAppend(old(log), es, t, m);
      }
    }

    twostate lemma AccountStays()
      requires old(Accounted()) && log == old(log)
      requires forall m :: m in mutexes ==> m.owner == old(m.owner) && m.hold == old(m.hold)
      ensures Accounted()
    {
      forall t, m | t in threads && m in mutexes ensures Balance(log, t, m) == Share(t, m) {
        assert old(Share(t, m)) == Share(t, m);
      }
    }

    // Two-state facts about what an operation has changed. In each, what is not mentioned as
    // different is the same.

    twostate predicate SameCalls(ts: set<Thread>)
      reads ts
    {
      forall x :: x in ts ==>
        && x.suspended == old(x.suspended) && x.closed == old(x.closed) && x.error == old(x.error)
        && x.pending == old(x.pending) && x.blockedIn == old(x.blockedIn)
    }

    twostate predicate SameMutexes(ms: set<Mutex>)
      reads ms
    {
      forall x :: x in ms ==>
        && x.owner == old(x.owner) && x.hold == old(x.hold)
        && x.waiters == old(x.waiters) && x.priority == old(x.priority)
    }

    twostate predicate SameHoldings(ts: set<Thread>)
      reads ts
    {
      forall x :: x in ts ==> x.taken == old(x.taken) && x.priority == old(x.priority)
    }

    /** `c.t` has taken `c.m`, which was free. */
    twostate predicate FreeTaken(c: Scene)
      reads c.t, c.m, threads, mutexes, this
    {
      && SameTimes() && old(Running(c.t)) && c.m in mutexes && old(c.m.owner) == null
      && c.m.owner == c.t && c.m.hold == 1 && c.m.priority == NO_WAITER && c.m.waiters == old(c.m.waiters)
      && c.t.taken == [c.m] + old(c.t.taken) && c.t.priority == old(c.t.priority)
      && SameCalls(threads) && SameHoldings(threads - {c.t}) && SameMutexes(mutexes - {c.m})
    }

    twostate lemma FreeTakenLinks(c: Scene)
      requires old(Links()) && FreeTaken(c)
      ensures Links()
    {
      assert old(WaitLinks(c.m));
      forall x | x in threads ensures TakenLinks(x) && CallLinks(x) {
        assert old(TakenLinks(x)) && old(CallLinks(x));
      }
      forall x | x in mutexes ensures OwnerLinks(x) && WaitLinks(x) {
        assert old(OwnerLinks(x)) && old(WaitLinks(x));
      }
    }

    twostate lemma FreeTakenSettled(c: Scene)
      requires old(Links()) && old(Bounded()) && old(ThreadsSettled(c.st)) && old(MutexesSettled(c.sm))
      requires FreeTaken(c) && Links()
      ensures ThreadsSettled(c.st) && MutexesSettled(c.sm)
    {
      assert old(WaitLinks(c.m));
      forall x | x in threads ensures SettledThread(x, x in c.st) {
        assert old(SettledThread(x, x in c.st)) && old(TakenLinks(x));
      }
      forall x | x in mutexes ensures SettledMutex(x, x in c.sm) {
        assert old(SettledMutex(x, x in c.sm)) && old(WaitLinks(x));
      }
    }

    twostate lemma FreeTakenValid(c: Scene)
      requires old(Valid(c.sm, c.st)) && FreeTaken(c) && log == old(log) + [Granted(c.t, c.m)]
      ensures Valid(c.sm, c.st)
    {
      assert old(OwnerLinks(c.m));
      FreeTakenLinks(c);
      FreeTakenSettled(c);
      Posted([Granted(c.t, c.m)]);
    }

    /** A free mutex becomes the property of the taker. */
    method TakeFree(t: Thread, m: Mutex, ghost sm: set<Mutex>, ghost st: set<Thread>)
      requires Valid(sm, st) && Running(t) && m in mutexes && m.owner == null
      modifies this`log, t`taken, m`owner, m`priority, m`hold
      ensures Valid(sm, st)
      ensures m.owner == t && m.hold == 1 && log == old(log) + [Granted(t, m)]
    {
      m.owner, m.priority, m.hold, t.taken, log := t, NO_WAITER, 1, [m] + t.taken, log + [Granted(t, m)];
      FreeTakenValid(Scene(t, m, sm, st, [], 0));
    }

    /** `c.t` has been suspended on `c.m`, in its place, and the mutex knows. */
    twostate predicate SuspendedOn(c: Scene)
      reads c.t, c.m, threads, mutexes, this
    {
      && moment == Joined(old(moment), c.t)
      && old(Running(c.t)) && c.t.error == old(c.t.error) == EOK && c.t.closed == old(c.t.closed)
      && c.t.suspended && c.t.pending == c.m == c.t.blockedIn
      && c.m in mutexes && c.m.owner == old(c.m.owner) && c.m.owner != null && c.m.owner != c.t && c.m.hold == old(c.m.hold)
      && (forall x :: x in c.m.waiters ==> x in threads) && (forall x :: x in old(c.m.waiters) ==> x in threads)
      && Placed(old(c.m.waiters), c.t, c.k, c.m.waiters)
      && c.m.priority == (if c.t.priority < old(c.m.priority) then c.t.priority else old(c.m.priority))
      && SameCalls(threads - {c.t}) && SameHoldings(threads) && SameMutexes(mutexes - {c.m})
    }

    twostate lemma SuspendedLinks(c: Scene)
      requires old(Links()) && SuspendedOn(c)
      ensures Links()
    {
      assert old(WaitLinks(c.m)) && c.t !in old(c.m.waiters);
      InsertedMembers(old(c.m.waiters), c.k, c.t);
      forall x | x in threads ensures CallLinks(x) { assert old(CallLinks(x)); }
      forall x | x in mutexes ensures WaitLinks(x) { assert old(WaitLinks(x)); }
      forall x | x in threads ensures TakenLinks(x) { assert old(TakenLinks(x)); }
      forall x | x in mutexes ensures OwnerLinks(x) { assert old(OwnerLinks(x)); }
    }

    twostate lemma SuspendedMutexes(c: Scene)
      requires old(Links()) && old(Bounded()) && old(MutexesSettled(c.sm))
      requires SuspendedOn(c) && Calls()
      ensures MutexesSettled(c.sm)
    {
      forall x | x in mutexes && x != c.m ensures SettledMutex(x, x in c.sm) {
        assert old(SettledMutex(x, x in c.sm)) && old(WaitLinks(x));
        forall y | y in x.waiters ensures y != c.t { assert WaitLinks(x); }
        SortedStays(x.waiters);
      }
      SuspendedMutex(c);
    }

    twostate lemma SuspendedMutex(c: Scene)
      requires old(WaitLinks(c.m)) && old(Bounded()) && old(SettledMutex(c.m, c.m in c.sm)) && SuspendedOn(c)
      ensures SettledMutex(c.m, c.m in c.sm)
    {
      if c.k > 0 { assert c.m.waiters[0] == old(c.m.waiters)[0]; }
      forall x | x in old(c.m.waiters) ensures x in moment.since && moment.since[x] < moment.since[c.t] { assert old(DatedThread(x)); }
      SortedStays(old(c.m.waiters));
      PlacedSorted(old(c.m.waiters), c.t, c.k, c.m.waiters, moment.since);
    }

    twostate lemma SuspendedThreads(c: Scene)
      requires old(Links()) && old(ThreadsSettled(c.st))
      requires SuspendedOn(c) && Owners()
      ensures forall x :: x in threads && x != c.m.owner ==> SettledThread(x, x in c.st)
      ensures if c.t.priority < old(c.m.priority) && c.m.priority < c.m.owner.priority then IsEffective(c.m.owner, c.m.priority)
              else SettledThread(c.m.owner, c.m.owner in c.st)
    {
      assert OwnerLinks(c.m);
      forall x | x in threads && x != c.m.owner ensures SettledThread(x, x in c.st) {
        assert old(SettledThread(x, x in c.st)) && TakenLinks(x) && c.m !in x.taken;
      }
      assert old(SettledThread(c.m.owner, c.m.owner in c.st));
    }

    twostate lemma SuspendedState(c: Scene)
      requires old(Links()) && old(Bounded()) && old(ThreadsSettled(c.st)) && old(MutexesSettled(c.sm))
      requires SuspendedOn(c)
      ensures Links() && Bounded() && MutexesSettled(c.sm)
      ensures forall x :: x in threads && x != c.m.owner ==> SettledThread(x, x in c.st)
      ensures if c.t.priority < old(c.m.priority) && c.m.priority < c.m.owner.priority then IsEffective(c.m.owner, c.m.priority)
              else SettledThread(c.m.owner, c.m.owner in c.st)
    {
      SuspendedLinks(c);
      SuspendedMutexes(c);
      SuspendedThreads(c);
      PlaceTaken(c.t);
    }

    /** The new links of a thread that begins to wait. */
    method JoinList(t: Thread, m: Mutex, list: seq<Thread>, ghost c: Scene) returns (raised: bool)
      requires Running(t) && t.error == EOK && m in mutexes && m.owner != null && m.owner != t
      requires c.t == t && c.m == m && Placed(m.waiters, t, c.k, list)
      requires forall x :: x in list || x in m.waiters ==> x in threads
      modifies t`suspended, t`blockedIn, t`pending, m`waiters, m`priority, this`moment
      ensures SuspendedOn(c) && (raised <==> t.priority < old(m.priority))
    {
      t.suspended, t.blockedIn, t.pending, m.waiters := true, m, m, list;
      moment := Joined(moment, t);
      raised := t.priority < m.priority;
      if raised {
        m.priority := t.priority;
      }
    }

    /** rt_thread_suspend_to_list, and the new priority of the mutex. */
    method Suspend(t: Thread, m: Mutex, ghost sm: set<Mutex>, ghost st: set<Thread>) returns (raised: bool)
      requires Links() && Bounded() && ThreadsSettled(st) && MutexesSettled(sm)
      requires Running(t) && t.error == EOK && m in mutexes && m.owner != null && m.owner != t
      modifies t`suspended, t`blockedIn, t`pending, m`waiters, m`priority, this`moment
      ensures Links() && Bounded() && t.suspended && t.blockedIn == m
      ensures moment == Joined(old(moment), t)
      ensures MutexesSettled(sm)
      ensures forall x :: x in threads && x != m.owner ==> SettledThread(x, x in st)
      ensures if raised && m.priority < m.owner.priority then IsEffective(m.owner, m.priority)
              else SettledThread(m.owner, m.owner in st)
    {
      assert WaitLinks(m);
      var list, k := Enqueue(m.waiters, t);
      ghost var c := Scene(t, m, sm, st, [], k);
      raised := JoinList(t, m, list, c);
      SuspendedState(c);
    }

    /** The owner gets the new priority of its mutex, if that is more urgent than its own. */
    method PassOn(m: Mutex, raised: bool, ghost sm: set<Mutex>, ghost st: set<Thread>)
      requires Links() && Bounded() && MutexesSettled(sm) && m in mutexes && m.owner != null
      requires forall x :: x in threads && x != m.owner ==> SettledThread(x, x in st)
      requires if raised && m.priority < m.owner.priority then IsEffective(m.owner, m.priority)
               else SettledThread(m.owner, m.owner in st)
      modifies threads`priority, mutexes`waiters, mutexes`priority, this`moment
      ensures Links() && Bounded() && ThreadsSettled(st) && MutexesSettled(sm)
      ensures Steady(old(moment), moment, threads) && (sm == {} && st == {} ==> OnlyMoved(old(moment), moment, threads))
    {
      assert OwnerLinks(m);
      if raised && m.priority < m.owner.priority {
        UpdatePriority(m.owner, m.priority, sm, st);
      } else {
        OwnerMayStayStale(m.owner, st, st);
      }
    }

    /** Suspension and inheritance. */
    method Block(t: Thread, m: Mutex, ghost sm: set<Mutex>, ghost st: set<Thread>)
      requires Links() && Bounded() && ThreadsSettled(st) && MutexesSettled(sm)
      requires Running(t) && t.error == EOK && m in mutexes && m.owner != null && m.owner != t
      modifies t`suspended, t`blockedIn, t`pending, threads`priority, mutexes`waiters, mutexes`priority, this`moment
      ensures Links() && Bounded() && ThreadsSettled(st) && MutexesSettled(sm)
      ensures Steady(old(moment), moment, threads) && (sm == {} && st == {} ==> OnlyMoved(old(moment), moment, threads - {t}))
      ensures t in moment.since && old(moment.now) <= moment.since[t]
      ensures t.suspended && t.blockedIn == m
    {
      ghost var start := moment;
      var raised := Suspend(t, m, sm, st);
      PassOn(m, raised, sm, st);
      JoinedThen(start, moment, threads, t, sm == {} && st == {});
    }

    /** The taker is suspended on a mutex that somebody else owns, and its priority is passed on. */
    method TakeBlocked(t: Thread, m: Mutex, ghost sm: set<Mutex>, ghost st: set<Thread>)
      requires Valid(sm, st) && Running(t) && t.error == EOK && m in mutexes && m.owner != null && m.owner != t
      modifies t`suspended, t`blockedIn, t`pending, threads`priority, mutexes`waiters, mutexes`priority, this`moment
      ensures Valid(sm, st)
      ensures Steady(old(moment), moment, threads) && (sm == {} && st == {} ==> OnlyMoved(old(moment), moment, threads - {t}))
      ensures t in moment.since && old(moment.now) <= moment.since[t]
      ensures t.suspended && t.blockedIn == m
    {
      Block(t, m, sm, st);
      AccountStays();
    }

    method SetError(t: Thread, e: Err, ghost sm: set<Mutex>, ghost st: set<Thread>)
      requires Valid(sm, st) && Running(t)
      modifies t`error
      ensures Valid(sm, st) && t.error == e
    {
      t.error := e;
      forall x | x in threads ensures CallLinks(x) { assert old(CallLinks(x)); }
      forall x | x in mutexes ensures WaitLinks(x) { assert old(WaitLinks(x)); }
    }

    /** The owner `c.t` of `c.m` has changed its count by one. */
    twostate lemma HoldSet(c: Scene)
      requires old(Valid(c.sm, c.st)) && c.m in mutexes && c.m.owner == c.t && 1 <= c.m.hold <= HOLD_MAX
      requires (c.m.hold == old(c.m.hold) + 1 && log == old(log) + [Granted(c.t, c.m)])
            || (c.m.hold == old(c.m.hold) - 1 && log == old(log) + [Released(c.t, c.m)])
      requires forall x :: x in mutexes ==> x.owner == old(x.owner) && x.waiters == old(x.waiters) && x.priority == old(x.priority)
      requires forall x :: x in mutexes && x != c.m ==> x.hold == old(x.hold)
      requires SameCalls(threads) && SameHoldings(threads) && SameTimes()
      ensures Valid(c.sm, c.st)
    {
      Posted(log[|old(log)|..]);
      forall x | x in threads ensures TakenLinks(x) && CallLinks(x) { assert old(TakenLinks(x)) && old(CallLinks(x)); }
      forall x | x in mutexes ensures OwnerLinks(x) && WaitLinks(x) { assert old(OwnerLinks(x)) && old(WaitLinks(x)); }
    }

    method SetHold(m: Mutex, hold: nat, ghost sm: set<Mutex>, ghost st: set<Thread>)
      requires Valid(sm, st) && m in mutexes && m.owner != null && 1 <= hold <= HOLD_MAX
      requires hold == m.hold + 1 || hold == m.hold - 1
      modifies m`hold, this`log
      ensures Valid(sm, st) && m.hold == hold
      ensures log == old(log) + [if hold == old(m.hold) + 1 then Granted(m.owner, m) else Released(m.owner, m)]
    {
      log := log + [if hold == m.hold + 1 then Granted(m.owner, m) else Released(m.owner, m)];
      m.hold := hold;
      HoldSet(Scene(m.owner, m, sm, st, [], 0));
    }

    /** _rt_mutex_take up to the point where it returns or calls rt_schedule. */
    method Take(t: Thread, m: Mutex, timeout: int, ghost sm: set<Mutex>, ghost st: set<Thread>) returns (r: Outcome)
      requires Valid(sm, st) && Running(t) && m in mutexes
      modifies this`log, this`moment, threads, mutexes
      ensures Valid(sm, st)
      ensures r == Returned(EOK) <==> old(m.owner) == null || (old(m.owner) == t && old(m.hold) < HOLD_MAX)
      ensures r == Returned(EFULL) <==> old(m.owner) == t && old(m.hold) == HOLD_MAX
      ensures r == Returned(ETIMEOUT) <==> old(m.owner) != null && old(m.owner) != t && timeout == 0
      ensures r == Outcome.Suspended <==> old(m.owner) != null && old(m.owner) != t && timeout != 0
      ensures r == Returned(EOK) ==> m.owner == t && log == old(log) + [Granted(t, m)]
      ensures r != Returned(EOK) ==> log == old(log)
      ensures r == Outcome.Suspended <==> t.suspended && t.blockedIn == m
      ensures Steady(old(moment), moment, threads) && (sm == {} && st == {} ==> OnlyMoved(old(moment), moment, threads - {t}))
      ensures r == Outcome.Suspended ==> t in moment.since && old(moment.now) <= moment.since[t]
      ensures r == Returned(EOK) ==> m.hold == old(m.hold) + 1
      ensures Queued(sm == {} && st == {})
    {
      assert OwnerLinks(m);
      SettledSorted(sm);
      forall x | x in mutexes ensures t !in x.waiters { assert WaitLinks(x); }
      SteadySame(moment, threads);
      SetError(t, EOK, sm, st);
      if m.owner == t {
        if m.hold < HOLD_MAX {
          SetHold(m, m.hold + 1, sm, st);
          r := Returned(EOK);
        } else {
          r := Returned(EFULL);
        }
      } else if m.owner == null {
        TakeFree(t, m, sm, st);
        r := Returned(EOK);
      } else if timeout == 0 {
        SetError(t, ETIMEOUT, sm, st);
        r := Returned(ETIMEOUT);
      } else {
        TakeBlocked(t, m, sm, st);
        r := Outcome.Suspended;
      }
      SettledSorted(sm);
      QueuesKept((sm == {} && st == {}, t));
    }

    /** The first half of the last release: `t` no longer has `m`, and no longer has the
        priority it had because of `m`. */
    method Leave(t: Thread, m: Mutex, ghost st: set<Thread>)
      requires Universe() && Owners() && Bounded() && ThreadsSettled(st)
      requires t in threads && m in mutexes && m.owner == t
      modifies t`taken, t`priority, this`moment
      ensures Retimed(t)
      ensures Bounded() && t.taken == Without(old(t.taken), m)
      ensures (forall x :: x in t.taken ==> x in old(t.taken) && x != m) && (forall x :: x in old(t.taken) && x != m ==> x in t.taken)
      ensures Distinct(t.taken) && SettledThread(t, t in st)
    {
      assert TakenLinks(t) && OwnerLinks(m) && SettledThread(t, t in st);
      ghost var k := WithoutAt(t.taken, m);
      RemovedMembers(t.taken, k);
      t.taken := Without(t.taken, m);
      CheckPriority(t, m, t in st);
    }

    /** _check_and_update_prio. */
    method CheckPriority(t: Thread, m: Mutex, ghost stale: bool)
      requires Universe() && Bounded() && t in threads && t.priority <= t.initPriority
      requires (forall x :: x in t.taken ==> t.priority <= x.priority)
      requires !stale && t.priority != m.priority ==> IsEffective(t, t.priority)
      modifies t`priority, this`moment
      ensures Bounded() && Retimed(t) && SettledThread(t, stale)
    {
      if t.priority == m.priority {
        var p := GetMutexPriority(t);
        ChangePriority(t, p);
      }
    }

    /** `c.t` has left `c.m`. Its taken list lost `c.m` and its priority may be another. */
    twostate predicate LeftMutex(c: Scene)
      reads c.t, c.m, threads, mutexes, this
    {
      && Retimed(c.t)
      && old(Running(c.t)) && c.m in mutexes && old(c.m.owner) == c.t && old(c.m.hold) == 1
      && Distinct(c.t.taken) && (forall x :: x in mutexes ==> (x in c.t.taken <==> x in old(c.t.taken) && x != c.m))
      && (forall x :: x in c.t.taken ==> x in mutexes)
      && SettledThread(c.t, c.t in c.st)
      && SameMutexes(mutexes - {c.m})
    }

    /** Nobody waited: `c.m` is free again. */
    twostate predicate GivenUp(c: Scene)
      reads c.t, c.m, threads, mutexes, this
    {
      && LeftMutex(c)
      && c.m.waiters == old(c.m.waiters) == [] && c.m.owner == null && c.m.hold == 0 && c.m.priority == NO_WAITER
      && SameCalls(threads) && SameHoldings(threads - {c.t})
    }

    /** `c.t` alone may have another priority. */
    twostate lemma LeftBounded(c: Scene)
      requires old(Bounded()) && Retimed(c.t) && c.t in threads && c.t.priority <= c.t.initPriority
      requires forall x :: x in threads && x != c.t ==> x.priority == old(x.priority)
      ensures Bounded()
    {
      forall x | x in threads ensures DatedThread(x) { assert old(DatedThread(x)); }
      forall x | x in threads ensures KnownThread(moment, x) { assert DatedThread(x); }
    }

    twostate lemma GivenUpLinks(c: Scene)
      requires old(Links()) && GivenUp(c)
      ensures Links()
    {
      forall x | x in threads ensures TakenLinks(x) { assert old(TakenLinks(x)); }
      forall x | x in mutexes ensures OwnerLinks(x) { assert old(OwnerLinks(x)); }
      forall x | x in threads ensures CallLinks(x) { assert old(CallLinks(x)); }
      forall x | x in mutexes ensures WaitLinks(x) { assert old(WaitLinks(x)); }
    }

    twostate lemma GivenUpThreads(c: Scene)
      requires old(Links()) && old(ThreadsSettled(c.st)) && GivenUp(c) && Owners()
      ensures ThreadsSettled(c.st)
    {
      forall x | x in threads ensures (forall m :: m in x.taken ==> m in mutexes) && SettledThread(x, x in c.st) {
        assert old(SettledThread(x, x in c.st)) && TakenLinks(x);
      }
    }

    twostate lemma GivenUpMutexes(c: Scene)
      requires old(Bounded()) && old(MutexesSettled(c.sm)) && GivenUp(c) && Calls()
      requires forall x :: x in threads && x != c.t ==> x.priority == old(x.priority)
      ensures MutexesSettled(c.sm)
    {
      forall x | x in mutexes ensures (forall t :: t in x.waiters ==> t in threads) && SettledMutex(x, x in c.sm) {
        assert old(SettledMutex(x, x in c.sm)) && WaitLinks(x) && c.t !in x.waiters;
        SortedStays(x.waiters);
      }
    }

    /** A wait list of which nothing has changed. */
    twostate lemma SortedStays(s: seq<Thread>)
      requires old(Sorted(s, moment.since))
      requires forall x :: x in s ==> x.priority == old(x.priority) && (x in moment.since <==> x in old(moment.since))
      requires forall x :: x in s && x in moment.since ==> moment.since[x] == old(moment.since)[x]
      ensures Sorted(s, moment.since)
    {
      forall i, j | 0 <= i < j < |s| ensures Before(s[i], s[j], moment.since) { assert old(Before(s[i], s[j], moment.since)); }
    }

    /** The first waiter, `c.list[0]`, has been woken as the new owner of `c.m`. */
    twostate predicate HandedOver(c: Scene)
      reads c.t, c.m, threads, mutexes, this
    {
      && LeftMutex(c)
      && c.list == old(c.m.waiters) && c.list != [] && (forall x :: x in c.list ==> x in threads)
      && var next := c.list[0];
      && c.m.waiters == c.list[1..] && c.m.owner == next && c.m.hold == 1 && c.m.priority == FirstPriority(c.m)
      && next.taken == [c.m] + old(next.taken) && next.priority == old(next.priority)
      && !next.suspended && next.pending == null
      && next.closed == old(next.closed) && next.error == old(next.error) && next.blockedIn == old(next.blockedIn)
      && SameCalls(threads - {next}) && SameHoldings(threads - {c.t, next})
    }

    twostate lemma HandedOverOwners(c: Scene)
      requires old(Links()) && HandedOver(c)
      ensures Owners()
    {
      assert old(OwnerLinks(c.m)) && old(WaitLinks(c.m));
      forall x | x in threads ensures TakenLinks(x) { assert old(TakenLinks(x)); }
      forall x | x in mutexes ensures OwnerLinks(x) { assert old(OwnerLinks(x)); }
    }

    twostate lemma HandedOverCalls(c: Scene)
      requires old(Links()) && HandedOver(c)
      ensures Calls()
    {
      assert old(WaitLinks(c.m));
      assert forall i :: 0 <= i < |c.m.waiters| ==> c.m.waiters[i] == c.list[i + 1];
      assert forall x :: x in c.list ==> x == c.list[0] || x in c.m.waiters;
      forall x | x in threads ensures CallLinks(x) { assert old(CallLinks(x)); }
      forall x | x in mutexes ensures WaitLinks(x) { assert old(WaitLinks(x)); }
    }

    twostate lemma HandedOverMutex(c: Scene)
      requires old(WaitLinks(c.m)) && old(SettledMutex(c.m, c.m in c.sm)) && HandedOver(c)
      ensures SettledMutex(c.m, c.m in c.sm)
    {
      SortedStays(c.list);
      assert Sorted(c.list[1..], moment.since);
    }

    twostate lemma HandedOverMutexes(c: Scene)
      requires old(Links()) && old(Bounded()) && old(MutexesSettled(c.sm))
      requires HandedOver(c) && Calls()
      ensures MutexesSettled(c.sm)
    {
      assert old(SettledMutex(c.m, c.m in c.sm)) && old(WaitLinks(c.m));
      HandedOverMutex(c);
      forall x | x in mutexes && x != c.m ensures (forall t :: t in x.waiters ==> t in threads) && SettledMutex(x, x in c.sm) {
        assert old(SettledMutex(x, x in c.sm)) && old(WaitLinks(x)) && WaitLinks(x);
        SortedStays(x.waiters);
      }
    }

    twostate lemma HandedOverFacts(c: Scene)
      requires old(Dated()) && HandedOver(c) && c.t in threads && c.list[0] != c.t
      ensures Running(c.t) && c.m.owner == old(c.m.waiters[0]) && c.m.owner != c.t && SameClosed(threads)
      ensures Steady(old(moment), moment, threads) && OthersKeep(c.m) && c.m.hold == 1 && c.m.waiters == old(c.m.waiters)[1..]
    {
      RetimedSteady(c.t);
    }

    twostate lemma HandedOverNext(c: Scene)
      requires old(Links()) && old(Bounded()) && old(ThreadsSettled(c.st)) && old(MutexesSettled(c.sm))
      requires HandedOver(c) && SettledMutex(c.m, c.m in c.sm)
      ensures SettledThread(c.list[0], c.list[0] in c.st)
    {
      var next := c.list[0];
      assert old(WaitLinks(c.m)) && old(SettledMutex(c.m, c.m in c.sm)) && old(SettledThread(next, next in c.st));
      assert next.priority <= c.m.priority;
    }

    twostate lemma HandedOverThreads(c: Scene)
      requires old(Links()) && old(Bounded()) && old(ThreadsSettled(c.st)) && old(MutexesSettled(c.sm))
      requires HandedOver(c) && Owners() && MutexesSettled(c.sm)
      ensures ThreadsSettled(c.st)
    {
      assert SettledMutex(c.m, c.m in c.sm);
      HandedOverNext(c);
      forall x | x in threads && x != c.list[0] ensures (forall m :: m in x.taken ==> m in mutexes) && SettledThread(x, x in c.st) {
        assert old(SettledThread(x, x in c.st)) && old(TakenLinks(x)) && TakenLinks(x);
      }
    }

    twostate lemma HandedOverAccount(c: Scene)
      requires old(Owners()) && old(Calls()) && old(Accounted()) && HandedOver(c)
      requires log == old(log) + [Released(c.t, c.m), Granted(c.list[0], c.m)]
      ensures Accounted()
    {
      var a, b := Released(c.t, c.m), Granted(c.list[0], c.m);
      assert old(WaitLinks(c.m));
      assert [a, b] == [a] + [b];
      forall t, m | t in threads && m in mutexes ensures Share(t, m) == old(Share(t, m)) + Balance([a, b], t, m) {
        BalanceAppend([a], [b], t, m);
      }
      Posted([a, b]);
    }

    twostate lemma HandedOverValid(c: Scene)
      requires old(Valid(c.sm, c.st)) && HandedOver(c)
      requires log == old(log) + [Released(c.t, c.m), Granted(c.list[0], c.m)]
      ensures Valid(c.sm, c.st)
    {
      LeftBounded(c);
      HandedOverOwners(c);
      HandedOverCalls(c);
      HandedOverMutexes(c);
      HandedOverThreads(c);
      HandedOverAccount(c);
    }

    twostate lemma GivenUpValid(c: Scene)
      requires old(Valid(c.sm, c.st)) && GivenUp(c) && log == old(log) + [Released(c.t, c.m)]
      ensures Valid(c.sm, c.st)
    {
      LeftBounded(c);
      GivenUpLinks(c);
      GivenUpThreads(c);
      GivenUpMutexes(c);
      Posted([Released(c.t, c.m)]);
    }

    /** The second half of the last release when somebody waits. */
    method Grant(m: Mutex, next: Thread)
      requires m.waiters != [] && next == m.waiters[0]
      modifies m, next`suspended, next`taken, next`pending
      ensures m.waiters == old(m.waiters[1..])
      ensures !next.suspended && next.taken == [m] + old(next.taken) && next.pending == null
      ensures m.owner == next && m.hold == 1 && m.priority == FirstPriority(m)
    {
      m.waiters, next.suspended := m.waiters[1..], false;
      m.owner, m.hold, next.taken, next.pending := next, 1, [m] + next.taken, null;
      m.priority := if m.waiters != [] then m.waiters[0].priority else NO_WAITER;
    }

    /** Leaving, and the first waiter as the owner. */
    method PassTo(t: Thread, m: Mutex, ghost c: Scene) returns (next: Thread)
      requires Universe() && Owners() && Bounded() && ThreadsSettled(c.st)
      requires c.t == t && c.m == m && Running(t) && m in mutexes && m.owner == t && m.hold == 1
      requires m.waiters == c.list != [] && forall x :: x in m.waiters ==> x in threads && x != t
      modifies t`taken, t`priority, this`moment, m, m.waiters`suspended, m.waiters`taken, m.waiters`pending
      ensures HandedOver(c) && next == c.list[0]
    {
      Leave(t, m, c.st);
      next := m.waiters[0];
      assert next != t && m !in t.taken;
      Grant(m, next);
    }

    /** The wait lists of all other mutexes are as they were. */
    twostate predicate OthersKeep(m: Mutex)
      reads mutexes
    {
      forall x :: x in mutexes && x != m ==> x.waiters == old(x.waiters)
    }

    /** What a release by `caller` causes. */
    ghost function ReleaseEvents(caller: Thread, m: Mutex): seq<Event>
      reads m
    {
      EntryEvents(caller, m, Entry(m.owner, m.hold, m.waiters))
    }

    /** The last release of a mutex that somebody waits for: it goes to the first waiter. */
    method HandOver(t: Thread, m: Mutex, ghost sm: set<Mutex>, ghost st: set<Thread>)
      requires Valid(sm, st) && Running(t) && m in mutexes && m.owner == t && m.hold == 1 && m.waiters != []
      modifies this`log, this`moment, threads, m
      ensures Valid(sm, st) && Running(t) && m.owner != t && SameClosed(threads)
      ensures m.owner == old(m.waiters[0]) && log == old(log) + [Released(t, m), Granted(m.owner, m)]
      ensures Steady(old(moment), moment, threads)
      ensures m.hold == 1 && m.waiters == old(m.waiters)[1..] && OthersKeep(m)
    {
      ghost var c := Scene(t, m, sm, st, m.waiters, 0);
      assert WaitLinks(m);
      var next := PassTo(t, m, c);
      log := log + [Released(t, m), Granted(next, m)];
      HandedOverValid(c);
      HandedOverFacts(c);
    }

    /** Leaving, and the mutex without owner. */
    method Vacate(t: Thread, m: Mutex, ghost c: Scene)
      requires Universe() && Owners() && Bounded() && ThreadsSettled(c.st)
      requires c.t == t && c.m == m && Running(t) && m in mutexes && m.owner == t && m.hold == 1 && m.waiters == []
      modifies t`taken, t`priority, this`moment, m`owner, m`hold, m`priority
      ensures GivenUp(c)
    {
      Leave(t, m, c.st);
      m.owner, m.hold, m.priority := null, 0, NO_WAITER;
    }

    /** The last release of a mutex that nobody waits for: it becomes free. */
    method GiveUp(t: Thread, m: Mutex, ghost sm: set<Mutex>, ghost st: set<Thread>)
      requires Valid(sm, st) && Running(t) && m in mutexes && m.owner == t && m.hold == 1 && m.waiters == []
      modifies this`log, this`moment, t`taken, t`priority, m
      ensures Valid(sm, st)
      ensures m.owner == null && log == old(log) + [Released(t, m)]
      ensures Steady(old(moment), moment, threads) && m.waiters == []
    {
      ghost var c := Scene(t, m, sm, st, [], 0);
      Vacate(t, m, c);
      log := log + [Released(t, m)];
      GivenUpValid(c);
      RetimedSteady(t);
    }

    /** rt_mutex_release. */
    method Release(t: Thread, m: Mutex, ghost sm: set<Mutex>, ghost st: set<Thread>) returns (r: Err)
      requires Valid(sm, st) && Running(t) && m in mutexes
      modifies this`log, this`moment, threads, mutexes
      ensures Valid(sm, st)
      ensures r == EOK <==> old(m.owner) == t
      ensures r != EOK ==> r == ERROR && log == old(log) && m.owner == old(m.owner) && m.hold == old(m.hold)
      ensures r == EOK && old(m.hold) > 1 ==> m.owner == t && log == old(log) + [Released(t, m)]
      ensures r == EOK && old(m.hold) == 1 && old(m.waiters) == [] ==> m.owner == null && log == old(log) + [Released(t, m)]
      ensures r == EOK && old(m.hold) == 1 && old(m.waiters) != [] ==>
                m.owner == old(m.waiters[0]) && log == old(log) + [Released(t, m), Granted(m.owner, m)]
      ensures Running(t) && SameClosed(threads) && (r == EOK ==> (m.owner == t <==> old(m.hold) > 1))
      ensures forall x :: x in mutexes && x != m ==> x.owner == old(x.owner) && x.hold == old(x.hold)
      ensures log == old(log) + old(ReleaseEvents(t, m)) && Steady(old(moment), moment, threads)
      ensures r == EOK && old(m.hold) == 1 && old(m.waiters) != [] ==>
                m.waiters == old(m.waiters)[1..] && old(Foremost(m.waiters[0], m.waiters, moment.since))
      ensures !(r == EOK && old(m.hold) == 1) ==> m.waiters == old(m.waiters)
      ensures OthersKeep(m)
    {
      assert OwnerLinks(m) && SettledMutex(m, m in sm);
      SteadySame(moment, threads);
      if t != m.owner {
        SetError(t, ERROR, sm, st);
        return ERROR;
      }
      if m.hold > 1 {
        SetHold(m, m.hold - 1, sm, st);
      } else if m.waiters != [] {
        HandOver(t, m, sm, st);
      } else {
        GiveUp(t, m, sm, st);
      }
      r := EOK;
    }

    // ---- Leaving a wait list without having been granted the mutex -----------------------

    /** `c.t`, at place `c.k` of the wait list of `c.m`, has left it: timed out or closed. */
    twostate predicate Withdrawn(c: Scene)
      reads c.t, c.m, threads, mutexes, this
    {
      && SameTimes()
      && c.t in threads && c.m in mutexes && old(c.t.suspended) && old(c.t.blockedIn) == c.m && !c.t.suspended
      && ((c.t.error != EOK && c.t.pending == c.m == c.t.blockedIn && c.t.closed == old(c.t.closed))
          || (c.t.pending == null == c.t.blockedIn))
      && c.k < |old(c.m.waiters)| && old(c.m.waiters)[c.k] == c.t
      && c.m.waiters == old(c.m.waiters)[..c.k] + old(c.m.waiters)[c.k + 1..]
      && c.m.owner == old(c.m.owner) && c.m.hold == old(c.m.hold) && c.m.priority == old(c.m.priority)
      && SameCalls(threads - {c.t}) && SameHoldings(threads) && SameMutexes(mutexes - {c.m})
    }

    twostate lemma WithdrawnLinks(c: Scene)
      requires old(Links()) && Withdrawn(c)
      ensures Links()
    {
      assert old(WaitLinks(c.m)) && old(CallLinks(c.t));
      RemovedMembers(old(c.m.waiters), c.k);
      forall x | x in threads ensures CallLinks(x) { assert old(CallLinks(x)); }
      forall x | x in mutexes ensures WaitLinks(x) { assert old(WaitLinks(x)); }
      forall x | x in threads ensures TakenLinks(x) { assert old(TakenLinks(x)); }
      forall x | x in mutexes ensures OwnerLinks(x) { assert old(OwnerLinks(x)); }
    }

    /** Its mutex may now be stale, in one particular way. */
    ghost predicate MutexLeft(t: Thread, m: Mutex, stale: bool)
      reads t`priority, m`waiters, m`priority, m.waiters`priority, this`moment
    {
      && Sorted(m.waiters, moment.since) && m.priority <= FirstPriority(m)
      && (!stale ==> m.priority == FirstPriority(m) || m.priority == t.priority)
    }

    twostate lemma WithdrawnMutex(c: Scene)
      requires c.k < |old(c.m.waiters)| && old(c.m.waiters)[c.k] == c.t
      requires c.m.waiters == old(c.m.waiters)[..c.k] + old(c.m.waiters)[c.k + 1..]
      requires old(Bounded()) && old(SettledMutex(c.m, c.m in c.sm)) && c.m.priority == old(c.m.priority) && SameTimes()
      requires forall x :: x in old(c.m.waiters) ==> x in threads && x.priority == old(x.priority)
      ensures MutexLeft(c.t, c.m, c.m in c.sm)
    {
      SortedWithout(old(c.m.waiters), c.k, moment.since);
      assert c.m.waiters != [] ==> c.m.waiters[0] in old(c.m.waiters);
    }

    twostate lemma WithdrawnSettled(c: Scene)
      requires old(Links()) && old(Bounded()) && old(MutexesSettled(c.sm)) && Withdrawn(c) && Calls()
      ensures MutexLeft(c.t, c.m, c.m in c.sm)
      ensures MutexesSettled(c.sm + {c.m})
    {
      assert old(SettledMutex(c.m, c.m in c.sm)) && old(WaitLinks(c.m));
      WithdrawnMutex(c);
      forall x | x in mutexes && x != c.m ensures (forall t :: t in x.waiters ==> t in threads) && SettledMutex(x, x in c.sm + {c.m}) {
        assert old(SettledMutex(x, x in c.sm)) && WaitLinks(x);
      }
      assert WaitLinks(c.m) && SettledMutex(c.m, true);
    }

    twostate lemma WithdrawnValid(c: Scene)
      requires old(Valid(c.sm, c.st)) && Withdrawn(c) && log == old(log)
      ensures Valid(c.sm + {c.m}, c.st)
    {
      WithdrawnLinks(c);
      WithdrawnSettled(c);
      AccountStays();
      forall x | x in threads ensures SettledThread(x, x in c.st) {
        assert old(SettledThread(x, x in c.st)) && TakenLinks(x);
      }
      assert forall x :: x in threads ==> TakenLinks(x);
    }

    /** _thread_timeout, while the thread waits for a mutex. */
    method Timeout(t: Thread, ghost sm: set<Mutex>, ghost st: set<Thread>)
      requires Valid(sm, st) && t in threads && t.suspended && t.blockedIn != null
      modifies t`error, t`suspended, t.blockedIn`waiters
      ensures t.blockedIn == old(t.blockedIn) && Valid(sm + {t.blockedIn}, st)
      ensures !t.suspended && t.error == ETIMEOUT
    {
      var m: Mutex := t.blockedIn;
      assert CallLinks(t) && WaitLinks(m);
      ghost var k := WithoutAt(m.waiters, t);
      m.waiters, t.error, t.suspended := Without(m.waiters, t), ETIMEOUT, false;
      WithdrawnValid(Scene(t, m, sm, st, [], k));
    }

    /** The priority of `c.m` has been recomputed; nothing else is different. */
    twostate lemma Refreshed(c: Scene)
      requires old(Links()) && old(ThreadsSettled(c.st)) && Links()
      requires c.t in threads && c.m in mutexes && old(MutexLeft(c.t, c.m, c.m in c.sm))
      requires forall x :: x in mutexes && x != c.m ==> old(SettledMutex(x, x in c.sm))
      requires SameCalls(threads) && SameHoldings(threads) && SameMutexes(mutexes - {c.m}) && SameTimes()
      requires c.m.waiters == old(c.m.waiters) && c.m.owner == old(c.m.owner) && c.m.priority == FirstPriority(c.m)
      ensures MutexesSettled(c.sm - {c.m})
      ensures forall x :: x in threads && x != c.m.owner ==> SettledThread(x, x in c.st)
      ensures c.m.owner != null ==> SettledThread(c.m.owner, c.m.owner in c.st || c.m in c.sm || c.m.owner.priority == c.t.priority)
    {
      forall x | x in mutexes ensures (forall t :: t in x.waiters ==> t in threads) && SettledMutex(x, x in c.sm - {c.m}) {
        assert WaitLinks(x);
        assert x != c.m ==> old(SettledMutex(x, x in c.sm));
      }
      forall x | x in threads ensures x != c.m.owner ==> SettledThread(x, x in c.st) {
        assert old(SettledThread(x, x in c.st)) && TakenLinks(x);
      }
      if c.m.owner != null {
        assert OwnerLinks(c.m) && old(SettledThread(c.m.owner, c.m.owner in c.st));
      }
    }

    method RefreshMutex(t: Thread, m: Mutex, ghost sm: set<Mutex>, ghost st: set<Thread>)
      requires Links() && ThreadsSettled(st) && t in threads && m in mutexes
      requires MutexLeft(t, m, m in sm)
      requires forall x :: x in mutexes && x != m ==> SettledMutex(x, x in sm)
      modifies m`priority
      ensures Links() && MutexesSettled(sm - {m})
      ensures forall x :: x in threads && x != m.owner ==> SettledThread(x, x in st)
      ensures m.owner != null ==> SettledThread(m.owner, m.owner in st || m in sm || m.owner.priority == t.priority)
    {
      m.priority := if m.waiters != [] then m.waiters[0].priority else NO_WAITER;
      Refreshed(Scene(t, m, sm, st, [], 0));
    }

    /** The priority of the owner is computed again, and passed on if it is another. */
    method RefreshOwner(owner: Thread, ghost sm: set<Mutex>, ghost st: set<Thread>, ghost st': set<Thread>)
      requires Links() && Bounded() && MutexesSettled(sm) && owner in threads && st <= st'
      requires forall x :: x in threads && x != owner ==> SettledThread(x, x in st)
      modifies threads`priority, mutexes`waiters, mutexes`priority, this`moment
      ensures Links() && Bounded() && MutexesSettled(sm) && ThreadsSettled(st')
      ensures Steady(old(moment), moment, threads)
    {
      assert TakenLinks(owner);
      SteadySame(moment, threads);
      var p := GetMutexPriority(owner);
      if p != owner.priority {
        UpdatePriority(owner, p, sm, st);
        SettledWider(sm, st, sm, st');
      } else {
        OwnerMayStayStale(owner, st, st');
      }
    }

    /** The clean-up shared by _rt_mutex_take and rt_mutex_drop_thread for a thread `t` that is
        no longer in the wait list of `m`. The owner is recomputed only if its priority equals
        that of `t`, so when `m` was out of date, a different owner can stay stale. */
    method Recover(t: Thread, m: Mutex, ghost sm: set<Mutex>, ghost st: set<Thread>, ghost st': set<Thread>)
      requires Links() && Bounded() && ThreadsSettled(st) && t in threads && m in mutexes
      requires MutexLeft(t, m, m in sm)
      requires forall x :: x in mutexes && x != m ==> SettledMutex(x, x in sm)
      requires st <= st'
      requires m in sm && m.owner != null && m.owner.priority != t.priority ==> m.owner in st'
      modifies threads`priority, mutexes`waiters, mutexes`priority, this`moment
      ensures Links() && Bounded() && MutexesSettled(sm - {m}) && ThreadsSettled(st')
      ensures Steady(old(moment), moment, threads)
    {
      SteadySame(moment, threads);
      var owner := m.owner;
      var needUpdate := owner != null && owner.priority == t.priority;
      RefreshMutex(t, m, sm, st);
      if needUpdate {
        RefreshOwner(owner, sm - {m}, st, st');
      } else {
        OwnerMayStayStale(owner, st, st');
      }
    }

    lemma OwnerMayStayStale(owner: Thread?, st: set<Thread>, st': set<Thread>)
      requires Links() && st <= st'
      requires forall x :: x in threads && x != owner ==> SettledThread(x, x in st)
      requires owner != null && owner in threads ==> SettledThread(owner, owner in st')
      ensures ThreadsSettled(st')
    {
      forall x | x in threads ensures SettledThread(x, x in st') {
        assert x != owner ==> SettledThread(x, x in st);
      }
      assert forall x :: x in threads ==> TakenLinks(x);
    }

    /** `t` has returned from its take. */
    twostate lemma CallLeft(t: Thread)
      requires old(Calls()) && t in threads && !t.suspended && t.pending == null == t.blockedIn
      requires !old(t.suspended)
      requires SameCalls(threads - {t})
      requires forall x :: x in mutexes ==> x.owner == old(x.owner) && x.waiters == old(x.waiters)
      ensures Calls()
    {
      forall x | x in threads ensures CallLinks(x) { assert old(CallLinks(x)); }
      forall x | x in mutexes ensures WaitLinks(x) { assert old(WaitLinks(x)); }
    }

    method ReturnFromTake(t: Thread, ghost sm: set<Mutex>, ghost st: set<Thread>)
      requires Valid(sm, st) && t in threads && !t.suspended
      modifies t`pending, t`blockedIn
      ensures Valid(sm, st) && t.blockedIn == null
    {
      t.pending, t.blockedIn := null, null;
      CallLeft(t);
    }

    /** What a thread that was woken does with the rest of _rt_mutex_take. It owns the mutex
        if and only if it was woken with RT_EOK, so the two assertions of the source hold. */
    method Resume(t: Thread, ghost sm: set<Mutex>, ghost st: set<Thread>, ghost st': set<Thread>) returns (r: Err)
      requires Valid(sm, st) && t in threads && !t.suspended && t.blockedIn != null && st <= st'
      requires t.blockedIn in sm && t.blockedIn.owner != null && t.blockedIn.owner.priority != t.priority ==> t.blockedIn.owner in st'
      modifies this`moment, threads, mutexes
      ensures r == EOK <==> old(t.blockedIn.owner) == t
      ensures r == EOK <==> old(t.error) == EOK
      ensures t.blockedIn == null && log == old(log)
      ensures r == EOK ==> Valid(sm, st)
      ensures r != EOK ==> Valid(sm - {old(t.blockedIn)}, st')
      ensures Steady(old(moment), moment, threads)
      ensures r == old(t.error)
    {
      SteadySame(moment, threads);
      var m: Mutex := t.blockedIn;
      assert CallLinks(t);
      if t.error == EOK {
        assert m.owner == t;
        r := EOK;
        ReturnFromTake(t, sm, st);
      } else {
        assert m.owner != t;
        r := t.error;
        assert SettledMutex(m, m in sm);
        Recover(t, m, sm, st, st');
        ReturnFromTake(t, sm - {m}, st');
      }
    }

    /** A thread that waits for a mutex, or has timed out doing so, is closed:
        rt_mutex_drop_thread as _thread_detach_from_mutex calls it. */
    method Close(t: Thread, ghost sm: set<Mutex>, ghost st: set<Thread>, ghost st': set<Thread>)
      requires Valid(sm, st) && t in threads && t.pending != null && st <= st'
      requires t.pending in sm && t.pending.owner != null && t.pending.owner.priority != t.priority ==> t.pending.owner in st'
      modifies this`moment, threads, mutexes
      ensures Valid(sm - {old(t.pending)}, st') && t.closed && t.pending == null && log == old(log)
      ensures t.taken == old(t.taken) && (forall x :: x in mutexes ==> x.owner == old(x.owner) && x.hold == old(x.hold))
      ensures SameCalls(threads - {t})
      ensures Steady(old(moment), moment, threads)
    {
      assert CallLinks(t);
      var m: Mutex := t.pending;
      Drop(t, m, sm, st, st');
      AccountStays();
    }

    /** rt_mutex_drop_thread. */
    method Drop(t: Thread, m: Mutex, ghost sm: set<Mutex>, ghost st: set<Thread>, ghost st': set<Thread>)
      requires Links() && Bounded() && ThreadsSettled(st) && MutexesSettled(sm) && t in threads && m in mutexes && t.pending == m && st <= st'
      requires m in sm && m.owner != null && m.owner.priority != t.priority ==> m.owner in st'
      modifies t`suspended, t`closed, t`pending, t`blockedIn, threads`priority, mutexes`waiters, mutexes`priority, this`moment
      ensures Links() && Bounded() && MutexesSettled(sm - {m}) && ThreadsSettled(st') && t.closed && t.pending == null
      ensures Steady(old(moment), moment, threads)
    {
      Detach(t, m, sm);
      Recover(t, m, sm, st, st');
    }

    /** The part for a thread that still waits. */
    method Withdraw(t: Thread, m: Mutex, ghost sm: set<Mutex>)
      requires Links() && Bounded() && MutexesSettled(sm) && t in threads && t.pending == m && t.suspended
      modifies t`suspended, t`closed, t`pending, t`blockedIn, m`waiters
      ensures Links() && t.closed && t.pending == null
      ensures MutexLeft(t, m, m in sm) && MutexesSettled(sm + {m})
    {
      assert CallLinks(t) && WaitLinks(m);
      ghost var k := WithoutAt(m.waiters, t);
      m.waiters, t.suspended, t.closed, t.pending, t.blockedIn := Without(m.waiters, t), false, true, null, null;
      ghost var c := Scene(t, m, sm, {}, [], k);
      WithdrawnLinks(c);
      WithdrawnSettled(c);
    }

    method Detach(t: Thread, m: Mutex, ghost sm: set<Mutex>)
      requires Links() && Bounded() && MutexesSettled(sm) && t in threads && t.pending == m
      modifies t`suspended, t`closed, t`pending, t`blockedIn, m`waiters
      ensures Links() && t.closed && t.pending == null
      ensures MutexLeft(t, m, m in sm)
      ensures forall x :: x in mutexes && x != m ==> SettledMutex(x, x in sm)
    {
      assert CallLinks(t) && WaitLinks(m) && SettledMutex(m, m in sm);
      if t.suspended {
        Withdraw(t, m, sm);
      } else {
        t.closed, t.pending, t.blockedIn := true, null, null;
        CallLeft(t);
      }
    }

    /** A thread that does not wait for a mutex is closed. */
    method Retire(t: Thread, ghost sm: set<Mutex>, ghost st: set<Thread>)
      requires Valid(sm, st) && t in threads && t.pending == null
      modifies t`closed, t`blockedIn
      ensures Valid(sm, st) && t.closed
    {
      assert CallLinks(t);
      if t.blockedIn == null {
        t.closed := true;
        forall x | x in threads ensures CallLinks(x) { assert old(CallLinks(x)); }
        forall x | x in mutexes ensures WaitLinks(x) { assert old(WaitLinks(x)); }
      } else {
        t.closed, t.blockedIn := true, null;
        CallLeft(t);
      }
    }

    /** The loop of _thread_detach_from_mutex, which `caller` runs: it calls rt_mutex_release once for each
        mutex in the list. */
    method ReleaseAll(caller: Thread, list: seq<Mutex>, ghost sm: set<Mutex>, ghost st: set<Thread>)
      requires Valid(sm, st) && Running(caller) && Distinct(list) && forall m :: m in list ==> m in mutexes
      modifies this`log, this`moment, threads, mutexes
      ensures Valid(sm, st) && Running(caller) && SameClosed(threads)
      ensures forall m :: m in mutexes && m !in list ==> m.owner == old(m.owner)
      ensures forall m :: m in list ==> ReleasedOnce(caller, m)
      ensures Steady(old(moment), moment, threads)
      ensures log == old(log) + ListEvents(old(Book()), caller, list)
    {
      ReleaseEach(caller, list, sm, st);
      FromBook((caller, list));
    }

    twostate lemma FromBook(q: (Thread, seq<Mutex>))
      requires ListReleased(old(Book()), Book(), q.0, q.1) && forall m :: m in q.1 ==> m in mutexes
      ensures forall m :: m in mutexes && m !in q.1 ==> m.owner == old(m.owner)
      ensures forall m :: m in q.1 ==> ReleasedOnce(q.0, m)
    {
      forall m | m in mutexes
        ensures if m in q.1 then EntryReleased(q.0, old(Book())[m], Book()[m]) else old(Book())[m] == Book()[m]
      {
      }
    }

    method ReleaseEach(caller: Thread, list: seq<Mutex>, ghost sm: set<Mutex>, ghost st: set<Thread>)
      requires Valid(sm, st) && Running(caller) && Distinct(list) && forall m :: m in list ==> m in mutexes
      modifies this`log, this`moment, threads, mutexes
      ensures Valid(sm, st) && Running(caller) && SameClosed(threads) && Steady(old(moment), moment, threads)
      ensures ListReleased(old(Book()), Book(), caller, list) && log == old(log) + ListEvents(old(Book()), caller, list)
    {
      ghost var start, book, past, done := moment, Book(), log, list[..0];
      SteadySame(moment, threads);
      for n := 0 to |list|
        invariant Valid(sm, st) && Running(caller) && SameClosed(threads) && Steady(start, moment, threads)
        invariant done == list[..n] && ListReleased(book, Book(), caller, done)
        invariant log == past + ListEvents(book, caller, done)
      {
        OneMoreMember(list, n);
        OneMoreEvent(past, book, caller, done, list[n]);
        ReleaseNext(caller, list[n], sm, st, start, book, done);
        done := done + [list[n]];
      }
      assert done == list;
    }

    method ReleaseNext(caller: Thread, m: Mutex, ghost sm: set<Mutex>, ghost st: set<Thread>,
                       ghost start: Moment, ghost book: map<Mutex, Entry>, ghost done: seq<Mutex>)
      requires Valid(sm, st) && Running(caller) && m in mutexes && m !in done && Steady(start, moment, threads)
      requires ListReleased(book, Book(), caller, done)
      modifies this`log, this`moment, threads, mutexes
      ensures Valid(sm, st) && Running(caller) && SameClosed(threads) && Steady(start, moment, threads)
      ensures ListReleased(book, Book(), caller, done + [m])
      ensures m in book && log == old(log) + EntryEvents(caller, m, book[m])
    {
      assert m in Book() && book[m] == Book()[m];
      var r := Release(caller, m, sm, st);
      SteadyJoin(start, old(moment), moment, threads);
      Booked(m);
      OneMoreReleased(book, old(Book()), caller, done, m, Book()[m]);
    }

    ghost function Book(): (r: map<Mutex, Entry>)
      reads mutexes
    {
      map m | m in mutexes :: Entry(m.owner, m.hold, m.waiters)
    }

    twostate lemma Booked(m: Mutex)
      requires m in mutexes && OthersKeep(m) && forall x :: x in mutexes && x != m ==> x.owner == old(x.owner) && x.hold == old(x.hold)
      ensures Book() == old(Book())[m := Entry(m.owner, m.hold, m.waiters)]
    {
    }

    twostate predicate SameClosed(ts: set<Thread>)
      reads ts
    {
      forall x :: x in ts ==> x.closed == old(x.closed)
    }

    /** One call of rt_mutex_release by `caller`: it no longer owns the mutex unless it held it more
        than once; any other owner stays. */
    twostate predicate ReleasedOnce(caller: Thread, m: Mutex)
      reads m
    {
      if old(m.owner) == caller then m.owner == caller <==> old(m.hold) > 1 else m.owner == old(m.owner)
    }

    /** The same, by somebody else: nothing is released. */
    method DeleteOther(t: Thread, caller: Thread, list: seq<Mutex>, ghost sm: set<Mutex>, ghost st: set<Thread>, ghost st': set<Thread>)
      requires Valid(sm, st) && t in threads && Running(caller) && st <= st' && t != caller && list == t.taken
      requires t.pending != null && t.pending in sm && t.pending.owner != null && t.pending.owner.priority != t.priority ==> t.pending.owner in st'
      modifies this`log, this`moment, threads, mutexes
      ensures Valid(if old(t.pending) == null then sm else sm - {old(t.pending)}, if old(t.pending) == null then st else st')
      ensures t.closed && log == old(log) && Steady(old(moment), moment, threads)
      ensures forall m :: m in mutexes ==> (m.owner == t <==> old(m.owner) == t)
    {
      assert TakenLinks(t) && CallLinks(caller);
      SteadySame(moment, threads);
      if t.pending != null {
        ghost var m, start := t.pending, moment;
        Close(t, sm, st, st');
        NoEvents(Book(), caller, list);
        ghost var middle := moment;
        ReleaseAll(caller, list, sm - {m}, st');
        SteadyJoin(start, middle, moment, threads);
      } else {
        Retire(t, sm, st);
        NoEvents(Book(), caller, list);
        ReleaseAll(caller, list, sm, st);
      }
    }

    /** rt_thread_detach and rt_thread_delete, which `caller` calls. The dead thread keeps a mutex unless it
        closes itself and held it once. */
    method Delete(t: Thread, caller: Thread, ghost sm: set<Mutex>, ghost st: set<Thread>, ghost st': set<Thread>)
      requires Valid(sm, st) && t in threads && Running(caller) && st <= st'
      requires t.pending != null && t.pending in sm && t.pending.owner != null && t.pending.owner.priority != t.priority ==> t.pending.owner in st'
      modifies this`log, this`moment, threads, mutexes
      ensures Valid(if old(t.pending) == null then sm else sm - {old(t.pending)}, if old(t.pending) == null then st else st')
      ensures t.closed
      ensures forall m :: m in mutexes ==> (m.owner == t <==> old(m.owner) == t && (caller != t || old(m.hold) > 1))
      ensures Steady(old(moment), moment, threads)
      ensures log == old(log) + ListEvents(old(Book()), caller, old(t.taken))
    {
      assert TakenLinks(t) && CallLinks(caller);
      if t != caller { NoEvents(Book(), caller, t.taken); }
      var list := t.taken;
      if t == caller {
        ReleaseAll(t, list, sm, st);
        assert CallLinks(t);
        Retire(t, sm, st);
      } else {
        DeleteOther(t, caller, list, sm, st, st');
      }
    }

    /** Being suspended for a reason other than a mutex, and resumed. */
    method SetAsleep(t: Thread, asleep: bool, ghost sm: set<Mutex>, ghost st: set<Thread>)
      requires Valid(sm, st) && t in threads && t.blockedIn == null
      modifies t`suspended
      ensures Valid(sm, st) && t.suspended == asleep
    {
      t.suspended := asleep;
      forall x | x in threads ensures CallLinks(x) { assert old(CallLinks(x)); }
      forall x | x in mutexes ensures WaitLinks(x) { assert old(WaitLinks(x)); }
    }

    // ---- Whole runs ----------------------------------------------------------------------------

    /** Nobody has taken anything, and every mutex is free. */
    ghost predicate Begun()
      reads this, threads, mutexes
    {
      && Universe() && log == []
      && (forall t :: t in threads ==> t.priority == t.initPriority < PRIORITY_MAX && !t.suspended && t.taken == [] && t.pending == null == t.blockedIn)
      && (forall m :: m in mutexes ==> m.owner == null && m.priority == NO_WAITER && m.hold == 0 && m.waiters == [])
      && (forall t :: t in threads ==> t in moment.since && moment.since[t] == 0 && t in moment.priority && moment.priority[t] == t.priority)
      && moment.now == 1
    }

    lemma BegunSettled()
      requires Begun()
      ensures Bounded() && ThreadsSettled({}) && MutexesSettled({})
    {
      assert forall t :: t in threads ==> DatedThread(t) && KnownThread(moment, t);
    }

    lemma BegunLinks()
      requires Begun()
      ensures Links() && Accounted()
    {
    }

    /** Threads that have taken nothing yet, and free mutexes. */
    constructor (ts: seq<Thread>, ms: set<Mutex>)
      requires Distinct(ts)
      requires forall t :: t in ts ==> t.priority == t.initPriority < PRIORITY_MAX && !t.suspended && t.taken == []
      requires forall t :: t in ts ==> t.pending == null == t.blockedIn
      requires forall m :: m in ms ==> m.owner == null && m.priority == NO_WAITER && m.hold == 0 && m.waiters == []
      ensures threads == (set t | t in ts) && mutexes == ms && log == []
      ensures Exact()
    {
      threads, mutexes, roster, log := (set t | t in ts), ms, ts, [];
      moment := Moment(map t | t in ts :: 0, 1, map t | t in ts :: t.priority);
      new;
      BegunSettled();
      BegunLinks();
    }

    ghost predicate InSystem(s: Step) {
      s.t in threads && (s.Take? || s.Release? ==> s.m in mutexes) && (s.Delete? ==> s.caller in threads)
    }

    /** What a step adds to the log, as things stand before it. */
    ghost function StepEvents(s: Step): seq<Event>
      reads threads, mutexes, s.t, s.t.taken, if s.Take? || s.Release? then {s.m} else {}, if s.Delete? then {s.caller} else {}
    {
      match s
      case Take(t, m, _) =>
        if Running(t) && (m.owner == null || (m.owner == t && m.hold < HOLD_MAX)) then [Granted(t, m)] else []
      case Release(t, m) => if Running(t) then ReleaseEvents(t, m) else []
      case Delete(t, caller) => if !t.closed && Running(caller) then ListEvents(Book(), caller, t.taken) else []
      case _ => []
    }

    /** What a step does to the thread and the mutex it is about. */
    twostate predicate Done(s: Step)
      reads s.t, if s.Take? || s.Release? then {s.m} else {}, if s.Delete? then {s.caller} else {}
    {
      match s
      case Take(t, m, timeout) => old(Running(t)) ==> TakeDone(t, m, timeout)
      case Release(t, m) =>
        old(Running(t)) && old(m.owner) == t ==>
          if old(m.hold) > 1 then m.owner == t
          else if old(m.waiters) == [] then m.owner == null
          else m.owner == old(m.waiters)[0] && m.waiters == old(m.waiters)[1..]
      case Timeout(t) =>
        old(t.suspended) && old(t.blockedIn) != null ==> !t.suspended && t.error == ETIMEOUT && t.blockedIn == old(t.blockedIn)
      case Resume(t) => !old(t.suspended) && old(t.blockedIn) != null ==> t.blockedIn == null
      case Delete(t, caller) => !old(t.closed) && old(Running(caller)) ==> t.closed
      case Exit(t) => old(Running(t)) ==> t.closed
      case Sleep(t) => !old(t.suspended) && old(t.blockedIn) == null ==> t.suspended && t.blockedIn == null
      case Wake(t) => old(t.suspended) && old(t.blockedIn) == null ==> !t.suspended && t.blockedIn == null
    }

    twostate predicate TakeDone(t: Thread, m: Mutex, timeout: int)
      reads t, m
    {
      if old(m.owner) == null || (old(m.owner) == t && old(m.hold) < HOLD_MAX) then m.owner == t && m.hold == old(m.hold) + 1
      else if old(m.owner) == t || timeout == 0 then !(t.suspended && t.blockedIn == m)
      else t.suspended && t.blockedIn == m
    }

    /** One step of the system. A step that is not possible in the current state is skipped.
        Only a timeout makes a mutex stale, and only the late clean-up of a stale mutex makes a
        thread stale. The log grows by what this step causes, and nobody who has not moved is overtaken. */
    method Do(s: Step, ghost sm: set<Mutex>, ghost st: set<Thread>) returns (ghost sm': set<Mutex>, ghost st': set<Thread>)
      requires Valid(sm, st) && InSystem(s)
      modifies this`log, this`moment, threads, mutexes
      ensures Valid(sm', st')
      ensures !s.Timeout? && sm == {} ==> sm' == {} && st' == st
      ensures log == old(log) + old(StepEvents(s)) && Done(s)
      ensures Steady(old(moment), moment, threads) && Queued(false)
    {
      SettledSorted(sm);
      sm', st' := Perform(s, sm, st);
      SettledSorted(sm');
      QueuesKept((false, null));
    }

    method Perform(s: Step, ghost sm: set<Mutex>, ghost st: set<Thread>) returns (ghost sm': set<Mutex>, ghost st': set<Thread>)
      requires Valid(sm, st) && InSystem(s)
      modifies this`log, this`moment, threads, mutexes
      ensures Valid(sm', st')
      ensures !s.Timeout? && sm == {} ==> sm' == {} && st' == st
      ensures log == old(log) + old(StepEvents(s)) && Done(s)
      ensures Steady(old(moment), moment, threads)
    {
      sm', st' := sm, st;
      SteadySame(moment, threads);
      var t := s.t;
      match s
      case Take(_, m, timeout) =>
        if !t.suspended && !t.closed && t.blockedIn == null { var r := Take(t, m, timeout, sm, st); }
      case Release(_, m) =>
        if !t.suspended && !t.closed && t.blockedIn == null { var r := Release(t, m, sm, st); }
      case Timeout(_) =>
        if t.suspended && t.blockedIn != null {
          sm' := sm + {t.blockedIn};
          Timeout(t, sm, st);
        }
      case Resume(_) =>
        if !t.suspended && t.blockedIn != null {
          st' := Left(t, t.blockedIn, sm, st);
          ghost var m: Mutex := t.blockedIn;
          var r := Resume(t, sm, st, st');
          if r == EOK { st' := st; } else { sm' := sm - {m}; }
        }
      case Delete(_, caller) =>
        if !t.closed && !caller.suspended && !caller.closed && caller.blockedIn == null {
          assert CallLinks(t);
          if t.pending != null {
            st' := Left(t, t.pending, sm, st);
            sm' := sm - {t.pending};
          }
          Delete(t, caller, sm, st, st');
        }
      case Exit(_) =>
        if !t.suspended && !t.closed && t.blockedIn == null {
          assert CallLinks(t);
          Retire(t, sm, st);
        }
      case Sleep(_) =>
        if !t.suspended && t.blockedIn == null { SetAsleep(t, true, sm, st); }
      case Wake(_) =>
        if t.suspended && t.blockedIn == null { SetAsleep(t, false, sm, st); }
    }

    /** The threads that may be stale after the clean-up for `t` on `m`. */
    ghost function Left(t: Thread, m: Mutex, sm: set<Mutex>, st: set<Thread>): set<Thread>
      reads t`priority, m`owner, if m.owner == null then {} else {m.owner}
    {
      if m in sm && m.owner != null && m.owner.priority != t.priority then st + {m.owner} else st
    }

    /** Nobody but `t` has more takes of `m` than releases. */
    ghost predicate Sole(past: seq<Event>, t: Thread, m: Mutex) {
      forall u :: u in threads && u != t ==> Balance(past, u, m) == 0
    }

    /** What a step may cause when `past` has happened: a take is granted to the one that calls it, if nobody
        else has the mutex; a release is done by one that has it, and the last one may grant it to somebody
        else; a thread that ends releases what it has. */
    ghost predicate Fits(past: seq<Event>, s: Step, es: seq<Event>) {
      es == [] ||
      match s
      case Take(t, m, _) => es == [Granted(t, m)] && Sole(past, t, m) && 0 <= Balance(past, t, m) < HOLD_MAX
      case Release(t, m) =>
        && Sole(past, t, m) && Balance(past, t, m) > 0
        && (es == [Released(t, m)]
            || (Balance(past, t, m) == 1 && |es| == 2 && es[0] == Released(t, m) && es[1].Granted? && es[1].m == m && es[1].t != t))
      case Delete(t, caller) => t == caller && ReleasedBy(es, caller)
      case _ => false
    }

    lemma StepFits(s: Step, sm: set<Mutex>, st: set<Thread>)
      requires Valid(sm, st) && InSystem(s)
      ensures Fits(log, s, StepEvents(s))
    {
      assert TakenLinks(s.t);
      match s
      case Take(t, m, _) => OwnerInLog(t, m);
      case Release(t, m) =>
        OwnerInLog(t, m);
        assert WaitLinks(m);
      case Delete(t, caller) =>
        if t == caller { EventsOfCaller(Book(), caller, t.taken); } else { NoEvents(Book(), caller, t.taken); }
      case _ =>
    }

    /** The log says who owns what. */
    lemma OwnerInLog(t: Thread, m: Mutex)
      requires Owners() && Accounted() && t in threads && m in mutexes
      ensures Balance(log, t, m) == if m.owner == t then m.hold else 0
      ensures m.owner == t <==> Balance(log, t, m) > 0
      ensures m.owner == t || m.owner == null ==> Sole(log, t, m)
    {
      assert OwnerLinks(m);
      assert Balance(log, t, m) == Share(t, m);
      forall u | u in threads ensures Balance(log, u, m) == Share(u, m) {
      }
    }

    /** Each part of a log is what its step may cause after the parts before it. */
    ghost predicate Lawful(past: seq<Event>, schedule: seq<Step>, parts: seq<seq<Event>>) {
      && |parts| == |schedule|
      && forall i :: 0 <= i < |schedule| ==> Fits(past + Concat(parts[..i]), schedule[i], parts[i])
    }

    lemma LawfulMore(past: seq<Event>, schedule: seq<Step>, parts: seq<seq<Event>>, s: Step, part: seq<Event>)
      requires Lawful(past, schedule, parts) && Fits(past + Concat(parts), s, part)
      ensures Lawful(past, schedule + [s], parts + [part])
      ensures past + Concat(parts + [part]) == past + Concat(parts) + part
    {
      var all := parts + [part];
      assert all[..|parts|] == parts;
      forall i | 0 <= i < |schedule + [s]| ensures Fits(past + Concat(all[..i]), (schedule + [s])[i], all[i]) {
        if i < |schedule| { assert all[..i] == parts[..i]; }
      }
    }

    /** Every run, of any threads on any mutexes in any order, keeps the invariant; a run
        without timeouts keeps every priority exact. The log of a run is what its steps cause, in their order. */
    method Run(schedule: seq<Step>) returns (ghost sm: set<Mutex>, ghost st: set<Thread>, ghost parts: seq<seq<Event>>)
      requires Exact() && forall i :: 0 <= i < |schedule| ==> InSystem(schedule[i])
      modifies this`log, this`moment, threads, mutexes
      ensures Valid(sm, st)
      ensures (forall i :: 0 <= i < |schedule| ==> !schedule[i].Timeout?) ==> Exact()
      ensures Lawful(old(log), schedule, parts) && log == old(log) + Concat(parts)
    {
      sm, st, parts := {}, {}, [];
      ghost var past := log;
      assert schedule[..0] == [];
      for n := 0 to |schedule|
        invariant Valid(sm, st)
        invariant (forall i :: 0 <= i < n ==> !schedule[i].Timeout?) ==> sm == {} && st == {}
        invariant Lawful(past, schedule[..n], parts) && log == past + Concat(parts)
      {
        StepFits(schedule[n], sm, st);
        LawfulMore(past, schedule[..n], parts, schedule[n], StepEvents(schedule[n]));
        assert schedule[..n] + [schedule[n]] == schedule[..n + 1];
        parts := parts + [StepEvents(schedule[n])];
        sm, st := Do(schedule[n], sm, st);
      }
      assert schedule[..|schedule|] == schedule;
    }

    // ---- What the invariant means ---------------------------------------------------------------

    /** Each thread of `c` waits for a mutex that the thread before it owns. */
    ghost predicate Chain(c: seq<Thread>)
      reads threads, mutexes
    {
      && c != [] && (forall t :: t in c ==> t in threads)
      && forall i :: 0 < i < |c| ==> WaitsFor(c[i], c[i - 1])
    }

    ghost predicate WaitsFor(t: Thread, owner: Thread)
      reads t, mutexes
    {
      t.suspended && t.blockedIn != null && t.blockedIn in mutexes && t.blockedIn.owner == owner
    }

    /** No priority inversion, through any chain of blocked owners, timeouts or not. */
    lemma {:induction false} NoInversion(c: seq<Thread>, sm: set<Mutex>, st: set<Thread>)
      requires Valid(sm, st) && Chain(c)
      ensures c[0].priority <= c[|c| - 1].priority <= c[|c| - 1].initPriority
    {
      var n := |c| - 1;
      assert SettledThread(c[n], c[n] in st);
      if n > 0 {
        NoInversion(c[..n], sm, st);
        var w, m := c[n], c[n].blockedIn;
        assert WaitsFor(w, c[n - 1]) && CallLinks(w) && OwnerLinks(m);
        assert SettledThread(c[n - 1], c[n - 1] in st) && SettledMutex(m, m in sm);
        var i :| 0 <= i < |m.waiters| && m.waiters[i] == w;
        assert m.waiters[0].priority <= w.priority;
      }
    }

    /** The waiter from which a thread has its priority. */
    lemma InheritsFrom(t: Thread) returns (w: Thread)
      requires Exact() && t in threads && t.priority != t.initPriority
      ensures w in threads && WaitsFor(w, t) && w.priority == t.priority
    {
      assert SettledThread(t, false);
      var m :| m in t.taken && m.priority == t.priority;
      assert TakenLinks(t) && SettledMutex(m, false) && WaitLinks(m);
      assert m.waiters != [] by { assert Bounded(); }
      w := m.waiters[0];
      assert w in m.waiters;
    }

    lemma ChainMore(t: Thread, rest: seq<Thread>)
      requires t in threads && Chain(rest) && WaitsFor(rest[0], t)
      ensures Chain([t] + rest)
    {
      var c := [t] + rest;
      forall i | 0 < i < |c| ensures WaitsFor(c[i], c[i - 1]) {
        if i > 1 { assert WaitsFor(rest[i - 1], rest[i - 2]); }
      }
    }

    /** And nobody is more urgent than that: without timeouts and without deadlock, the priority
        of `t` is the initial priority of somebody who waits behind it, or its own. `rank` says
        that there is no deadlock. */
    lemma {:induction false} PriorityIsInherited(t: Thread, rank: map<Thread, nat>) returns (c: seq<Thread>)
      requires Exact() && t in threads
      requires forall x :: x in threads ==> x in rank
      requires forall x, y :: x in threads && y in threads && WaitsFor(x, y) ==> rank[x] < rank[y]
      ensures Chain(c) && c[0] == t && c[|c| - 1].initPriority == t.priority
      decreases rank[t]
    {
      c := [t];
      assert SettledThread(t, false);
      if t.priority != t.initPriority {
        var w := InheritsFrom(t);
        var rest := PriorityIsInherited(w, rank);
        c := [t] + rest;
        ChainMore(t, rest);
      }
    }
  }
}
