/** The message queue of rt-thread/src/ipc.c: a pool of nodes that move between a free list, the
    queue and threads that are between two lock sections. Each step below is one lock section, or
    the part of a call that runs without the lock; threads may be interleaved between any two. */
module MessageQueue {
  import opened Basics

  const ENTRY_MAX: nat := 0xFFFF

  // ---- What a run means ----------------------------------------------------------------------------

  datatype Event =
    | Sent(data: seq<int>, urgent: bool)
    | Taken(thread: nat, size: nat)
    | Received(thread: nat, bytes: seq<int>)
    | WasReset

  /** A queue of messages, and what each thread that has taken a message is about to return. */
  datatype Abstract = Abstract(messages: seq<seq<int>>, held: map<nat, seq<int>>)

  function Truncated(message: seq<int>, size: nat): seq<int> {
    if |message| > size then message[..size] else message
  }

  /** The effect of an event; None when it may not happen. */
  function Apply(a: Abstract, e: Event): Option<Abstract> {
    match e
    case Sent(data, urgent) =>
      Some(a.(messages := if urgent then [data] + a.messages else a.messages + [data]))
    case Taken(thread, size) =>
      if |a.messages| == 0 || thread in a.held then None
      else Some(Abstract(a.messages[1..], a.held[thread := Truncated(a.messages[0], size)]))
    case Received(thread, bytes) =>
      if thread !in a.held || a.held[thread] != bytes then None
      else Some(a.(held := a.held - {thread}))
    case WasReset => Some(a.(messages := []))
  }

  function Replay(log: seq<Event>): Option<Abstract> {
    if |log| == 0 then Some(Abstract([], map[]))
    else
      var before := Replay(log[..|log| - 1]);
      if before.None? then None else Apply(before.value, log[|log| - 1])
  }

  lemma ReplayOne(log: seq<Event>, e: Event)
    requires Replay(log).Some?
    ensures Replay(log + [e]) == Apply(Replay(log).value, e)
  {
    assert (log + [e])[..|log|] == log;
  }

  // ---- The pool -------------------------------------------------------------------------------------

  // A node is its number in the pool.
  const NULL: int := -1

  /** The memory of the pool: for each node its `next`, its `length` and the bytes behind its header. */
  datatype Pool = Pool(next: seq<int>, length: seq<nat>, body: seq<seq<int>>)

  /** Where a thread is between its lock sections. */
  datatype Progress =
    | Filling(msg: nat, data: seq<int>, urgent: bool)
    | Filled(msg: nat, data: seq<int>, urgent: bool)
    | Fetched(msg: nat, size: nat)
    | Copied(msg: nat, bytes: seq<int>)

  /** The one place where a node is: its height in the free list, its number in the queue, or the
      thread that holds it. */
  datatype Place = Free(height: nat) | Queued(number: int) | With(thread: nat)

  /** The free list, the queue, whose first message has number `first`, and the place of every node. */
  datatype Places = Places(frees: seq<nat>, queue: seq<nat>, first: int, place: seq<Place>)

  ghost predicate Partition(p: Places, threads: map<nat, Progress>) {
    && (forall i :: 0 <= i < |p.frees| ==> p.frees[i] < |p.place| && p.place[p.frees[i]] == Free(|p.frees| - 1 - i))
    && (forall i :: 0 <= i < |p.queue| ==> p.queue[i] < |p.place| && p.place[p.queue[i]] == Queued(p.first + i))
    && (forall t :: t in threads ==> threads[t].msg < |p.place| && p.place[threads[t].msg] == With(t))
    && (forall n :: 0 <= n < |p.place| ==> Accounted(n, p, threads))
  }

  ghost predicate Accounted(n: nat, p: Places, threads: map<nat, Progress>)
    requires n < |p.place|
  {
    match p.place[n]
    case Free(k) => k < |p.frees| && p.frees[|p.frees| - 1 - k] == n
    case Queued(k) => 0 <= k - p.first < |p.queue| && p.queue[k - p.first] == n
    case With(t) => t in threads && threads[t].msg == n
  }

  function First(s: seq<nat>): int {
    if |s| == 0 then NULL else s[0]
  }

  function Last(s: seq<nat>): int {
    if |s| == 0 then NULL else s[|s| - 1]
  }

  function NextOf(s: seq<nat>, i: nat): int
    requires i < |s|
  {
    if i + 1 < |s| then s[i + 1] else NULL
  }

  ghost predicate Linked(s: seq<nat>, next: seq<int>) {
    forall i :: 0 <= i < |s| ==> s[i] < |next| && next[s[i]] == NextOf(s, i)
  }

  predicate Sized(pool: Pool, count: nat, size: nat) {
    && |pool.next| == |pool.length| == |pool.body| == count
    && forall n :: 0 <= n < count ==> |pool.body[n]| == size && pool.length[n] <= size
  }

  /** The message in a node. */
  function Text(pool: Pool, n: nat): seq<int>
    requires n < |pool.length| && n < |pool.body|
  {
    if pool.length[n] <= |pool.body[n]| then pool.body[n][..pool.length[n]] else []
  }

  ghost predicate Contents(queue: seq<nat>, pool: Pool, messages: seq<seq<int>>) {
    && |messages| == |queue|
    && forall i :: 0 <= i < |queue| ==>
         queue[i] < |pool.length| && queue[i] < |pool.body| && Text(pool, queue[i]) == messages[i]
  }

  /** What a thread knows about the node it holds. */
  ghost predicate Working(p: Progress, t: nat, pool: Pool, held: map<nat, seq<int>>, size: nat) {
    && p.msg < |pool.next| && p.msg < |pool.length| && p.msg < |pool.body|
    && match p
       case Filling(msg, data, urgent) => |data| <= size && t !in held
       case Filled(msg, data, urgent) => Text(pool, msg) == data && (urgent || pool.next[msg] == NULL) && t !in held
       case Fetched(msg, n) => t in held && held[t] == Truncated(Text(pool, msg), n)
       case Copied(msg, bytes) => t in held && held[t] == bytes
  }

  ghost predicate AllWorking(threads: map<nat, Progress>, pool: Pool, held: map<nat, seq<int>>, size: nat) {
    && held.Keys <= threads.Keys
    && forall t :: t in threads ==> Working(threads[t], t, pool, held, size)
  }

  // ---- How the partition moves ---------------------------------------------------------------------------

  /** `n` is neither in the free list nor in the queue. */
  ghost predicate Outside(n: int, p: Places) {
    && (forall i :: 0 <= i < |p.frees| ==> p.frees[i] != n)
    && (forall i :: 0 <= i < |p.queue| ==> p.queue[i] != n)
  }

  /** Nobody else has the node of a thread. */
  lemma OnlyThread(p: Places, threads: map<nat, Progress>, t: nat)
    requires Partition(p, threads) && t in threads
    ensures Outside(threads[t].msg, p)
    ensures forall u :: u in threads && u != t ==> threads[u].msg != threads[t].msg
  {
  }

  /** Nobody else has a node of the queue. */
  lemma OnlyQueue(p: Places, threads: map<nat, Progress>, j: nat)
    requires Partition(p, threads) && j < |p.queue|
    ensures forall i :: 0 <= i < |p.frees| ==> p.frees[i] != p.queue[j]
    ensures forall i :: 0 <= i < |p.queue| && i != j ==> p.queue[i] != p.queue[j]
    ensures forall u :: u in threads ==> threads[u].msg != p.queue[j]
  {
  }

  ghost function Acquired(p: Places, t: nat): Places
    requires |p.frees| > 0 && p.frees[0] < |p.place|
  {
    p.(frees := p.frees[1..], place := p.place[p.frees[0] := With(t)])
  }

  lemma AcquirePartition(p: Places, threads: map<nat, Progress>, t: nat, progress: Progress)
    requires Partition(p, threads) && t !in threads && |p.frees| > 0 && progress.msg == p.frees[0]
    ensures Partition(Acquired(p, t), threads[t := progress])
  {
    var q, after := Acquired(p, t), threads[t := progress];
    forall n | 0 <= n < |q.place| ensures Accounted(n, q, after) { assert Accounted(n, p, threads); }
  }

  /** The node of thread `t` goes into the queue, to the head or to the tail. */
  ghost function Linking(p: Places, n: nat, urgent: bool): Places
    requires n < |p.place|
  {
    if urgent then p.(queue := [n] + p.queue, first := p.first - 1, place := p.place[n := Queued(p.first - 1)])
    else p.(queue := p.queue + [n], place := p.place[n := Queued(p.first + |p.queue|)])
  }

  lemma LinkPartition(p: Places, threads: map<nat, Progress>, t: nat, urgent: bool)
    requires Partition(p, threads) && t in threads
    ensures Partition(Linking(p, threads[t].msg, urgent), threads - {t})
  {
    var q := Linking(p, threads[t].msg, urgent);
    OnlyThread(p, threads, t);
    forall n | 0 <= n < |q.place| ensures Accounted(n, q, threads - {t}) { assert Accounted(n, p, threads); }
  }

  ghost function Fetching(p: Places, t: nat): Places
    requires |p.queue| > 0 && p.queue[0] < |p.place|
  {
    p.(queue := p.queue[1..], first := p.first + 1, place := p.place[p.queue[0] := With(t)])
  }

  lemma FetchPartition(p: Places, threads: map<nat, Progress>, t: nat, progress: Progress)
    requires Partition(p, threads) && t !in threads && |p.queue| > 0 && progress.msg == p.queue[0]
    ensures Partition(Fetching(p, t), threads[t := progress])
  {
    var q, after := Fetching(p, t), threads[t := progress];
    forall n | 0 <= n < |q.place| ensures Accounted(n, q, after) { assert Accounted(n, p, threads); }
  }

  ghost function Releasing(p: Places, n: nat): Places
    requires n < |p.place|
  {
    p.(frees := [n] + p.frees, place := p.place[n := Free(|p.frees|)])
  }

  lemma ReleasePartition(p: Places, threads: map<nat, Progress>, t: nat)
    requires Partition(p, threads) && t in threads
    ensures Partition(Releasing(p, threads[t].msg), threads - {t})
  {
    var q := Releasing(p, threads[t].msg);
    OnlyThread(p, threads, t);
    forall n | 0 <= n < |q.place| ensures Accounted(n, q, threads - {t}) { assert Accounted(n, p, threads); }
  }

  /** A message of the queue goes straight to the free list. */
  ghost function Dropping(p: Places): Places
    requires |p.queue| > 0 && p.queue[0] < |p.place|
  {
    p.(frees := [p.queue[0]] + p.frees, queue := p.queue[1..], first := p.first + 1, place := p.place[p.queue[0] := Free(|p.frees|)])
  }

  lemma DropPartition(p: Places, threads: map<nat, Progress>)
    requires Partition(p, threads) && |p.queue| > 0
    ensures Partition(Dropping(p), threads)
  {
    var q := Dropping(p);
    forall n | 0 <= n < |q.place| ensures Accounted(n, q, threads) { assert Accounted(n, p, threads); }
  }

  lemma SamePartition(p: Places, threads: map<nat, Progress>, t: nat, progress: Progress)
    requires Partition(p, threads) && t in threads && progress.msg == threads[t].msg
    ensures Partition(p, threads[t := progress])
  {
    var after := threads[t := progress];
    forall n | 0 <= n < |p.place| ensures Accounted(n, p, after) { assert Accounted(n, p, threads); }
  }

  /** While a thread holds a node, the queue is not full. */
  lemma {:induction false} RoomForOne(p: Places, threads: map<nat, Progress>, t: nat)
    requires Partition(p, threads) && t in threads
    ensures |p.queue| < |p.place|
  {
    OnlyThread(p, threads, t);
    var queued := set i: nat | i < |p.queue| :: p.queue[i];
    QueueCount(p, threads, |p.queue|);
    var others := Below(|p.place|) - {threads[t].msg};
    assert queued <= others;
    Fewer(queued, others);
  }

  ghost function Below(k: nat): (r: set<nat>)
    ensures |r| == k && forall n: nat :: n in r <==> n < k
  {
    if k == 0 then {} else Below(k - 1) + {k - 1}
  }

  lemma Fewer(a: set<nat>, b: set<nat>)
    requires a <= b
    ensures |a| <= |b|
  {
    assert b == a + (b - a);
  }

  lemma {:induction false} QueueCount(p: Places, threads: map<nat, Progress>, k: nat)
    requires Partition(p, threads) && k <= |p.queue|
    ensures |set i: nat | i < k :: p.queue[i]| == k
  {
    if k > 0 {
      QueueCount(p, threads, k - 1);
      OnlyQueue(p, threads, k - 1);
      assert (set i: nat | i < k :: p.queue[i]) == (set i: nat | i < k - 1 :: p.queue[i]) + {p.queue[k - 1]};
    }
  }

  // ---- How the lists are linked -----------------------------------------------------------------------------

  lemma RestOf(s: seq<nat>, next: seq<int>)
    requires |s| > 0 && Linked(s, next)
    ensures Linked(s[1..], next) && next[s[0]] == First(s[1..])
  {
    forall i | 0 <= i < |s[1..]| ensures next[s[1..][i]] == NextOf(s[1..], i) { assert next[s[i + 1]] == NextOf(s, i + 1); }
  }

  lemma PushFront(s: seq<nat>, next: seq<int>, n: nat)
    requires Linked(s, next) && n < |next| && forall i :: 0 <= i < |s| ==> s[i] != n
    ensures Linked([n] + s, next[n := First(s)])
  {
    forall i | 0 <= i < |[n] + s| ensures next[n := First(s)][([n] + s)[i]] == NextOf([n] + s, i) {
      if i > 0 { assert next[s[i - 1]] == NextOf(s, i - 1); }
    }
  }

  lemma PushBack(s: seq<nat>, next: seq<int>, n: nat)
    requires Linked(s, next) && n < |next| && next[n] == NULL
    requires forall i :: 0 <= i < |s| ==> s[i] != n
    requires forall i :: 0 <= i < |s| - 1 ==> s[i] != s[|s| - 1]
    ensures Linked(s + [n], if |s| == 0 then next else next[s[|s| - 1] := n])
  {
    var after := if |s| == 0 then next else next[s[|s| - 1] := n];
    forall i | 0 <= i < |s + [n]| ensures after[(s + [n])[i]] == NextOf(s + [n], i) {
      if i < |s| { assert next[s[i]] == NextOf(s, i); }
    }
  }

  lemma LinkedElsewhere(s: seq<nat>, next: seq<int>, n: nat, v: int)
    requires Linked(s, next) && n < |next| && forall i :: 0 <= i < |s| ==> s[i] != n
    ensures Linked(s, next[n := v])
  {
  }

  // ---- Writing a message ----------------------------------------------------------------------------------

  function Write(pool: Pool, n: nat, data: seq<int>, urgent: bool): Pool
    requires n < |pool.next| && n < |pool.length| && n < |pool.body| && |data| <= |pool.body[n]|
  {
    Pool(if urgent then pool.next else pool.next[n := NULL], pool.length[n := |data|],
         pool.body[n := data + pool.body[n][|data|..]])
  }

  lemma WriteText(pool: Pool, n: nat, data: seq<int>, urgent: bool, count: nat, size: nat)
    requires Sized(pool, count, size) && n < count && |data| <= size
    ensures Sized(Write(pool, n, data, urgent), count, size) && Text(Write(pool, n, data, urgent), n) == data
    ensures forall m :: 0 <= m < count && m != n ==> Text(Write(pool, n, data, urgent), m) == Text(pool, m)
  {
    assert (data + pool.body[n][|data|..])[..|data|] == data;
  }

  lemma WriteContents(queue: seq<nat>, pool: Pool, after: Pool, messages: seq<seq<int>>, count: nat)
    requires Contents(queue, pool, messages) && |pool.length| == |pool.body| == |after.length| == |after.body| == count
    requires forall i :: 0 <= i < |queue| ==> queue[i] < count && Text(after, queue[i]) == Text(pool, queue[i])
    ensures Contents(queue, after, messages)
  {
  }

  /** A thread goes on with its node while the nodes of the others stay as they are. */
  lemma OthersWork(threads: map<nat, Progress>, t: nat, progress: Progress, pool: Pool, after: Pool, held: map<nat, seq<int>>, size: nat)
    requires AllWorking(threads, pool, held, size) && t in threads && Working(progress, t, after, held, size)
    requires forall u :: u in threads && u != t ==> Same(threads[u].msg, pool, after)
    ensures AllWorking(threads[t := progress], after, held, size)
  {
    forall u | u in threads && u != t ensures Working(threads[u], u, after, held, size) {
      assert Working(threads[u], u, pool, held, size) && Same(threads[u].msg, pool, after);
    }
  }

  /** A thread is done with its node. */
  lemma OthersStay(threads: map<nat, Progress>, t: nat, pool: Pool, after: Pool, held: map<nat, seq<int>>, size: nat)
    requires AllWorking(threads, pool, held, size) && t in threads
    requires forall u :: u in threads && u != t ==> Same(threads[u].msg, pool, after)
    ensures AllWorking(threads - {t}, after, held - {t}, size)
  {
    forall u | u in threads && u != t ensures Working(threads[u], u, after, held - {t}, size) {
      assert Working(threads[u], u, pool, held, size) && Same(threads[u].msg, pool, after);
    }
  }

  /** A thread takes a node. */
  lemma OthersWithNew(threads: map<nat, Progress>, t: nat, progress: Progress, pool: Pool, held: map<nat, seq<int>>, bytes: seq<int>, size: nat)
    requires AllWorking(threads, pool, held, size) && t !in threads && Working(progress, t, pool, held[t := bytes], size)
    ensures AllWorking(threads[t := progress], pool, held[t := bytes], size)
  {
    forall u | u in threads ensures Working(threads[u], u, pool, held[t := bytes], size) {
      assert Working(threads[u], u, pool, held, size);
    }
  }

  ghost predicate Same(n: nat, pool: Pool, after: Pool) {
    && |pool.next| == |after.next| && |pool.length| == |after.length| && |pool.body| == |after.body|
    && n < |pool.next| && n < |pool.length| && n < |pool.body|
    && pool.next[n] == after.next[n] && Text(pool, n) == Text(after, n)
  }

  // ---- Steps of the whole queue -------------------------------------------------------------------------

  /** The fields of a message queue and, between lock sections, the threads that use it. */
  datatype Fields = Fields(pool: Pool, entry: nat, head: int, tail: int, free: int, threads: map<nat, Progress>)

  /** Where the nodes are, and what the run so far means. */
  datatype View = View(places: Places, state: Abstract, log: seq<Event>)

  ghost predicate Lists(f: Fields, p: Places) {
    && Linked(p.frees, f.pool.next) && f.free == First(p.frees)
    && Linked(p.queue, f.pool.next) && f.head == First(p.queue) && f.tail == Last(p.queue)
    && f.entry == |p.queue|
  }

  ghost predicate Good(f: Fields, v: View, count: nat, size: nat) {
    && count <= ENTRY_MAX && |v.places.place| == count && Sized(f.pool, count, size)
    && Partition(v.places, f.threads)
    && Lists(f, v.places)
    && Contents(v.places.queue, f.pool, v.state.messages)
    && AllWorking(f.threads, f.pool, v.state.held, size)
    && Replay(v.log) == Some(v.state)
  }

  lemma AcquireGood(f: Fields, v: View, count: nat, size: nat, t: nat, progress: Progress)
    requires Good(f, v, count, size) && t !in f.threads && f.free != NULL
    requires progress.Filling? && progress.msg == f.free && |progress.data| <= size
    ensures f.free == v.places.frees[0] && f.free < |f.pool.next|
    ensures Good(f.(free := f.pool.next[f.free], threads := f.threads[t := progress]),
                 v.(places := Acquired(v.places, t)), count, size)
  {
    RestOf(v.places.frees, f.pool.next);
    AcquirePartition(v.places, f.threads, t, progress);
  }

  lemma FillGood(f: Fields, v: View, count: nat, size: nat, t: nat, after: Progress)
    requires Good(f, v, count, size) && t in f.threads && f.threads[t].Filling?
    requires after == Filled(f.threads[t].msg, f.threads[t].data, f.threads[t].urgent)
    ensures after.msg < count && |after.data| <= size
    ensures Good(f.(pool := Write(f.pool, after.msg, after.data, after.urgent), threads := f.threads[t := after]), v, count, size)
  {
    assert Working(f.threads[t], t, f.pool, v.state.held, size);
    var pool := Write(f.pool, after.msg, after.data, after.urgent);
    OnlyThread(v.places, f.threads, t);
    SamePartition(v.places, f.threads, t, after);
    LinkedElsewhere(v.places.frees, f.pool.next, after.msg, NULL);
    LinkedElsewhere(v.places.queue, f.pool.next, after.msg, NULL);
    WriteText(f.pool, after.msg, after.data, after.urgent, count, size);
    WriteContents(v.places.queue, f.pool, pool, v.state.messages, count);
    OthersWork(f.threads, t, after, f.pool, pool, v.state.held, size);
  }

  /** The fields after a node has been linked. */
  function LinkNode(f: Fields, t: nat): Fields
    requires t in f.threads && f.threads[t].Filled? && f.threads[t].msg < |f.pool.next| && NULL <= f.tail < |f.pool.next|
  {
    var msg := f.threads[t].msg;
    if f.threads[t].urgent then
      f.(pool := f.pool.(next := f.pool.next[msg := f.head]), entry := f.entry + 1,
         head := msg, tail := if f.tail == NULL then msg else f.tail, threads := f.threads - {t})
    else
      f.(pool := f.pool.(next := if f.tail == NULL then f.pool.next else f.pool.next[f.tail := msg]), entry := f.entry + 1,
         head := if f.head == NULL then msg else f.head, tail := msg, threads := f.threads - {t})
  }

  ghost function LinkView(v: View, n: nat, sent: Event): View
    requires sent.Sent? && n < |v.places.place|
  {
    View(Linking(v.places, n, sent.urgent), Apply(v.state, sent).value, v.log + [sent])
  }

  lemma LinkGood(f: Fields, v: View, count: nat, size: nat, t: nat)
    requires Good(f, v, count, size) && t in f.threads && f.threads[t].Filled?
    ensures f.threads[t].msg < count && NULL <= f.tail < count && f.entry < ENTRY_MAX && |f.pool.next| == count
    ensures t !in v.state.held
    ensures Good(LinkNode(f, t), LinkView(v, f.threads[t].msg, Sent(f.threads[t].data, f.threads[t].urgent)), count, size)
  {
    var msg, data, urgent := f.threads[t].msg, f.threads[t].data, f.threads[t].urgent;
    assert Working(f.threads[t], t, f.pool, v.state.held, size);
    var p := v.places;
    var next := if urgent then f.pool.next[msg := f.head] else if f.tail == NULL then f.pool.next else f.pool.next[f.tail := msg];
    LinkMemory(p, f.threads, t, urgent, f.pool, next);
    LinkWorking(p, f.threads, t, urgent, f.pool, next, v.state.held, size);
    LinkPartition(p, f.threads, t, urgent);
    RoomForOne(p, f.threads, t);
    LinkContents(p.queue, f.pool, next, v.state.messages, msg, data, urgent);
    ReplayOne(v.log, Sent(data, urgent));
    var g, w := LinkNode(f, t), LinkView(v, msg, Sent(data, urgent));
    assert g.pool == f.pool.(next := next) && g.threads == f.threads - {t};
    assert Lists(g, w.places);
  }

  /** The fields after the head has been taken for a thread. */
  function FetchNode(f: Fields, t: nat, progress: Progress): Fields
    requires 0 <= f.head < |f.pool.next| && f.entry > 0
  {
    f.(head := f.pool.next[f.head], tail := if f.tail == f.head then NULL else f.tail, entry := f.entry - 1,
       threads := f.threads[t := progress])
  }

  ghost function FetchView(v: View, t: nat, size: nat): View
    requires |v.places.queue| > 0 && v.places.queue[0] < |v.places.place| && Apply(v.state, Taken(t, size)).Some?
  {
    View(Fetching(v.places, t), Apply(v.state, Taken(t, size)).value, v.log + [Taken(t, size)])
  }

  lemma FetchGood(f: Fields, v: View, count: nat, size: nat, t: nat, n: nat)
    requires Good(f, v, count, size) && t !in f.threads && f.entry > 0
    ensures 0 <= f.head < count && |f.pool.next| == count && |v.places.queue| > 0 && v.places.queue[0] == f.head < |v.places.place|
    ensures Apply(v.state, Taken(t, n)).Some? && t !in v.state.held
    ensures Good(FetchNode(f, t, Fetched(f.head, n)), FetchView(v, t, n), count, size)
  {
    var queue, held := v.places.queue, v.state.held;
    OnlyQueue(v.places, f.threads, 0);
    RestOf(queue, f.pool.next);
    FetchPartition(v.places, f.threads, t, Fetched(f.head, n));
    OthersWithNew(f.threads, t, Fetched(f.head, n), f.pool, held, Truncated(v.state.messages[0], n), size);
    ReplayOne(v.log, Taken(t, n));
  }

  lemma CopyGood(f: Fields, v: View, count: nat, size: nat, t: nat)
    requires Good(f, v, count, size) && t in f.threads && f.threads[t].Fetched?
    ensures var msg := f.threads[t].msg;
      && msg < |f.pool.length| && msg < |f.pool.body| && f.pool.length[msg] <= |f.pool.body[msg]|
      && t in v.state.held && v.state.held[t] == Truncated(Text(f.pool, msg), f.threads[t].size)
      && Good(f.(threads := f.threads[t := Copied(msg, Truncated(Text(f.pool, msg), f.threads[t].size))]), v, count, size)
  {
    var msg := f.threads[t].msg;
    assert Working(f.threads[t], t, f.pool, v.state.held, size);
    var after := Copied(msg, Truncated(Text(f.pool, msg), f.threads[t].size));
    SamePartition(v.places, f.threads, t, after);
    forall u | u in f.threads && u != t ensures Same(f.threads[u].msg, f.pool, f.pool) {
      assert Working(f.threads[u], u, f.pool, v.state.held, size);
    }
    OthersWork(f.threads, t, after, f.pool, f.pool, v.state.held, size);
  }

  /** The fields after a node has gone back to the free list. */
  function ReleaseNode(f: Fields, t: nat): Fields
    requires t in f.threads && f.threads[t].msg < |f.pool.next|
  {
    var msg := f.threads[t].msg;
    f.(pool := f.pool.(next := f.pool.next[msg := f.free]), free := msg, threads := f.threads - {t})
  }

  ghost function ReleaseView(v: View, n: nat, t: nat): View
    requires n < |v.places.place| && t in v.state.held
  {
    var got := Received(t, v.state.held[t]);
    View(Releasing(v.places, n), v.state.(held := v.state.held - {t}), v.log + [got])
  }

  lemma ReleaseGood(f: Fields, v: View, count: nat, size: nat, t: nat)
    requires Good(f, v, count, size) && t in f.threads && f.threads[t].Copied?
    ensures f.threads[t].msg < count == |f.pool.next| && t in v.state.held && v.state.held[t] == f.threads[t].bytes
    ensures Good(ReleaseNode(f, t), ReleaseView(v, f.threads[t].msg, t), count, size)
  {
    var msg, p, held := f.threads[t].msg, v.places, v.state.held;
    assert Working(f.threads[t], t, f.pool, held, size);
    OnlyThread(p, f.threads, t);
    var next := f.pool.next[msg := f.free];
    PushFront(p.frees, f.pool.next, msg);
    LinkedElsewhere(p.queue, f.pool.next, msg, f.free);
    ReleaseWorking(f.threads, t, f.pool, next, held, size);
    ReleasePartition(p, f.threads, t);
    SameContents(p.queue, f.pool, next, v.state.messages);
    ReplayOne(v.log, Received(t, held[t]));
  }

  lemma ReleaseWorking(threads: map<nat, Progress>, t: nat, pool: Pool, next: seq<int>, held: map<nat, seq<int>>, size: nat)
    requires AllWorking(threads, pool, held, size) && t in threads && |next| == |pool.next|
    requires forall n :: 0 <= n < |next| && n != threads[t].msg ==> next[n] == pool.next[n]
    requires forall u :: u in threads && u != t ==> threads[u].msg != threads[t].msg
    ensures AllWorking(threads - {t}, pool.(next := next), held - {t}, size)
  {
    forall u | u in threads && u != t ensures Same(threads[u].msg, pool, pool.(next := next)) {
      assert Working(threads[u], u, pool, held, size);
    }
    OthersStay(threads, t, pool, pool.(next := next), held, size);
  }

  lemma SameContents(queue: seq<nat>, pool: Pool, next: seq<int>, messages: seq<seq<int>>)
    requires Contents(queue, pool, messages)
    ensures Contents(queue, pool.(next := next), messages)
  {
    assert forall m: nat :: m < |pool.length| && m < |pool.body| ==> Text(pool.(next := next), m) == Text(pool, m);
  }

  lemma LinkMemory(p: Places, threads: map<nat, Progress>, t: nat, urgent: bool, pool: Pool, next: seq<int>)
    requires Partition(p, threads) && t in threads && threads[t].msg < |pool.next|
    requires Linked(p.frees, pool.next) && Linked(p.queue, pool.next) && (urgent || pool.next[threads[t].msg] == NULL)
    requires next == if urgent then pool.next[threads[t].msg := First(p.queue)]
                     else if |p.queue| > 0 then pool.next[Last(p.queue) := threads[t].msg] else pool.next
    ensures Linked(p.frees, next) && Linked(Linking(p, threads[t].msg, urgent).queue, next)
  {
    OnlyThread(p, threads, t);
    if |p.queue| > 0 { OnlyQueue(p, threads, |p.queue| - 1); }
    if urgent {
      PushFront(p.queue, pool.next, threads[t].msg);
    } else {
      PushBack(p.queue, pool.next, threads[t].msg);
    }
  }

  lemma LinkWorking(p: Places, threads: map<nat, Progress>, t: nat, urgent: bool, pool: Pool, next: seq<int>, held: map<nat, seq<int>>, size: nat)
    requires Partition(p, threads) && t in threads && t !in held && AllWorking(threads, pool, held, size)
    requires threads[t].msg < |pool.next| && Linked(p.queue, pool.next)
    requires next == if urgent then pool.next[threads[t].msg := First(p.queue)]
                     else if |p.queue| > 0 then pool.next[Last(p.queue) := threads[t].msg] else pool.next
    ensures AllWorking(threads - {t}, pool.(next := next), held, size)
  {
    OnlyThread(p, threads, t);
    if |p.queue| > 0 { OnlyQueue(p, threads, |p.queue| - 1); }
    forall u | u in threads && u != t ensures Same(threads[u].msg, pool, pool.(next := next)) {
      assert Working(threads[u], u, pool, held, size);
    }
    OthersStay(threads, t, pool, pool.(next := next), held, size);
    assert held - {t} == held;
  }

  lemma LinkContents(queue: seq<nat>, pool: Pool, next: seq<int>, messages: seq<seq<int>>, n: nat, data: seq<int>, urgent: bool)
    requires Contents(queue, pool, messages) && n < |pool.length| && n < |pool.body| && Text(pool, n) == data
    ensures urgent ==> Contents([n] + queue, pool.(next := next), [data] + messages)
    ensures !urgent ==> Contents(queue + [n], pool.(next := next), messages + [data])
  {
    assert forall m: nat :: m < |pool.length| && m < |pool.body| ==> Text(pool.(next := next), m) == Text(pool, m);
  }

  // ---- The reset -------------------------------------------------------------------------------------------

  /** What holds while the messages of the queue are put back one by one. */
  ghost predicate Draining(pool: Pool, head: int, tail: int, free: int, threads: map<nat, Progress>, p: Places, held: map<nat, seq<int>>, count: nat, size: nat) {
    && |p.place| == count && Sized(pool, count, size) && Partition(p, threads) && AllWorking(threads, pool, held, size)
    && Linked(p.frees, pool.next) && free == First(p.frees)
    && Linked(p.queue, pool.next) && head == First(p.queue) && tail == Last(p.queue)
  }

  lemma DropOne(pool: Pool, head: int, tail: int, free: int, threads: map<nat, Progress>, p: Places, held: map<nat, seq<int>>, count: nat, size: nat)
    requires Draining(pool, head, tail, free, threads, p, held, count, size) && head != NULL
    ensures 0 <= head < count && |pool.next| == count && |p.queue| > 0 && p.queue[0] == head < |p.place|
    ensures Draining(pool.(next := pool.next[head := free]), pool.next[head], if tail == head then NULL else tail, head,
                     threads, Dropping(p), held, count, size)
  {
    OnlyQueue(p, threads, 0);
    RestOf(p.queue, pool.next);
    LinkedElsewhere(p.queue[1..], pool.next, head, free);
    PushFront(p.frees, pool.next, head);
    DropPartition(p, threads);
    DropWorking(threads, pool, head, free, held, size);
  }

  lemma DropWorking(threads: map<nat, Progress>, pool: Pool, n: nat, v: int, held: map<nat, seq<int>>, size: nat)
    requires AllWorking(threads, pool, held, size) && n < |pool.next|
    requires forall u :: u in threads ==> threads[u].msg != n
    ensures AllWorking(threads, pool.(next := pool.next[n := v]), held, size)
  {
    forall u | u in threads ensures Working(threads[u], u, pool.(next := pool.next[n := v]), held, size) {
      assert Working(threads[u], u, pool, held, size);
      assert Text(pool.(next := pool.next[n := v]), threads[u].msg) == Text(pool, threads[u].msg);
    }
  }

  /** All nodes of the queue are free. */
  lemma ResetGood(f: Fields, v: View, count: nat, size: nat, after: Fields, p: Places)
    requires Good(f, v, count, size)
    requires Draining(after.pool, NULL, after.tail, after.free, f.threads, p, v.state.held, count, size)
    requires after.head == NULL && after.threads == f.threads && after.entry == 0 && |p.frees| + |p.queue| == |v.places.frees| + |v.places.queue|
    ensures Good(after, View(p, v.state.(messages := []), v.log + [WasReset]), count, size)
    ensures |p.frees| == |v.places.frees| + |v.state.messages|
  {
    ReplayOne(v.log, WasReset);
  }

  // ---- What a schedule means -------------------------------------------------------------------------------

  datatype Step =
    | Acquires(t: nat, data: seq<int>, urgent: bool)
    | Fills(t: nat)
    | Links(t: nat)
    | Fetches(t: nat, n: nat)
    | Copies(t: nat)
    | Releases(t: nat)
    | Resets

  /** What a thread is about: it writes its message, or has written it; it copies what it has taken, or has
      copied it. */
  datatype Work =
    | Writing(data: seq<int>, urgent: bool)
    | Written(data: seq<int>, urgent: bool)
    | Reading(bytes: seq<int>)
    | Done(bytes: seq<int>)

  /** The queue without its memory: how many nodes are free, the messages, what each thread is about, and
      what has happened. */
  datatype Machine = Machine(room: nat, messages: seq<seq<int>>, work: map<nat, Work>, log: seq<Event>)

  /** What a step of a schedule does; nothing if the thread is not at that point. */
  function StepOf(m: Machine, step: Step, size: nat): Machine {
    match step
    case Acquires(t, data, urgent) =>
      if t in m.work || m.room == 0 || |data| > size then m
      else m.(room := m.room - 1, work := m.work[t := Writing(data, urgent)])
    case Fills(t) =>
      if t in m.work && m.work[t].Writing? then m.(work := m.work[t := Written(m.work[t].data, m.work[t].urgent)]) else m
    case Links(t) =>
      if t in m.work && m.work[t].Written? then
        var data, urgent := m.work[t].data, m.work[t].urgent;
        m.(messages := if urgent then [data] + m.messages else m.messages + [data], work := m.work - {t},
           log := m.log + [Sent(data, urgent)])
      else m
    case Fetches(t, n) =>
      if t in m.work || m.messages == [] then m
      else
        var got := if |m.messages[0]| > n then m.messages[0][..n] else m.messages[0];
        m.(messages := m.messages[1..], work := m.work[t := Reading(got)], log := m.log + [Taken(t, n)])
    case Copies(t) =>
      if t in m.work && m.work[t].Reading? then m.(work := m.work[t := Done(m.work[t].bytes)]) else m
    case Releases(t) =>
      if t in m.work && m.work[t].Done? then
        m.(room := m.room + 1, work := m.work - {t}, log := m.log + [Received(t, m.work[t].bytes)])
      else m
    case Resets => m.(room := m.room + |m.messages|, messages := [], log := m.log + [WasReset])
  }

  /** All steps of a schedule in turn. */
  function RunOf(m: Machine, schedule: seq<Step>, size: nat): Machine
    decreases |schedule|
  {
    if |schedule| == 0 then m
    else StepOf(RunOf(m, schedule[..|schedule| - 1], size), schedule[|schedule| - 1], size)
  }

  ghost function WorkOf(p: Progress, t: nat, held: map<nat, seq<int>>): Work {
    match p
    case Filling(_, data, urgent) => Writing(data, urgent)
    case Filled(_, data, urgent) => Written(data, urgent)
    case Fetched(_, _) => Reading(if t in held then held[t] else [])
    case Copied(_, bytes) => Done(bytes)
  }

  ghost function AllWork(threads: map<nat, Progress>, held: map<nat, seq<int>>): map<nat, Work> {
    map t | t in threads :: WorkOf(threads[t], t, held)
  }

  /** What the threads and the view mean. */
  ghost function MachineOf(threads: map<nat, Progress>, v: View): Machine {
    Machine(|v.places.frees|, v.state.messages, AllWork(threads, v.state.held), v.log)
  }

  lemma WorkOfOne(threads: map<nat, Progress>, held: map<nat, seq<int>>, t: nat, p: Progress)
    ensures AllWork(threads[t := p], held) == AllWork(threads, held)[t := WorkOf(p, t, held)]
    ensures t !in held ==> AllWork(threads - {t}, held) == AllWork(threads, held) - {t}
  {
  }

  lemma WorkAndHeld(threads: map<nat, Progress>, held: map<nat, seq<int>>, t: nat, p: Progress, bytes: seq<int>)
    ensures t !in threads ==> AllWork(threads[t := p], held[t := bytes]) == AllWork(threads, held)[t := WorkOf(p, t, held[t := bytes])]
    ensures AllWork(threads - {t}, held - {t}) == AllWork(threads, held) - {t}
  {
  }

  lemma AcquireMeans(threads: map<nat, Progress>, v: View, size: nat, t: nat, progress: Progress)
    requires t !in threads && progress.Filling?
    ensures var step := Acquires(t, progress.data, progress.urgent);
      if |progress.data| <= size && |v.places.frees| > 0 then
        v.places.frees[0] < |v.places.place| ==>
          MachineOf(threads[t := progress], v.(places := Acquired(v.places, t))) == StepOf(MachineOf(threads, v), step, size)
      else StepOf(MachineOf(threads, v), step, size) == MachineOf(threads, v)
  {
    WorkOfOne(threads, v.state.held, t, progress);
  }

  lemma FillMeans(threads: map<nat, Progress>, v: View, size: nat, t: nat)
    requires t in threads && threads[t].Filling?
    ensures var after := Filled(threads[t].msg, threads[t].data, threads[t].urgent);
      MachineOf(threads[t := after], v) == StepOf(MachineOf(threads, v), Fills(t), size)
  {
    WorkOfOne(threads, v.state.held, t, Filled(threads[t].msg, threads[t].data, threads[t].urgent));
  }

  lemma LinkMeans(threads: map<nat, Progress>, v: View, size: nat, t: nat)
    requires t in threads && threads[t].Filled? && t !in v.state.held && threads[t].msg < |v.places.place|
    ensures MachineOf(threads - {t}, LinkView(v, threads[t].msg, Sent(threads[t].data, threads[t].urgent)))
         == StepOf(MachineOf(threads, v), Links(t), size)
  {
    WorkOfOne(threads, v.state.held, t, threads[t]);
  }

  lemma FetchMeans(threads: map<nat, Progress>, v: View, size: nat, t: nat, head: nat, n: nat)
    requires t !in threads && t !in v.state.held && |v.state.messages| > 0
    requires |v.places.queue| > 0 && v.places.queue[0] < |v.places.place|
    ensures MachineOf(threads[t := Fetched(head, n)], FetchView(v, t, n)) == StepOf(MachineOf(threads, v), Fetches(t, n), size)
  {
    WorkAndHeld(threads, v.state.held, t, Fetched(head, n), Truncated(v.state.messages[0], n));
  }

  lemma CopyMeans(threads: map<nat, Progress>, v: View, size: nat, t: nat)
    requires t in threads && threads[t].Fetched? && t in v.state.held
    ensures MachineOf(threads[t := Copied(threads[t].msg, v.state.held[t])], v) == StepOf(MachineOf(threads, v), Copies(t), size)
  {
    WorkOfOne(threads, v.state.held, t, Copied(threads[t].msg, v.state.held[t]));
  }

  lemma ReleaseMeans(threads: map<nat, Progress>, v: View, size: nat, t: nat)
    requires t in threads && threads[t].Copied? && threads[t].msg < |v.places.place|
    requires t in v.state.held && v.state.held[t] == threads[t].bytes
    ensures MachineOf(threads - {t}, ReleaseView(v, threads[t].msg, t)) == StepOf(MachineOf(threads, v), Releases(t), size)
  {
    WorkAndHeld(threads, v.state.held, t, threads[t], []);
  }

  lemma ResetMeans(threads: map<nat, Progress>, v: View, size: nat, p: Places)
    requires |p.frees| == |v.places.frees| + |v.state.messages|
    ensures MachineOf(threads, View(p, v.state.(messages := []), v.log + [WasReset])) == StepOf(MachineOf(threads, v), Resets, size)
  {
  }

  /** What a thread is going to send it was going to send before, or has come with. */
  lemma WorkBegins(m: Machine, step: Step, size: nat, t: nat, data: seq<int>, urgent: bool)
    requires t in StepOf(m, step, size).work && StepOf(m, step, size).work[t] in {Writing(data, urgent), Written(data, urgent)}
    ensures if t in m.work then m.work[t] in {Writing(data, urgent), Written(data, urgent)} else step == Acquires(t, data, urgent)
  {
  }

  /** At step `i` of the schedule the thread came with this message, and it has not gone since. */
  ghost predicate CameWith(m: Machine, schedule: seq<Step>, size: nat, i: nat, t: nat, data: seq<int>, urgent: bool) {
    && i < |schedule| && schedule[i] == Acquires(t, data, urgent) && t !in RunOf(m, schedule[..i], size).work
    && forall j :: i < j <= |schedule| ==> t in RunOf(m, schedule[..j], size).work
  }

  /** What a thread is going to send is what it came with. */
  lemma {:induction false} SentAsGiven(m: Machine, schedule: seq<Step>, size: nat, t: nat, data: seq<int>, urgent: bool) returns (i: nat)
    requires t !in m.work && t in RunOf(m, schedule, size).work
    requires RunOf(m, schedule, size).work[t] in {Writing(data, urgent), Written(data, urgent)}
    ensures CameWith(m, schedule, size, i, t, data, urgent)
    decreases |schedule|
  {
    var n, before := |schedule| - 1, schedule[..|schedule| - 1];
    var b := RunOf(m, before, size);
    WorkBegins(b, schedule[n], size, t, data, urgent);
    if t in b.work {
      i := SentAsGiven(m, before, size, t, data, urgent);
      CameBefore(m, schedule, size, i, t, data, urgent);
    } else {
      i := n;
      assert schedule[..n + 1] == schedule;
    }
  }

  lemma CameBefore(m: Machine, schedule: seq<Step>, size: nat, i: nat, t: nat, data: seq<int>, urgent: bool)
    requires |schedule| > 0 && CameWith(m, schedule[..|schedule| - 1], size, i, t, data, urgent) && t in RunOf(m, schedule, size).work
    ensures CameWith(m, schedule, size, i, t, data, urgent)
  {
    var n, before := |schedule| - 1, schedule[..|schedule| - 1];
    assert before[..i] == schedule[..i];
    forall j | i < j <= |schedule| ensures t in RunOf(m, schedule[..j], size).work {
      if j <= n { assert before[..j] == schedule[..j]; } else { assert schedule[..j] == schedule; }
    }
  }

  /** The steps of one send and of one receive. */
  function Sending(m: Machine, t: nat, data: seq<int>, urgent: bool, size: nat): Machine {
    RunOf(m, [Acquires(t, data, urgent), Fills(t), Links(t)], size)
  }

  function Receiving(m: Machine, t: nat, n: nat, size: nat): Machine {
    RunOf(m, [Fetches(t, n), Copies(t), Releases(t)], size)
  }

  lemma ThreeSteps(m: Machine, x: Step, y: Step, z: Step, size: nat)
    ensures RunOf(m, [x, y, z], size) == StepOf(StepOf(StepOf(m, x, size), y, size), z, size)
  {
    assert [x, y, z][..2] == [x, y] && [x, y][..1] == [x] && [x][..0] == [];
    assert RunOf(m, [x], size) == StepOf(m, x, size);
    assert RunOf(m, [x, y], size) == StepOf(StepOf(m, x, size), y, size);
  }

  /** A send puts its message to the end of the queue, or to the front if it is urgent. */
  lemma SendingMeans(m: Machine, t: nat, data: seq<int>, urgent: bool, size: nat)
    requires t !in m.work && m.room > 0 && |data| <= size
    ensures Sending(m, t, data, urgent, size)
         == Machine(m.room - 1, if urgent then [data] + m.messages else m.messages + [data], m.work, m.log + [Sent(data, urgent)])
  {
    ThreeSteps(m, Acquires(t, data, urgent), Fills(t), Links(t), size);
    assert m.work[t := Writing(data, urgent)][t := Written(data, urgent)] - {t} == m.work;
  }

  /** A receive gets the first message, as much of it as its buffer holds. */
  lemma ReceivingMeans(m: Machine, t: nat, n: nat, size: nat)
    requires t !in m.work && m.messages != []
    ensures Receiving(m, t, n, size)
         == Machine(m.room + 1, m.messages[1..], m.work, m.log + [Taken(t, n)] + [Received(t, Truncated(m.messages[0], n))])
  {
    ThreeSteps(m, Fetches(t, n), Copies(t), Releases(t), size);
    var got := Truncated(m.messages[0], n);
    assert m.work[t := Reading(got)][t := Done(got)] - {t} == m.work;
  }

  /** An urgent message overtakes everything that is queued. */
  lemma UrgentOvertakes(m: Machine, t: nat, data: seq<int>, u: nat, n: nat, size: nat)
    requires t !in m.work && u !in m.work && m.room > 0 && |data| <= size <= n
    ensures Receiving(Sending(m, t, data, true, size), u, n, size)
         == m.(log := m.log + [Sent(data, true)] + [Taken(u, n)] + [Received(u, data)])
  {
    SendingMeans(m, t, data, true, size);
    var after := Sending(m, t, data, true, size);
    ReceivingMeans(after, u, n, size);
    assert after.messages[1..] == m.messages;
  }

  // ---- The nodes in the memory of the pool -----------------------------------------------------------------

  const ALIGN: nat := 8 // RT_ALIGN_SIZE
  const HEADER: nat := 8 // sizeof(struct rt_mq_message): a pointer and a length of 32 bits

  /** A message with its header, in aligned memory. */
  function NodeSize(msgSize: nat): nat {
    (msgSize + ALIGN - 1) / ALIGN * ALIGN + HEADER
  }

  /** max_msgs, a field of 16 bits. */
  function MaxMessages(poolSize: nat, msgSize: nat): nat {
    poolSize / NodeSize(msgSize) % (ENTRY_MAX + 1)
  }

  /** Header and message of every node lie in the pool, and nodes do not overlap. */
  lemma NodesFit(poolSize: nat, msgSize: nat, k: nat)
    requires k < MaxMessages(poolSize, msgSize)
    ensures k * NodeSize(msgSize) + HEADER + msgSize <= (k + 1) * NodeSize(msgSize) <= poolSize
  {
    var node, n := NodeSize(msgSize), poolSize / NodeSize(msgSize);
    assert HEADER + msgSize <= node;
    assert n * node <= poolSize;
    Multiples(k + 1, n, node);
  }

  /** A node is as small as alignment allows, and as many nodes are made as the pool has room for, cut to
      16 bits. */
  lemma NodesCounted(poolSize: nat, msgSize: nat, n: nat)
    requires n * NodeSize(msgSize) <= poolSize < (n + 1) * NodeSize(msgSize)
    ensures NodeSize(msgSize) % 8 == 0 && msgSize + 8 <= NodeSize(msgSize) < msgSize + 16
    ensures MaxMessages(poolSize, msgSize) == n % 0x1_0000
  {
    var node, q := NodeSize(msgSize), poolSize / NodeSize(msgSize);
    assert q * node <= poolSize < (q + 1) * node;
    AtMost(n, q, node, poolSize);
    AtMost(q, n, node, poolSize);
  }

  lemma AtMost(n: nat, q: nat, node: nat, p: nat)
    requires n * node <= p < (q + 1) * node
    ensures n <= q
  {
    Multiples(if q < n then q + 1 else n, n, node);
  }

  lemma Multiples(k: nat, n: nat, node: nat)
    requires k <= n
    ensures k * node <= n * node
  {
  }

  /** rt_mq_init: -RT_EINVAL when no node fits, or none is counted because of the 16 bits. */
  method Init(poolSize: nat, msgSize: nat) returns (queue: Queue?)
    ensures queue == null <==> MaxMessages(poolSize, msgSize) == 0
    ensures queue != null ==> fresh(queue) && queue.Valid() && queue.count == MaxMessages(poolSize, msgSize) && queue.size == msgSize % (ENTRY_MAX + 1)
    ensures queue != null ==> |queue.view.places.frees| == queue.count && queue.threads == map[] && queue.view.log == []
  {
    var count := MaxMessages(poolSize, msgSize);
    if count == 0 { return null; }
    queue := new Queue(count, msgSize % (ENTRY_MAX + 1));
  }

  class Queue {
    const count: nat // max_msgs
    const size: nat // msg_size
    var pool: Pool
    var entry: nat
    var head: int
    var tail: int
    var free: int
    var threads: map<nat, Progress>
    ghost var view: View

    ghost function Now(): Fields
      reads this
    {
      Fields(pool, entry, head, tail, free, threads)
    }

    ghost predicate Valid()
      reads this
    {
      Good(Now(), view, count, size)
    }

    /** What the fields mean. */
    ghost function Meaning(): Machine
      reads this
    {
      MachineOf(threads, view)
    }

    /** rt_mq_init: the nodes of the pool are pushed on the free list one by one. The field for their
        number has 16 bits. */
    constructor (count: nat, size: nat)
      requires count <= ENTRY_MAX
      ensures Valid() && this.count == count && this.size == size
      ensures |view.places.frees| == count && threads == map[] && view.log == []
    {
      this.count, this.size := count, size;
      var next, top := seq(count, _ => NULL), NULL;
      ghost var p := Places([], [], 0, seq(count, n requires 0 <= n < count => Free(n)));
      for n := 0 to count
        invariant |next| == count && p.place == seq(count, n requires 0 <= n < count => Free(n)) && p.queue == []
        invariant |p.frees| == n && forall i :: 0 <= i < n ==> p.frees[i] == n - 1 - i
        invariant Linked(p.frees, next) && top == First(p.frees)
      {
        PushFront(p.frees, next, n);
        next := next[n := top];
        top := n;
        p := p.(frees := [n] + p.frees);
      }
      pool := Pool(next, seq(count, _ => 0), seq(count, _ => seq(size, _ => 0)));
      head, tail, free, entry, threads := NULL, NULL, top, 0, map[];
      view := View(p, Abstract([], map[]), []);
    }

    /** The first section of a send: a node leaves the free list. */
    method Acquire(t: nat, data: seq<int>, urgent: bool) returns (ok: bool)
      requires Valid() && t !in threads
      modifies this`free, this`threads, this`view
      ensures Valid() && view.log == old(view.log)
      ensures ok <==> |data| <= size && |old(view.places.frees)| > 0
      ensures threads == if ok then old(threads)[t := Filling(old(view.places.frees)[0], data, urgent)] else old(threads)
      ensures view.places.frees == if ok then old(view.places.frees)[1..] else old(view.places.frees)
      ensures Meaning() == StepOf(old(Meaning()), Acquires(t, data, urgent), size)
    {
      if |data| > size || free == NULL {
        AcquireMeans(threads, view, size, t, Filling(0, data, urgent));
        return false;
      }
      var msg := free;
      AcquireMeans(threads, view, size, t, Filling(msg, data, urgent));
      AcquireGood(Now(), view, count, size, t, Filling(msg, data, urgent));
      free := pool.next[msg];
      threads := threads[t := Filling(msg, data, urgent)];
      view := view.(places := Acquired(view.places, t));
      ok := true;
    }

    /** Between the sections of a send: length and bytes are written without the lock. */
    method Fill(t: nat)
      requires Valid() && t in threads && threads[t].Filling?
      modifies this`pool, this`threads
      ensures Valid()
      ensures threads == old(threads)[t := Filled(old(threads)[t].msg, old(threads)[t].data, old(threads)[t].urgent)]
      ensures Meaning() == StepOf(old(Meaning()), Fills(t), size)
    {
      var Filling(msg, data, urgent) := threads[t];
      FillMeans(threads, view, size, t);
      FillGood(Now(), view, count, size, t, Filled(msg, data, urgent));
      pool := Write(pool, msg, data, urgent);
      threads := threads[t := Filled(msg, data, urgent)];
    }

    /** The node becomes the tail of the queue, or its head if the message is urgent. */
    method Insert(msg: nat, urgent: bool)
      requires msg < |pool.next| && NULL <= tail < |pool.next|
      modifies this`pool, this`head, this`tail
      ensures pool == old(pool).(next := if urgent then old(pool).next[msg := old(head)]
                                         else if old(tail) == NULL then old(pool).next else old(pool).next[old(tail) := msg])
      ensures head == (if urgent || old(head) == NULL then msg else old(head))
      ensures tail == (if !urgent || old(tail) == NULL then msg else old(tail))
    {
      if urgent {
        pool := pool.(next := pool.next[msg := head]);
        head := msg;
        if tail == NULL { tail := msg; }
      } else {
        if tail != NULL { pool := pool.(next := pool.next[tail := msg]); }
        tail := msg;
        if head == NULL { head := msg; }
      }
    }

    /** The second section of a send: the node becomes the tail of the queue, or its head if the
        message is urgent. The branch for an overflow of the entry count is never taken. */
    method Link(t: nat) returns (ok: bool)
      requires Valid() && t in threads && threads[t].Filled?
      modifies this
      ensures Valid() && ok
      ensures threads == old(threads) - {t} && entry == old(entry) + 1 && view.places.frees == old(view.places.frees)
      ensures view.log == old(view.log) + [Sent(old(threads)[t].data, old(threads)[t].urgent)]
      ensures Meaning() == StepOf(old(Meaning()), Links(t), size)
    {
      var Filled(msg, data, urgent) := threads[t];
      LinkGood(Now(), view, count, size, t);
      LinkMeans(threads, view, size, t);
      ghost var f, v := LinkNode(Now(), t), LinkView(view, msg, Sent(data, urgent));
      Insert(msg, urgent);
      assert pool == f.pool && head == f.head && tail == f.tail && free == f.free;
      view := v;
      threads := threads - {t};
      if entry < ENTRY_MAX {
        entry := entry + 1;
        ok := true;
      } else {
        ok := false;
      }
      assert Now() == f;
    }

    /** The head leaves the queue. */
    method TakeHead(t: nat, n: nat)
      requires Valid() && t !in threads && entry > 0
      modifies this
      ensures Valid() && entry == old(entry) - 1 && view.places.frees == old(view.places.frees)
      ensures view.log == old(view.log) + [Taken(t, n)] && threads == old(threads)[t := Fetched(old(head), n)]
      ensures Meaning() == StepOf(old(Meaning()), Fetches(t, n), size)
    {
      FetchGood(Now(), view, count, size, t, n);
      FetchMeans(threads, view, size, t, head, n);
      var msg := head;
      ghost var f := FetchNode(Now(), t, Fetched(msg, n));
      view := FetchView(view, t, n);
      head := pool.next[msg];
      if tail == msg { tail := NULL; }
      if entry > 0 { entry := entry - 1; }
      threads := threads[t := Fetched(msg, n)];
      assert Now() == f;
    }

    /** The first section of a receive that does not have to wait: the head leaves the queue. */
    method Fetch(t: nat, n: nat) returns (ok: bool)
      requires Valid() && t !in threads
      modifies this
      ensures Valid() && (ok <==> |old(view.places.queue)| > 0) && (ok <==> old(entry) > 0)
      ensures ok ==> entry == old(entry) - 1 && view.places.frees == old(view.places.frees)
      ensures ok ==> view.log == old(view.log) + [Taken(t, n)] && threads == old(threads)[t := Fetched(old(head), n)]
      ensures !ok ==> Now() == old(Now()) && view == old(view)
      ensures Meaning() == StepOf(old(Meaning()), Fetches(t, n), size)
    {
      ok := entry > 0;
      if ok { TakeHead(t, n); }
    }

    /** Between the sections of a receive: the bytes are copied without the lock. */
    method Copy(t: nat)
      requires Valid() && t in threads && threads[t].Fetched?
      modifies this`threads
      ensures Valid() && t in view.state.held
      ensures threads == old(threads)[t := Copied(old(threads)[t].msg, view.state.held[t])]
      ensures Meaning() == StepOf(old(Meaning()), Copies(t), size)
    {
      var Fetched(msg, n) := threads[t];
      CopyGood(Now(), view, count, size, t);
      CopyMeans(threads, view, size, t);
      var len := pool.length[msg];
      if len > n { len := n; }
      assert pool.body[msg][..len] == Truncated(Text(pool, msg), n);
      threads := threads[t := Copied(msg, pool.body[msg][..len])];
    }

    /** The last section of a receive: the node goes back, and the caller gets what was taken for it. */
    method Release(t: nat) returns (bytes: seq<int>)
      requires Valid() && t in threads && threads[t].Copied?
      modifies this
      ensures Valid() && threads == old(threads) - {t}
      ensures entry == old(entry) && |view.places.frees| == |old(view.places.frees)| + 1
      ensures t in old(view.state.held) && bytes == old(view.state.held[t])
      ensures view.log == old(view.log) + [Received(t, bytes)]
      ensures Meaning() == StepOf(old(Meaning()), Releases(t), size)
    {
      var Copied(msg, got) := threads[t];
      ReleaseGood(Now(), view, count, size, t);
      ReleaseMeans(threads, view, size, t);
      bytes := got;
      view := ReleaseView(view, msg, t);
      pool := pool.(next := pool.next[msg := free]);
      free := msg;
      threads := threads - {t};
      assert Now() == ReleaseNode(old(Now()), t);
    }

    /** RT_IPC_CMD_RESET: every queued message goes back to the free list. */
    method Reset()
      requires Valid()
      modifies this
      ensures Valid() && threads == old(threads) && entry == 0
      ensures view.log == old(view.log) + [WasReset]
      ensures Meaning() == StepOf(old(Meaning()), Resets, size)
    {
      ghost var p := view.places;
      while head != NULL
        invariant Draining(pool, head, tail, free, threads, p, view.state.held, count, size)
        invariant threads == old(threads) && view == old(view) && count <= ENTRY_MAX
        invariant |p.frees| + |p.queue| == |view.places.frees| + |view.places.queue|
        decreases |p.queue|
      {
        DropOne(pool, head, tail, free, threads, p, view.state.held, count, size);
        var msg := head;
        p := Dropping(p);
        head := pool.next[msg];
        if tail == msg { tail := NULL; }
        pool := pool.(next := pool.next[msg := free]);
        free := msg;
      }
      entry := 0;
      ResetGood(old(Now()), view, count, size, Now(), p);
      ResetMeans(threads, view, size, p);
      view := View(p, view.state.(messages := []), view.log + [WasReset]);
    }

    /** One step of some thread; a thread that cannot take it does nothing. */
    method Do(step: Step)
      requires Valid()
      modifies this
      ensures Valid() && Meaning() == StepOf(old(Meaning()), step, size)
    {
      match step {
        case Acquires(t, data, urgent) => if t !in threads { var ok := Acquire(t, data, urgent); }
        case Fills(t) => if t in threads && threads[t].Filling? { Fill(t); }
        case Links(t) => if t in threads && threads[t].Filled? { var ok := Link(t); }
        case Fetches(t, n) => if t !in threads { var ok := Fetch(t, n); }
        case Copies(t) => if t in threads && threads[t].Fetched? { Copy(t); }
        case Releases(t) => if t in threads && threads[t].Copied? { var bytes := Release(t); }
        case Resets => Reset();
      }
    }

    /** Every interleaving of every number of threads: the log grows by the events of the schedule. */
    method Run(schedule: seq<Step>)
      requires Valid()
      modifies this
      ensures Valid() && Meaning() == RunOf(old(Meaning()), schedule, size)
    {
      assert schedule[..0] == [];
      for i := 0 to |schedule|
        invariant Valid() && Meaning() == RunOf(old(Meaning()), schedule[..i], size)
      {
        assert schedule[..i + 1][..i] == schedule[..i];
        Do(schedule[i]);
      }
      assert schedule[..|schedule|] == schedule;
    }
  }

  // ---- What the log of a run says ---------------------------------------------------------------------------

  /** The messages sent, in the order in which they were linked. */
  function SentIn(log: seq<Event>): seq<seq<int>> {
    if |log| == 0 then []
    else
      var e := log[|log| - 1];
      SentIn(log[..|log| - 1]) + if e.Sent? then [e.data] else []
  }

  /** The messages taken, whole, in the order in which they were taken. */
  function TakenIn(log: seq<Event>): seq<seq<int>>
    requires Replay(log).Some?
  {
    if |log| == 0 then []
    else
      var before := log[..|log| - 1];
      TakenIn(before) + if log[|log| - 1].Taken? then [Replay(before).value.messages[0]] else []
  }

  predicate Plain(log: seq<Event>) {
    forall i :: 0 <= i < |log| ==> !log[i].WasReset? && (log[i].Sent? ==> !log[i].urgent)
  }

  /** Without urgent messages and resets the queue is first in, first out, and nothing is lost: what
      was sent is what was taken, followed by what is still queued. */
  lemma {:induction false} FirstInFirstOut(log: seq<Event>)
    requires Replay(log).Some? && Plain(log)
    ensures SentIn(log) == TakenIn(log) + Replay(log).value.messages
  {
    if |log| > 0 {
      var before := log[..|log| - 1];
      FirstInFirstOut(before);
      var a := Replay(before).value;
      match log[|log| - 1]
      case Sent(data, _) => assert TakenIn(before) + a.messages + [data] == TakenIn(before) + (a.messages + [data]);
      case Taken(_, _) => assert a.messages == [a.messages[0]] + a.messages[1..];
      case _ =>
    }
  }
}
