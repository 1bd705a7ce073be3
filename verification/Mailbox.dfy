/** The mailbox of rt-thread/src/ipc.c: a ring buffer that is a bounded double-ended queue. */
module Mailbox {
  import opened WaitLists

  const ENTRY_MAX: nat := 0xFFFF

  datatype Operation = Send(value: int) | Urgent(value: int) | Receive | Reset

  /** What a call returns: RT_EOK, with the mail for a receive, or an error. */
  datatype Result = Done | Mail(value: int) | Refused

  datatype Outcome = Outcome(mails: seq<int>, result: Result)

  /** A queue of at most `size` mails: sent at the end, urgent ones and receives at the front. */
  function Deque(mails: seq<int>, operation: Operation, size: nat): Outcome {
    match operation
    case Send(value) => if |mails| < size then Outcome(mails + [value], Done) else Outcome(mails, Refused)
    case Urgent(value) => if |mails| < size then Outcome([value] + mails, Done) else Outcome(mails, Refused)
    case Receive => if |mails| > 0 then Outcome(mails[1..], Mail(mails[0])) else Outcome(mails, Refused)
    case Reset => Outcome([], Done)
  }

  /** An urgent mail is received first, a sent one last. */
  lemma FirstAndLast(mails: seq<int>, value: int, size: nat)
    requires |mails| < size
    ensures Deque(Deque(mails, Urgent(value), size).mails, Receive, size) == Outcome(mails, Mail(value))
    ensures |mails| > 0 ==>
      Deque(Deque(mails, Send(value), size).mails, Receive, size) == Outcome(mails[1..] + [value], Mail(mails[0]))
    ensures |mails| == 0 ==> Deque(Deque(mails, Send(value), size).mails, Receive, size) == Outcome([], Mail(value))
  {
    assert ([value] + mails)[1..] == mails;
    if |mails| > 0 { assert (mails + [value])[1..] == mails[1..] + [value]; }
  }

  /** All operations in turn: what is left, and what each returned. */
  function DequeRun(mails: seq<int>, operations: seq<Operation>, size: nat): (seq<int>, seq<Result>)
    decreases |operations|
  {
    if |operations| == 0 then (mails, [])
    else
      var n := |operations| - 1;
      var (before, results) := DequeRun(mails, operations[..n], size);
      var last := Deque(before, operations[n], size);
      (last.mails, results + [last.result])
  }

  class Box {
    const size: nat
    const pool: array<int>
    var entry: nat
    var inOffset: nat
    var outOffset: nat
    ghost var mails: seq<int>

    constructor (size: nat)
      requires size <= ENTRY_MAX // a field of 16 bits
      ensures Valid() && mails == [] && this.size == size && fresh(pool)
    {
      this.size := size;
      pool := new int[size];
      entry, inOffset, outOffset, mails := 0, 0, 0, [];
    }

    /** The place of the mail `i` behind the first one. */
    ghost function Place(i: nat): int
      reads this`outOffset
    {
      if outOffset + i < size then outOffset + i else outOffset + i - size
    }

    ghost predicate Valid()
      reads this, pool
    {
      && pool.Length == size <= ENTRY_MAX
      && entry == |mails| <= size && (size == 0 ==> outOffset == 0) && (size > 0 ==> outOffset < size)
      && inOffset == (if entry < size then Place(entry) else outOffset)
      && forall i :: 0 <= i < entry ==> pool[Place(i)] == mails[i]
    }

    /** rt_mb_send, and the end of a send that had to wait. */
    method DoSend(value: int) returns (r: Result)
      requires Valid()
      modifies this, pool
      ensures Valid() && Outcome(mails, r) == Deque(old(mails), Send(value), size)
    {
      if entry == size { return Refused; }
      pool[inOffset] := value;
      mails := mails + [value];
      inOffset := inOffset + 1;
      if inOffset >= size { inOffset := 0; }
      if entry < ENTRY_MAX {
        entry := entry + 1;
        r := Done;
      } else {
        r := Refused; // never: entry < size
      }
    }

    method DoUrgent(value: int) returns (r: Result)
      requires Valid()
      modifies this, pool
      ensures Valid() && Outcome(mails, r) == Deque(old(mails), Urgent(value), size)
    {
      if entry == size { return Refused; }
      outOffset := if outOffset > 0 then outOffset - 1 else size - 1;
      pool[outOffset] := value;
      entry := entry + 1;
      mails := [value] + mails;
      r := Done;
      forall i | 0 <= i < entry ensures pool[Place(i)] == mails[i] {
        if i > 0 { assert old(pool[Place(i - 1)]) == old(mails[i - 1]); }
      }
    }

    method DoReceive() returns (r: Result)
      requires Valid()
      modifies this
      ensures Valid() && Outcome(mails, r) == Deque(old(mails), Receive, size)
    {
      if entry == 0 { return Refused; }
      r := Mail(pool[outOffset]);
      assert pool[Place(0)] == mails[0];
      outOffset := outOffset + 1;
      if outOffset >= size { outOffset := 0; }
      if entry > 0 { entry := entry - 1; }
      mails := mails[1..];
      forall i | 0 <= i < entry ensures pool[Place(i)] == mails[i] {
        assert old(pool[Place(i + 1)]) == old(mails[i + 1]);
      }
    }

    method DoReset()
      requires Valid()
      modifies this
      ensures Valid() && mails == []
    {
      entry, inOffset, outOffset, mails := 0, 0, 0, [];
    }

    method Do(operation: Operation) returns (r: Result)
      requires Valid()
      modifies this, pool
      ensures Valid() && Outcome(mails, r) == Deque(old(mails), operation, size)
    {
      match operation {
        case Send(value) => r := DoSend(value);
        case Urgent(value) => r := DoUrgent(value);
        case Receive => r := DoReceive();
        case Reset => DoReset(); r := Done;
      }
    }

    /** Every sequence of operations refines the bounded queue. */
    method Run(operations: seq<Operation>) returns (results: seq<Result>)
      requires Valid()
      modifies this, pool
      ensures Valid() && (mails, results) == DequeRun(old(mails), operations, size)
    {
      results := [];
      assert operations[..0] == [];
      for n := 0 to |operations|
        invariant Valid() && (mails, results) == DequeRun(old(mails), operations[..n], size)
      {
        var r := Do(operations[n]);
        results := results + [r];
        assert operations[..n + 1][..n] == operations[..n];
      }
      assert operations[..|operations|] == operations;
    }
  }

  // ---- Threads that wait for mail or for room -----------------------------------------------------------

  /** What a call of a thread comes to: it returns, or it sleeps. */
  datatype Answer = Returns(result: Result) | Sleeps

  datatype Step =
    | Sends(thread: nat, value: int, wait: bool, position: nat)
    | SendsUrgent(value: int)
    | Receives(thread: nat, wait: bool, position: nat)
    | Expires(reader: bool, index: nat)
    | Clears

  /** The mailbox and those who wait for it. */
  datatype Scene = Scene(mails: seq<int>, readers: Gate, writers: Gate)

  predicate Asleep(s: Scene, t: nat) {
    t in s.readers.waiting || t in s.writers.waiting
  }

  /** What a step does, and what the call answers; nothing if the step is not possible. */
  function Turn(s: Scene, step: Step, size: nat): (Scene, seq<Answer>) {
    match step
    case Sends(t, value, wait, position) =>
      if Asleep(s, t) || position > |s.writers.waiting| then (s, [])
      else if |s.mails| < size then (Scene(s.mails + [value], Wake(s.readers), Runs(s.writers, t)), [Returns(Done)])
      else if wait then (s.(writers := Join(s.writers, t, position)), [Sleeps])
      else (s.(writers := Runs(s.writers, t)), [Returns(Refused)])
    case SendsUrgent(value) =>
      if |s.mails| < size then (Scene([value] + s.mails, Wake(s.readers), s.writers), [Returns(Done)])
      else (s, [Returns(Refused)])
    case Receives(t, wait, position) =>
      if Asleep(s, t) || position > |s.readers.waiting| then (s, [])
      else if |s.mails| > 0 then (Scene(s.mails[1..], Runs(s.readers, t), Wake(s.writers)), [Returns(Mail(s.mails[0]))])
      else if wait then (s.(readers := Join(s.readers, t, position)), [Sleeps])
      else (s.(readers := Runs(s.readers, t)), [Returns(Refused)])
    case Expires(reader, i) =>
      if i >= |(if reader then s.readers else s.writers).waiting| then (s, [])
      else if reader then (s.(readers := Leaves(s.readers, i)), [])
      else (s.(writers := Leaves(s.writers, i)), [])
    case Clears => (Scene([], s.readers.(waiting := []), s.writers.(waiting := [])), [])
  }

  function Turns(s: Scene, steps: seq<Step>, size: nat): (Scene, seq<Answer>)
    decreases |steps|
  {
    if |steps| == 0 then (s, [])
    else
      var (before, answers) := Turns(s, steps[..|steps| - 1], size);
      var (after, more) := Turn(before, steps[|steps| - 1], size);
      (after, answers + more)
  }

  /** A mail in the empty mailbox goes to the first sleeping reader, whose next call gets it, unless another
      thread comes first. */
  lemma WokenReaderGets(first: nat, rest: seq<nat>, writers: Gate, t: nat, value: int, wait: bool, size: nat)
    requires size > 0 && t != first && t !in rest && first !in rest && t !in writers.waiting && first !in writers.waiting
    ensures var s := Scene([], Gate([first] + rest, {}), writers);
      Turns(s, [Sends(t, value, wait, 0), Receives(first, wait, 0)], size)
      == (Scene([], Gate(rest, {}), Wake(Runs(writers, t))), [Returns(Done), Returns(Mail(value))])
  {
    var s := Scene([], Gate([first] + rest, {}), writers);
    var one, two := Sends(t, value, wait, 0), Receives(first, wait, 0);
    var sent := Scene([value], Gate(rest, {first}), Runs(writers, t));
    assert ([first] + rest)[1..] == rest && {} + {first} == {first} && [] + [value] == [value];
    assert Turn(s, one, size) == (sent, [Returns(Done)]);
    assert {first} - {first} == {} && [value][1..] == [];
    assert Turn(sent, two, size) == (Scene([], Gate(rest, {}), Wake(Runs(writers, t))), [Returns(Mail(value))]);
    assert [one, two][..1] == [one] && [one][..0] == [];
    assert Turns(s, [], size) == (s, []);
    assert [] + [Returns(Done)] == [Returns(Done)];
    assert Turns(s, [one], size) == (sent, [Returns(Done)]);
    assert [Returns(Done)] + [Returns(Mail(value))] == [Returns(Done), Returns(Mail(value))];
    assert Turns(s, [one, two], size) == (Scene([], Gate(rest, {}), Wake(Runs(writers, t))), [Returns(Done), Returns(Mail(value))]);
  }

  class Post {
    const box: Box
    var readers: Gate // parent.suspend_thread
    var writers: Gate // suspend_sender_thread

    constructor (box: Box)
      requires box.Valid() && box.mails == []
      ensures this.box == box && readers == writers == Gate([], {}) && Valid()
    {
      this.box, readers, writers := box, Gate([], {}), Gate([], {});
    }

    /** While a thread waits for mail, every mail has a reader that was woken for it; while a thread waits
        for room, every free place has a writer. */
    ghost predicate Valid()
      reads this, box, box.pool
    {
      && box.Valid() && Orderly(readers) && Orderly(writers)
      && Served(readers, |box.mails|) && Served(writers, box.size - |box.mails|)
    }

    /** A thread may call if it does not sleep. */
    predicate Awake(t: nat)
      reads this
    {
      t !in readers.waiting && t !in writers.waiting
    }

    /** rt_mb_send_wait, from the call or from a wake-up to the return or to sleep. */
    method Send(t: nat, value: int, wait: bool, position: nat) returns (a: Answer)
      requires Valid() && Awake(t) && position <= |writers.waiting|
      modifies this, box, box.pool
      ensures Valid()
      ensures if |old(box.mails)| < box.size
              then a == Returns(Done) && box.mails == old(box.mails) + [value] && readers == Wake(old(readers)) && writers == Runs(old(writers), t)
              else box.mails == old(box.mails) && readers == old(readers) && if wait
                   then a == Sleeps && writers == Join(old(writers), t, position)
                   else a == Returns(Refused) && writers == Runs(old(writers), t)
    {
      if box.entry == box.size {
        JoinServes(writers, t, position);
        if wait {
          writers := Join(writers, t, position);
          return Sleeps;
        }
        LookServes(writers, t);
        writers := Runs(writers, t);
        return Returns(Refused);
      }
      WakeServes(readers, |box.mails|);
      RunsServes(writers, t, box.size - |box.mails| - 1);
      var r := box.DoSend(value);
      readers, writers := Wake(readers), Runs(writers, t);
      a := Returns(r);
    }

    /** rt_mb_urgent. */
    method SendUrgent(value: int) returns (r: Result)
      requires Valid()
      modifies this`readers, box, box.pool
      ensures Valid() && Outcome(box.mails, r) == Deque(old(box.mails), Urgent(value), box.size)
      ensures readers == if r == Done then Wake(old(readers)) else old(readers)
    {
      WakeServes(readers, |box.mails|);
      r := box.DoUrgent(value);
      if r == Done { readers := Wake(readers); }
    }

    /** rt_mb_recv, from the call or from a wake-up to the return or to sleep. */
    method Receive(t: nat, wait: bool, position: nat) returns (a: Answer)
      requires Valid() && Awake(t) && position <= |readers.waiting|
      modifies this, box
      ensures Valid()
      ensures if |old(box.mails)| > 0
              then a == Returns(Mail(old(box.mails)[0])) && box.mails == old(box.mails)[1..] && writers == Wake(old(writers)) && readers == Runs(old(readers), t)
              else box.mails == old(box.mails) && writers == old(writers) && if wait
                   then a == Sleeps && readers == Join(old(readers), t, position)
                   else a == Returns(Refused) && readers == Runs(old(readers), t)
    {
      if box.entry == 0 {
        JoinServes(readers, t, position);
        if wait {
          readers := Join(readers, t, position);
          return Sleeps;
        }
        LookServes(readers, t);
        readers := Runs(readers, t);
        return Returns(Refused);
      }
      WakeServes(writers, box.size - |box.mails|);
      RunsServes(readers, t, |box.mails| - 1);
      var r := box.DoReceive();
      readers, writers := Runs(readers, t), Wake(writers);
      a := Returns(r);
    }

    /** A sleeping thread leaves: its time is over, or it is closed. */
    method Expire(reader: bool, i: nat)
      requires Valid() && i < |if reader then readers.waiting else writers.waiting|
      modifies this
      ensures Valid()
      ensures readers == if reader then Leaves(old(readers), i) else old(readers)
      ensures writers == if reader then old(writers) else Leaves(old(writers), i)
    {
      if reader {
        LeavesServes(readers, i, |box.mails|);
        readers := Leaves(readers, i);
      } else {
        LeavesServes(writers, i, box.size - |box.mails|);
        writers := Leaves(writers, i);
      }
    }

    /** RT_IPC_CMD_RESET: all sleeping threads are resumed with an error. */
    method Clear()
      requires Valid()
      modifies this, box
      ensures Valid() && box.mails == []
      ensures readers == old(readers).(waiting := []) && writers == old(writers).(waiting := [])
    {
      box.DoReset();
      readers, writers := readers.(waiting := []), writers.(waiting := []);
    }

    /** A woken thread is closed before it has run. No wake-up is lost if and only if nobody else sleeps
        or there is another woken thread for everything that is available. */
    method Close(reader: bool, t: nat)
      requires Valid() && t in (if reader then readers.woken else writers.woken)
      modifies this
      ensures readers == (if reader then Runs(old(readers), t) else old(readers)) && writers == if reader then old(writers) else Runs(old(writers), t)
      ensures Valid() <==> if reader then |old(readers).waiting| == 0 || |box.mails| < |old(readers).woken|
                           else |old(writers).waiting| == 0 || box.size - |box.mails| < |old(writers).woken|
    {
      if reader {
        WakeupLost(readers, t, |box.mails|);
        readers := Runs(readers, t);
      } else {
        WakeupLost(writers, t, box.size - |box.mails|);
        writers := Runs(writers, t);
      }
    }

    ghost function Meaning(): Scene
      reads this, box
    {
      Scene(box.mails, readers, writers)
    }

    /** One step of any thread other than `Close`; a step that is not possible is skipped. */
    method Do(step: Step) returns (answers: seq<Answer>)
      requires Valid()
      modifies this, box, box.pool
      ensures Valid() && (Meaning(), answers) == Turn(old(Meaning()), step, box.size)
    {
      answers := [];
      match step {
        case Sends(t, value, wait, position) =>
          if Awake(t) && position <= |writers.waiting| {
            var a := Send(t, value, wait, position);
            answers := [a];
          }
        case SendsUrgent(value) =>
          var r := SendUrgent(value);
          answers := [Returns(r)];
        case Receives(t, wait, position) =>
          if Awake(t) && position <= |readers.waiting| {
            var a := Receive(t, wait, position);
            answers := [a];
          }
        case Expires(reader, i) => if i < |if reader then readers.waiting else writers.waiting| { Expire(reader, i); }
        case Clears => Clear();
      }
    }

    /** No run loses a wake-up, as long as no thread is closed that was woken and has not run; and every call
        answers what the schedule means. */
    method Run(steps: seq<Step>) returns (answers: seq<Answer>)
      requires Valid()
      modifies this, box, box.pool
      ensures Valid() && (Meaning(), answers) == Turns(old(Meaning()), steps, box.size)
    {
      answers := [];
      assert steps[..0] == [];
      for i := 0 to |steps|
        invariant Valid() && (Meaning(), answers) == Turns(old(Meaning()), steps[..i], box.size)
      {
        assert steps[..i + 1][..i] == steps[..i];
        var more := Do(steps[i]);
        answers := answers + more;
      }
      assert steps[..|steps|] == steps;
    }
  }

  /** Two readers sleep, a mail comes, and the reader that was woken for it is closed: the other one
      sleeps on although there is mail. */
  method LoseWakeup(size: nat, value: int) returns (post: Post)
    requires 0 < size <= ENTRY_MAX
    ensures fresh(post) && post.box.mails == [value] && post.readers == Gate([2], {}) && !post.Valid()
  {
    var box := new Box(size);
    post := new Post(box);
    var a := post.Receive(1, true, 0);
    a := post.Receive(2, true, 1);
    assert post.readers.waiting == [1, 2];
    a := post.Send(3, value, false, 0);
    assert post.readers == Gate([2], {1});
    post.Close(true, 1);
    assert {1} - {1} == {};
  }

  // ---- Mail in, mail out -------------------------------------------------------------------------------

  function In(operation: Operation, result: Result): multiset<int> {
    if (operation.Send? || operation.Urgent?) && result.Done? then multiset{operation.value} else multiset{}
  }

  function Out(result: Result): multiset<int> {
    if result.Mail? then multiset{result.value} else multiset{}
  }

  function Accepted(operations: seq<Operation>, results: seq<Result>): multiset<int>
    requires |operations| == |results|
  {
    if |operations| == 0 then multiset{}
    else
      var n := |operations| - 1;
      Accepted(operations[..n], results[..n]) + In(operations[n], results[n])
  }

  function Delivered(results: seq<Result>): multiset<int> {
    if |results| == 0 then multiset{}
    else Delivered(results[..|results| - 1]) + Out(results[|results| - 1])
  }

  lemma OneOperation(mails: seq<int>, operation: Operation, size: nat)
    requires !operation.Reset?
    ensures var o := Deque(mails, operation, size);
      multiset(mails) + In(operation, o.result) == Out(o.result) + multiset(o.mails)
  {
    if |mails| > 0 { assert mails == [mails[0]] + mails[1..]; }
  }

  lemma Balance(start: multiset<int>, before: multiset<int>, after: multiset<int>,
                accepted: multiset<int>, delivered: multiset<int>, i: multiset<int>, o: multiset<int>)
    requires start + accepted == delivered + before && before + i == o + after
    ensures start + (accepted + i) == (delivered + o) + after
  {
    forall x ensures (start + (accepted + i))[x] == ((delivered + o) + after)[x] {
      assert (start + accepted)[x] == (delivered + before)[x];
      assert (before + i)[x] == (o + after)[x];
    }
  }

  /** What was accepted and not delivered is still there, as long as nothing is reset. */
  lemma {:induction false} NothingLost(mails: seq<int>, operations: seq<Operation>, size: nat)
    requires forall i :: 0 <= i < |operations| ==> !operations[i].Reset?
    ensures var (after, results) := DequeRun(mails, operations, size);
      && |results| == |operations|
      && multiset(mails) + Accepted(operations, results) == Delivered(results) + multiset(after)
    decreases |operations|
  {
    if |operations| == 0 {
      assert DequeRun(mails, operations, size) == (mails, []);
    } else {
      var n := |operations| - 1;
      NothingLost(mails, operations[..n], size);
      var (before, results) := DequeRun(mails, operations[..n], size);
      var last := Deque(before, operations[n], size);
      OneOperation(before, operations[n], size);
      var all := results + [last.result];
      assert all[..n] == results;
      assert Accepted(operations, all) == Accepted(operations[..n], results) + In(operations[n], last.result);
      assert Delivered(all) == Delivered(results) + Out(last.result);
      Balance(multiset(mails), multiset(before), multiset(last.mails), Accepted(operations[..n], results), Delivered(results),
              In(operations[n], last.result), Out(last.result));
    }
  }
}
