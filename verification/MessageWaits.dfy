/** The message queue of rt-thread/src/ipc.c with the threads that wait for a message or for a node. */
module MessageWaits {
  import opened WaitLists
  import opened MessageQueue

  /** What a call of a thread comes to: it goes on, or fails, or sleeps. */
  datatype Answer = Goes | Fails | Sleeps

  datatype WaitStep =
    | Sends(thread: nat, data: seq<int>, urgent: bool, wait: bool, position: nat)
    | Fills(thread: nat)
    | Links(thread: nat)
    | Receives(thread: nat, bytes: nat, wait: bool, position: nat)
    | Copies(thread: nat)
    | Releases(thread: nat)
    | Expires(reader: bool, index: nat)
    | Clears

  // ---- What a schedule means --------------------------------------------------------------------------------

  /** The queue and those who wait for it. */
  datatype Scene = Scene(machine: Machine, readers: Gate, writers: Gate)

  /** A thread that sleeps, or is in the middle of a call, cannot begin one. */
  predicate Busy(s: Scene, t: nat) {
    t in s.readers.waiting || t in s.writers.waiting || t in s.machine.work
  }

  /** Whether a thread is where a step begins. */
  predicate Possible(s: Scene, step: WaitStep) {
    match step
    case Sends(t, _, _, _, position) => !Busy(s, t) && position <= |s.writers.waiting|
    case Fills(t) => t in s.machine.work && s.machine.work[t].Writing?
    case Links(t) => t in s.machine.work && s.machine.work[t].Written?
    case Receives(t, _, _, position) => !Busy(s, t) && position <= |s.readers.waiting|
    case Copies(t) => t in s.machine.work && s.machine.work[t].Reading?
    case Releases(t) => t in s.machine.work && s.machine.work[t].Done?
    case Expires(reader, i) => i < |(if reader then s.readers else s.writers).waiting|
    case Clears => true
  }

  /** What a step does; nothing if it is not possible. */
  function Turn(s: Scene, step: WaitStep, size: nat): Scene {
    if !Possible(s, step) then s else
    match step
    case Sends(t, data, urgent, wait, position) =>
      if |data| > size then s
      else if s.machine.room > 0 then
        s.(machine := StepOf(s.machine, Acquires(t, data, urgent), size), writers := Runs(s.writers, t))
      else if wait && !urgent then s.(writers := Join(s.writers, t, position))
      else s.(writers := Runs(s.writers, t))
    case Fills(t) => s.(machine := StepOf(s.machine, Step.Fills(t), size))
    case Links(t) => s.(machine := StepOf(s.machine, Step.Links(t), size), readers := Wake(s.readers))
    case Receives(t, n, wait, position) =>
      if s.machine.messages != [] then s.(machine := StepOf(s.machine, Fetches(t, n), size), readers := Runs(s.readers, t))
      else if wait then s.(readers := Join(s.readers, t, position))
      else s.(readers := Runs(s.readers, t))
    case Copies(t) => s.(machine := StepOf(s.machine, Step.Copies(t), size))
    case Releases(t) => s.(machine := StepOf(s.machine, Step.Releases(t), size), writers := Wake(s.writers))
    case Expires(reader, i) =>
      if reader then s.(readers := Leaves(s.readers, i)) else s.(writers := Leaves(s.writers, i))
    case Clears => Scene(StepOf(s.machine, Resets, size), s.readers.(waiting := []), s.writers.(waiting := []))
  }

  lemma TurnSends(s: Scene, t: nat, data: seq<int>, urgent: bool, wait: bool, position: nat, size: nat)
    requires !Busy(s, t) && position <= |s.writers.waiting|
    ensures |data| <= size && s.machine.room > 0 ==>
      Turn(s, Sends(t, data, urgent, wait, position), size)
      == s.(machine := StepOf(s.machine, Acquires(t, data, urgent), size), writers := Runs(s.writers, t))
    ensures |data| > size || s.machine.room == 0 ==>
      Turn(s, Sends(t, data, urgent, wait, position), size)
      == s.(writers := if |data| > size then s.writers else if wait && !urgent then Join(s.writers, t, position) else Runs(s.writers, t))
  {
  }

  lemma TurnReceives(s: Scene, t: nat, n: nat, wait: bool, position: nat, size: nat)
    requires !Busy(s, t) && position <= |s.readers.waiting|
    ensures s.machine.messages != [] ==>
      Turn(s, Receives(t, n, wait, position), size) == s.(machine := StepOf(s.machine, Fetches(t, n), size), readers := Runs(s.readers, t))
    ensures s.machine.messages == [] ==>
      Turn(s, Receives(t, n, wait, position), size)
      == s.(readers := if wait then Join(s.readers, t, position) else Runs(s.readers, t))
  {
  }

  // The steps of a thread that has a node.

  lemma TurnFills(s: Scene, t: nat, size: nat)
    requires t in s.machine.work && s.machine.work[t].Writing?
    ensures Turn(s, WaitStep.Fills(t), size) == s.(machine := StepOf(s.machine, Step.Fills(t), size))
  {
  }

  lemma TurnLinks(s: Scene, t: nat, size: nat)
    requires t in s.machine.work && s.machine.work[t].Written?
    ensures Turn(s, WaitStep.Links(t), size) == s.(machine := StepOf(s.machine, Step.Links(t), size), readers := Wake(s.readers))
  {
  }

  lemma TurnCopies(s: Scene, t: nat, size: nat)
    requires t in s.machine.work && s.machine.work[t].Reading?
    ensures Turn(s, WaitStep.Copies(t), size) == s.(machine := StepOf(s.machine, Step.Copies(t), size))
  {
  }

  lemma TurnReleases(s: Scene, t: nat, size: nat)
    requires t in s.machine.work && s.machine.work[t].Done?
    ensures Turn(s, WaitStep.Releases(t), size) == s.(machine := StepOf(s.machine, Step.Releases(t), size), writers := Wake(s.writers))
  {
  }

  lemma TurnClears(s: Scene, size: nat)
    ensures Turn(s, Clears, size) == Scene(StepOf(s.machine, Resets, size), s.readers.(waiting := []), s.writers.(waiting := []))
  {
  }

  lemma Skipped(s: Scene, step: WaitStep, size: nat)
    requires !Possible(s, step)
    ensures Turn(s, step, size) == s
  {
  }

  function Turns(s: Scene, steps: seq<WaitStep>, size: nat): Scene
    decreases |steps|
  {
    if |steps| == 0 then s else Turn(Turns(s, steps[..|steps| - 1], size), steps[|steps| - 1], size)
  }

  class Desk {
    const queue: Queue
    var readers: Gate // parent.suspend_thread
    var writers: Gate // suspend_sender_thread

    constructor (queue: Queue)
      requires queue.Valid()
      ensures this.queue == queue && readers == writers == Gate([], {}) && Valid()
    {
      this.queue, readers, writers := queue, Gate([], {}), Gate([], {});
    }

    /** How many nodes are free. */
    ghost function Room(): nat
      reads queue
    {
      |queue.view.places.frees|
    }

    /** While a thread waits for a message, every message has a reader that was woken for it; while a
        thread waits for a node, every free node has a writer. */
    ghost predicate Valid()
      reads this, queue
    {
      queue.Valid() && Orderly(readers) && Orderly(writers) && Served(readers, queue.entry) && Served(writers, Room())
    }

    ghost function Meaning(): Scene
      reads this, queue
    {
      Scene(queue.Meaning(), readers, writers)
    }

    /** A thread may begin a call, or go on after a wake-up, if it does not sleep and holds no node. */
    predicate Idle(t: nat)
      reads this, queue
    {
      t !in readers.waiting && t !in writers.waiting && t !in queue.threads
    }

    predicate Ready(step: WaitStep)
      reads this, queue
    {
      match step
      case Sends(t, _, _, _, position) => Idle(t) && position <= |writers.waiting|
      case Fills(t) => t in queue.threads && queue.threads[t].Filling?
      case Links(t) => t in queue.threads && queue.threads[t].Filled?
      case Receives(t, _, _, position) => Idle(t) && position <= |readers.waiting|
      case Copies(t) => t in queue.threads && queue.threads[t].Fetched?
      case Releases(t) => t in queue.threads && queue.threads[t].Copied?
      case Expires(reader, i) => i < |if reader then readers.waiting else writers.waiting|
      case Clears => true
    }

    lemma ReadyIsPossible(step: WaitStep)
      ensures Ready(step) <==> Possible(Meaning(), step)
    {
    }

    /** A send up to where the lock is left with a node, or the thread sleeps. An urgent send does not
        wait. */
    method Send(t: nat, data: seq<int>, urgent: bool, wait: bool, position: nat) returns (a: Answer)
      requires Valid() && Idle(t) && position <= |writers.waiting|
      modifies this`writers, queue
      ensures Valid() && queue.view.log == old(queue.view.log)
      ensures a == Goes <==> |data| <= queue.size && old(Room()) > 0
      ensures a == Sleeps <==> |data| <= queue.size && old(Room()) == 0 && wait && !urgent
      ensures queue.threads == if a == Goes then old(queue.threads)[t := Filling(old(queue.view.places.frees)[0], data, urgent)] else old(queue.threads)
      ensures writers == if a == Sleeps then Join(old(writers), t, position) else if |data| <= queue.size then Runs(old(writers), t) else old(writers)
      ensures Meaning() == Turn(old(Meaning()), Sends(t, data, urgent, wait, position), queue.size)
    {
      TurnSends(Meaning(), t, data, urgent, wait, position, queue.size);
      JoinServes(writers, t, position);
      if Room() > 0 { RunsServes(writers, t, Room() - 1); }
      var ok := queue.Acquire(t, data, urgent);
      if |data| > queue.size { return Fails; }
      if !ok && wait && !urgent {
        writers := Join(writers, t, position);
        return Sleeps;
      }
      writers := Runs(writers, t);
      a := if ok then Goes else Fails;
    }

    method Fill(t: nat)
      requires Valid() && t in queue.threads && queue.threads[t].Filling?
      modifies queue
      ensures Valid()
      ensures queue.threads == old(queue.threads)[t := Filled(old(queue.threads)[t].msg, old(queue.threads)[t].data, old(queue.threads)[t].urgent)]
      ensures Meaning() == Turn(old(Meaning()), WaitStep.Fills(t), queue.size)
    {
      TurnFills(Meaning(), t, queue.size);
      queue.Fill(t);
    }

    /** The end of a send: the message is in the queue, and a reader is woken. */
    method Link(t: nat)
      requires Valid() && t in queue.threads && queue.threads[t].Filled?
      modifies this`readers, queue
      ensures Valid() && queue.threads == old(queue.threads) - {t} && readers == Wake(old(readers))
      ensures queue.view.log == old(queue.view.log) + [Sent(old(queue.threads)[t].data, old(queue.threads)[t].urgent)]
      ensures queue.Meaning() == StepOf(old(queue.Meaning()), Step.Links(t), queue.size) && writers == old(writers)
    {
      WakeServes(readers, queue.entry);
      var ok := queue.Link(t);
      readers := Wake(readers);
    }

    /** A receive up to where the lock is left with a message, or the thread sleeps. */
    method Receive(t: nat, n: nat, wait: bool, position: nat) returns (a: Answer)
      requires Valid() && Idle(t) && position <= |readers.waiting|
      modifies this`readers, queue
      ensures Valid()
      ensures a == Goes <==> old(queue.entry) > 0
      ensures a == Sleeps <==> old(queue.entry) == 0 && wait
      ensures a == Goes ==> queue.view.log == old(queue.view.log) + [Taken(t, n)] && queue.threads == old(queue.threads)[t := Fetched(old(queue.head), n)]
      ensures a != Goes ==> queue.view == old(queue.view) && queue.threads == old(queue.threads)
      ensures readers == if a == Sleeps then Join(old(readers), t, position) else Runs(old(readers), t)
      ensures Meaning() == Turn(old(Meaning()), Receives(t, n, wait, position), queue.size)
    {
      TurnReceives(Meaning(), t, n, wait, position, queue.size);
      JoinServes(readers, t, position);
      if queue.entry > 0 { RunsServes(readers, t, queue.entry - 1); }
      var ok := queue.Fetch(t, n);
      if !ok && wait {
        readers := Join(readers, t, position);
        return Sleeps;
      }
      readers := Runs(readers, t);
      a := if ok then Goes else Fails;
    }

    method Copy(t: nat)
      requires Valid() && t in queue.threads && queue.threads[t].Fetched?
      modifies queue
      ensures Valid() && t in queue.view.state.held
      ensures queue.threads == old(queue.threads)[t := Copied(old(queue.threads)[t].msg, queue.view.state.held[t])]
      ensures Meaning() == Turn(old(Meaning()), WaitStep.Copies(t), queue.size)
    {
      TurnCopies(Meaning(), t, queue.size);
      queue.Copy(t);
    }

    /** The end of a receive: the node is free again, and a writer is woken. */
    method Release(t: nat) returns (bytes: seq<int>)
      requires Valid() && t in queue.threads && queue.threads[t].Copied?
      modifies this`writers, queue
      ensures Valid() && queue.threads == old(queue.threads) - {t} && writers == Wake(old(writers))
      ensures t in old(queue.view.state.held) && bytes == old(queue.view.state.held[t])
      ensures Meaning() == Turn(old(Meaning()), WaitStep.Releases(t), queue.size)
    {
      TurnReleases(Meaning(), t, queue.size);
      WakeServes(writers, Room());
      bytes := queue.Release(t);
      writers := Wake(writers);
    }

    /** A sleeping thread leaves: its time is over, or it is closed. */
    method Expire(reader: bool, i: nat)
      requires Valid() && i < |if reader then readers.waiting else writers.waiting|
      modifies this
      ensures Valid()
      ensures readers == if reader then Leaves(old(readers), i) else old(readers)
      ensures writers == if reader then old(writers) else Leaves(old(writers), i)
      ensures Meaning() == Turn(old(Meaning()), Expires(reader, i), queue.size)
    {
      if reader {
        LeavesServes(readers, i, queue.entry);
        readers := Leaves(readers, i);
      } else {
        LeavesServes(writers, i, Room());
        writers := Leaves(writers, i);
      }
    }

    /** RT_IPC_CMD_RESET: all sleeping threads are resumed with an error. */
    method Clear()
      requires Valid()
      modifies this, queue
      ensures Valid() && queue.entry == 0
      ensures readers == old(readers).(waiting := []) && writers == old(writers).(waiting := [])
      ensures Meaning() == Turn(old(Meaning()), Clears, queue.size)
    {
      TurnClears(Meaning(), queue.size);
      queue.Reset();
      readers, writers := readers.(waiting := []), writers.(waiting := []);
    }

    /** A woken thread is closed before it has run. No wake-up is lost if and only if nobody else sleeps
        or there is another woken thread for everything that is available. */
    method Close(reader: bool, t: nat)
      requires Valid() && t in (if reader then readers.woken else writers.woken)
      modifies this
      ensures readers == (if reader then Runs(old(readers), t) else old(readers)) && writers == if reader then old(writers) else Runs(old(writers), t)
      ensures Valid() <==> if reader then |old(readers).waiting| == 0 || queue.entry < |old(readers).woken|
                           else |old(writers).waiting| == 0 || Room() < |old(writers).woken|
    {
      if reader {
        WakeupLost(readers, t, queue.entry);
        readers := Runs(readers, t);
      } else {
        WakeupLost(writers, t, Room());
        writers := Runs(writers, t);
      }
    }

    /** One step of any thread other than `Close`; a step that is not possible is skipped. */
    method Do(step: WaitStep)
      requires Valid()
      modifies this, queue
      ensures Valid()
      ensures Meaning() == Turn(old(Meaning()), step, queue.size)
    {
      ReadyIsPossible(step);
      if !Ready(step) {
        Skipped(Meaning(), step, queue.size);
        return;
      }
      match step {
        case Sends(t, data, urgent, wait, position) => var a := Send(t, data, urgent, wait, position);
        case Fills(t) => Fill(t);
        case Links(t) =>
          TurnLinks(Meaning(), t, queue.size);
          Link(t);
        case Receives(t, n, wait, position) => var a := Receive(t, n, wait, position);
        case Copies(t) => Copy(t);
        case Releases(t) => var bytes := Release(t);
        case Expires(reader, i) => Expire(reader, i);
        case Clears => Clear();
      }
    }

    /** No interleaving loses a wake-up, as long as no thread is closed that was woken and has not run. */
    method Run(steps: seq<WaitStep>)
      requires Valid()
      modifies this, queue
      ensures Valid()
      ensures Meaning() == Turns(old(Meaning()), steps, queue.size)
    {
      assert steps[..0] == [];
      for i := 0 to |steps|
        invariant Valid() && Meaning() == Turns(old(Meaning()), steps[..i], queue.size)
      {
        assert steps[..i + 1][..i] == steps[..i];
        Do(steps[i]);
      }
      assert steps[..|steps|] == steps;
    }
  }
}
