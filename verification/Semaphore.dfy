/** The semaphore of rt-thread/src/ipc.c. Each method is one lock section, or a timer that ends a wait;
    any thread may run between two of them. */
module Semaphore {
  import opened Basics

  /** How a take ended, or that it has not. */
  datatype Status = Waiting | Granted | Failed

  datatype Step =
    | Takes(thread: nat, wait: bool, position: nat)
    | Releases
    | TimesOut(thread: nat)
    | Resets(value: nat)
    | Limits(max: nat)

  function Without(s: seq<nat>, i: nat): seq<nat>
    requires i < |s|
  {
    s[..i] + s[i + 1..]
  }

  lemma WithoutOne(s: seq<nat>, i: nat)
    requires i < |s| && Distinct(s)
    ensures Distinct(Without(s, i)) && forall t :: t in Without(s, i) <==> t in s && t != s[i]
  {
    var r := Without(s, i);
    assert s == s[..i] + [s[i]] + s[i + 1..];
    assert forall k :: 0 <= k < |r| ==> r[k] == s[if k < i then k else k + 1];
  }

  // ---- What a schedule means --------------------------------------------------------------------------------

  datatype State = State(max: nat, value: nat, waiting: seq<nat>, status: map<nat, Status>, initial: nat, accepted: nat, granted: nat)

  /** The others stay in their order. */
  function Removed(s: seq<nat>, t: nat): seq<nat> {
    if |s| == 0 then [] else if s[0] == t then s[1..] else [s[0]] + Removed(s[1..], t)
  }

  lemma {:induction false} WithoutAt(s: seq<nat>, i: nat)
    requires i < |s| && Distinct(s)
    ensures Removed(s, s[i]) == Without(s, i)
  {
    if i > 0 {
      WithoutAt(s[1..], i - 1);
      assert [s[0]] + Without(s[1..], i - 1) == Without(s, i);
    }
  }

  predicate Waits(s: State, t: nat) {
    t in s.status && s.status[t] == Waiting
  }

  /** What a step does; nothing if it is not possible. */
  function StepOf(s: State, step: Step): State {
    match step
    case Takes(t, wait, position) =>
      if Waits(s, t) || position > |s.waiting| then s
      else if s.value > 0 then s.(value := s.value - 1, granted := s.granted + 1, status := s.status[t := Granted])
      else if wait then s.(waiting := s.waiting[..position] + [t] + s.waiting[position..], status := s.status[t := Waiting])
      else s.(status := s.status[t := Failed])
    case Releases =>
      if |s.waiting| > 0 then
        s.(waiting := s.waiting[1..], status := s.status[s.waiting[0] := Granted], granted := s.granted + 1, accepted := s.accepted + 1)
      else if s.value < s.max then s.(value := s.value + 1, accepted := s.accepted + 1)
      else s
    case TimesOut(t) =>
      if Waits(s, t) then s.(waiting := Removed(s.waiting, t), status := s.status[t := Failed]) else s
    case Resets(value) =>
      State(s.max, value % 0x1_0000, [], map t | t in s.status :: if s.status[t] == Waiting then Failed else s.status[t],
            value % 0x1_0000, 0, 0)
    case Limits(max) => if max % 0x1_0000 > 0 then s.(max := max % 0x1_0000) else s
  }

  function RunOf(s: State, steps: seq<Step>): State
    decreases |steps|
  {
    if |steps| == 0 then s else StepOf(RunOf(s, steps[..|steps| - 1]), steps[|steps| - 1])
  }

  class Sem {
    var max: nat // max_value
    var value: nat
    var waiting: seq<nat> // suspend_thread, in the order in which threads are resumed
    var status: map<nat, Status> // of the latest take of each thread
    ghost var initial: nat // the value at the start, or set by the latest reset
    ghost var accepted: nat // releases since then that succeeded
    ghost var granted: nat // takes since then that succeeded

    constructor (value: nat, max: nat)
      requires value <= max
      ensures Valid() && this.value == initial == value && this.max == max && accepted == granted == 0 && status == map[]
    {
      this.value, this.max, initial := value, max, value;
      waiting, status, accepted, granted := [], map[], 0, 0;
    }

    /** No token lies idle while a thread waits, no token is lost or made up, and the threads in the
        list are those that wait. */
    ghost predicate Valid()
      reads this
    {
      && (value > 0 ==> |waiting| == 0)
      && initial + accepted == value + granted
      && Distinct(waiting)
      && (forall t :: t in waiting ==> t in status && status[t] == Waiting)
      && (forall t :: t in status && status[t] == Waiting ==> t in waiting)
    }

    ghost function Meaning(): State
      reads this
    {
      State(max, value, waiting, status, initial, accepted, granted)
    }

    /** _rt_sem_take up to the point where it returns or sleeps. A thread that sleeps goes to some
        position in the list: the last one, or the one that its priority gives it. */
    method Take(t: nat, wait: bool, position: nat) returns (r: Status)
      requires Valid() && (t in status ==> status[t] != Waiting) && position <= |waiting|
      modifies this
      ensures Valid() && status == old(status)[t := r]
      ensures r == if old(value) > 0 then Granted else if wait then Waiting else Failed
      ensures value == (if r == Granted then old(value) - 1 else old(value)) && granted == old(granted) + (if r == Granted then 1 else 0)
      ensures waiting == if r == Waiting then old(waiting)[..position] + [t] + old(waiting)[position..] else old(waiting)
      ensures initial == old(initial) && accepted == old(accepted) && max == old(max)
    {
      if value > 0 {
        value := value - 1;
        granted := granted + 1;
        r := Granted;
      } else if !wait {
        r := Failed;
      } else {
        waiting := waiting[..position] + [t] + waiting[position..];
        r := Waiting;
      }
      status := status[t := r];
    }

    /** rt_sem_release: the first waiting thread gets the token, without passing it through `value`. */
    method Release() returns (ok: bool)
      requires Valid()
      modifies this
      ensures Valid() && initial == old(initial) && max == old(max)
      ensures ok <==> |old(waiting)| > 0 || old(value) < max
      ensures accepted == old(accepted) + if ok then 1 else 0
      ensures if |old(waiting)| > 0
              then waiting == old(waiting)[1..] && status == old(status)[old(waiting)[0] := Granted] && value == old(value)
              else waiting == old(waiting) && status == old(status) && value == old(value) + if ok then 1 else 0
    {
      if |waiting| > 0 {
        status := status[waiting[0] := Granted];
        granted := granted + 1;
        WithoutOne(waiting, 0);
        waiting := waiting[1..];
      } else if value < max {
        value := value + 1;
      } else {
        return false;
      }
      accepted := accepted + 1;
      ok := true;
    }

    /** The timer of a waiting thread resumes it with an error. */
    method Timeout(t: nat)
      requires Valid() && t in status && status[t] == Waiting
      modifies this`waiting, this`status
      ensures Valid() && status == old(status)[t := Failed] && waiting == Removed(old(waiting), t)
    {
      var i :| 0 <= i < |waiting| && waiting[i] == t;
      WithoutAt(waiting, i);
      WithoutOne(waiting, i);
      waiting := Without(waiting, i);
      status := status[t := Failed];
    }

    /** RT_IPC_CMD_SET_VLIMIT: the new limit is cut to 16 bits and must not be 0. Threads would be resumed if
        the value were above it; but then no thread waits. */
    method SetLimit(limit: nat) returns (ok: bool)
      requires Valid()
      modifies this`max
      ensures Valid() && (ok <==> limit % 0x1_0000 > 0)
      ensures max == if ok then limit % 0x1_0000 else old(max)
    {
      var m := limit % 0x1_0000;
      if m < 1 { return false; }
      assert m < value ==> |waiting| == 0;
      max := m;
      ok := true;
    }

    /** RT_IPC_CMD_RESET: every waiting thread is resumed with an error, and the new value is cut to 16
        bits. */
    method Reset(value: nat)
      requires Valid()
      modifies this
      ensures Valid() && this.value == initial == value % 0x1_0000 && max == old(max) && |waiting| == 0 && accepted == granted == 0
      ensures status.Keys == old(status).Keys
      ensures forall t :: t in status ==> t in old(status) && status[t] == (if old(status)[t] == Waiting then Failed else old(status)[t])
    {
      ghost var all := status;
      while |waiting| > 0
        invariant Distinct(waiting) && forall t :: t in waiting ==> t in status && status[t] == Waiting
        invariant forall t :: t in status && status[t] == Waiting ==> t in waiting
        invariant status.Keys == all.Keys && max == old(max)
        invariant forall t :: t in status ==> status[t] == all[t] || (all[t] == Waiting && status[t] == Failed)
        decreases |waiting|
      {
        WithoutOne(waiting, 0);
        status := status[waiting[0] := Failed];
        waiting := waiting[1..];
      }
      var v: nat := value % 0x1_0000;
      this.value, initial, accepted, granted := v, v, 0, 0;
    }

    method Do(step: Step)
      requires Valid()
      modifies this
      ensures Valid() && Meaning() == StepOf(old(Meaning()), step)
    {
      match step {
        case Takes(t, wait, position) =>
          if (t in status ==> status[t] != Waiting) && position <= |waiting| { var r := Take(t, wait, position); }
        case Releases => var ok := Release();
        case TimesOut(t) => if t in status && status[t] == Waiting { Timeout(t); }
        case Resets(v) => Reset(v);
        case Limits(m) => var ok := SetLimit(m);
      }
    }

    /** Every run of every number of threads does what the schedule means. */
    method Run(steps: seq<Step>)
      requires Valid()
      modifies this
      ensures Valid() && Meaning() == RunOf(old(Meaning()), steps)
    {
      assert steps[..0] == [];
      for i := 0 to |steps|
        invariant Valid() && Meaning() == RunOf(old(Meaning()), steps[..i])
      {
        assert steps[..i + 1][..i] == steps[..i];
        Do(steps[i]);
      }
      assert steps[..|steps|] == steps;
    }
  }
}
