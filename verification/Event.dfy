/** The event of rt-thread/src/ipc.c: threads wait for all or for some of the flags of a set. A word
    of flags is the set of the numbers of its one bits. */
module Event {

  type Flags = set<nat>

  /** A thread in the wait list: event_set and event_info. */
  datatype Waiter = Waiter(thread: nat, wanted: Flags, all: bool, clear: bool)

  predicate Satisfied(w: Waiter, flags: Flags) {
    if w.all then w.wanted <= flags else w.wanted * flags != {}
  }

  /** Those who stay in the list, in their order. */
  function Staying(ws: seq<Waiter>, flags: Flags): seq<Waiter> {
    if |ws| == 0 then []
    else
      var w := ws[|ws| - 1];
      Staying(ws[..|ws| - 1], flags) + if Satisfied(w, flags) then [] else [w]
  }

  lemma {:induction false} StayingMembers(ws: seq<Waiter>, flags: Flags)
    ensures forall w :: w in Staying(ws, flags) <==> w in ws && !Satisfied(w, flags)
  {
    if |ws| > 0 {
      StayingMembers(ws[..|ws| - 1], flags);
      assert ws == ws[..|ws| - 1] + [ws[|ws| - 1]];
    }
  }

  /** The flags that the resumed threads want to have cleared. */
  function Cleared(ws: seq<Waiter>, flags: Flags): Flags {
    if |ws| == 0 then {}
    else
      var w := ws[|ws| - 1];
      Cleared(ws[..|ws| - 1], flags) + if Satisfied(w, flags) && w.clear then w.wanted * flags else {}
  }

  /** What each thread has got when those who can go on have been resumed. */
  function Resumed(ws: seq<Waiter>, flags: Flags, received: map<nat, Flags>): map<nat, Flags> {
    if |ws| == 0 then received
    else
      var w := ws[|ws| - 1];
      var before := Resumed(ws[..|ws| - 1], flags, received);
      if Satisfied(w, flags) then before[w.thread := w.wanted * flags] else before
  }

  /** All wanted flags are set, or some of them. */
  lemma SatisfiedMeans(w: Waiter, flags: Flags)
    ensures w.all ==> (Satisfied(w, flags) <==> forall b :: b in w.wanted ==> b in flags)
    ensures !w.all ==> (Satisfied(w, flags) <==> exists b :: b in w.wanted && b in flags)
  {
    if b :| b in w.wanted && b in flags { assert b in w.wanted * flags; }
    if w.wanted * flags != {} {
      var b :| b in w.wanted * flags;
      assert b in w.wanted && b in flags;
    }
  }

  /** The flags that are cleared: those a resumed thread wanted, had got and wanted to have cleared. */
  lemma {:induction false} ClearedMeans(ws: seq<Waiter>, flags: Flags, b: nat)
    ensures b in Cleared(ws, flags) <==> exists w :: w in ws && Satisfied(w, flags) && w.clear && b in w.wanted && b in flags
  {
    if |ws| > 0 {
      ClearedMeans(ws[..|ws| - 1], flags, b);
      assert ws == ws[..|ws| - 1] + [ws[|ws| - 1]];
      var w := ws[|ws| - 1];
      if Satisfied(w, flags) && w.clear && b in w.wanted * flags { assert w in ws; }
    }
  }

  /** Those who stay keep their order. */
  lemma {:induction false} StayingInOrder(a: seq<Waiter>, b: seq<Waiter>, flags: Flags)
    ensures Staying(a + b, flags) == Staying(a, flags) + Staying(b, flags)
    decreases |b|
  {
    if |b| == 0 {
      assert a + b == a;
    } else {
      var n := |b| - 1;
      var w, mine := b[n], if Satisfied(b[n], flags) then [] else [b[n]];
      StayingInOrder(a, b[..n], flags);
      LastStays(a + b[..n], w, flags);
      LastStays(b[..n], w, flags);
      assert b == b[..n] + [w];
      assert a + b == a + b[..n] + [w];
      assert Staying(a, flags) + (Staying(b[..n], flags) + mine) == Staying(a, flags) + Staying(b[..n], flags) + mine;
    }
  }

  lemma LastStays(a: seq<Waiter>, w: Waiter, flags: Flags)
    ensures Staying(a + [w], flags) == Staying(a, flags) + if Satisfied(w, flags) then [] else [w]
  {
    assert (a + [w])[..|a|] == a;
  }

  lemma OneMore(ws: seq<Waiter>, n: nat, flags: Flags, received: map<nat, Flags>)
    requires n < |ws|
    ensures var w, a, b := ws[n], ws[..n], ws[..n + 1];
      if Satisfied(w, flags) then
        && Staying(b, flags) == Staying(a, flags)
        && Cleared(b, flags) == Cleared(a, flags) + (if w.clear then w.wanted * flags else {})
        && Resumed(b, flags, received) == Resumed(a, flags, received)[w.thread := w.wanted * flags]
      else
        && Staying(b, flags) == Staying(a, flags) + [w]
        && Cleared(b, flags) == Cleared(a, flags)
        && Resumed(b, flags, received) == Resumed(a, flags, received)
  {
    assert ws[..n + 1][..n] == ws[..n];
  }

  lemma TakeOut(kept: seq<Waiter>, left: seq<Waiter>)
    requires |left| > 0
    ensures (kept + left)[|kept|] == left[0]
    ensures (kept + left)[..|kept|] + (kept + left)[|kept| + 1..] == kept + left[1..]
    ensures kept + left == kept + [left[0]] + left[1..]
  {
    assert left == [left[0]] + left[1..];
  }

  /** All resumed threads have seen the same flags, and nobody else is touched. */
  lemma {:induction false} ResumedThread(ws: seq<Waiter>, flags: Flags, received: map<nat, Flags>, t: nat)
    requires DistinctThreads(ws)
    ensures var r := Resumed(ws, flags, received);
      && (forall w :: w in ws && w.thread == t && Satisfied(w, flags) ==> t in r && r[t] == w.wanted * flags)
      && ((forall w :: w in ws && w.thread == t ==> !Satisfied(w, flags)) ==>
            (t in r <==> t in received) && (t in r ==> r[t] == received[t]))
  {
    if |ws| > 0 {
      var n := |ws| - 1;
      assert ws == ws[..n] + [ws[n]];
      ResumedThread(ws[..n], flags, received, t);
      if ws[n].thread == t {
        forall w | w in ws[..n] ensures w.thread != t {
          var k :| 0 <= k < n && ws[..n][k] == w;
          assert ws[k].thread != ws[n].thread;
        }
      }
    }
  }

  predicate DistinctThreads(ws: seq<Waiter>) {
    forall i, j :: 0 <= i < j < |ws| ==> ws[i].thread != ws[j].thread
  }

  lemma {:induction false} StayingDistinct(ws: seq<Waiter>, flags: Flags)
    requires DistinctThreads(ws)
    ensures DistinctThreads(Staying(ws, flags))
  {
    if |ws| > 0 {
      var n := |ws| - 1;
      StayingDistinct(ws[..n], flags);
      StayingMembers(ws[..n], flags);
      forall k | 0 <= k < |Staying(ws[..n], flags)| ensures Staying(ws[..n], flags)[k].thread != ws[n].thread {
        assert Staying(ws[..n], flags)[k] in ws[..n];
      }
    }
  }

  datatype Outcome = Refused | Sleeps | Got(flags: Flags)

  datatype Step =
    | Sends(more: Flags)
    | Receives(w: Waiter, wait: bool, position: nat)
    | TimesOut(position: nat)
    | Resets

  // ---- What a schedule means --------------------------------------------------------------------------------

  datatype State = State(flags: Flags, waiting: seq<Waiter>, received: map<nat, Flags>)

  /** What a step does, and what a receive comes to; nothing if the thread waits already. */
  function StepOf(s: State, step: Step): (State, seq<Outcome>) {
    match step
    case Sends(more) =>
      var full := s.flags + more;
      if more == {} then (s, [])
      else (State(full - Cleared(s.waiting, full), Staying(s.waiting, full), Resumed(s.waiting, full, s.received)), [])
    case Receives(w, wait, position) =>
      if position > |s.waiting| || exists v :: v in s.waiting && v.thread == w.thread then (s, [])
      else if w.wanted == {} then (s, [Refused])
      else if Satisfied(w, s.flags) then
        (s.(flags := if w.clear then s.flags - w.wanted else s.flags), [Got(w.wanted * s.flags)])
      else if wait then (s.(waiting := s.waiting[..position] + [w] + s.waiting[position..]), [Sleeps])
      else (s, [Refused])
    case TimesOut(i) =>
      if i < |s.waiting| then (s.(waiting := s.waiting[..i] + s.waiting[i + 1..]), []) else (s, [])
    case Resets => (State({}, [], s.received), [])
  }

  function RunOf(s: State, steps: seq<Step>): (State, seq<Outcome>)
    decreases |steps|
  {
    if |steps| == 0 then (s, [])
    else
      var (before, outcomes) := RunOf(s, steps[..|steps| - 1]);
      var (after, more) := StepOf(before, steps[|steps| - 1]);
      (after, outcomes + more)
  }

  class Group {
    var flags: Flags // set
    var waiting: seq<Waiter>
    var received: map<nat, Flags> // what each resumed thread got

    constructor ()
      ensures Valid() && flags == {} && waiting == []
    {
      flags, waiting, received := {}, [], map[];
    }

    /** No thread waits for what is there. */
    ghost predicate Valid()
      reads this
    {
      (forall w :: w in waiting ==> !Satisfied(w, flags)) && DistinctThreads(waiting)
    }

    ghost function Meaning(): State
      reads this
    {
      State(flags, waiting, received)
    }

    /** rt_event_send: everyone whose condition holds is resumed, and all see the same flags; only then
        are flags cleared. */
    method Send(more: Flags) returns (ok: bool)
      requires Valid()
      modifies this
      ensures Valid() && (ok <==> more != {})
      ensures !ok ==> flags == old(flags) && waiting == old(waiting) && received == old(received)
      ensures ok ==> var full := old(flags) + more;
        && waiting == Staying(old(waiting), full)
        && flags == full - Cleared(old(waiting), full)
        && received == Resumed(old(waiting), full, old(received))
    {
      if more == {} { return false; }
      flags := flags + more;
      StayingDistinct(waiting, flags);
      StayingMembers(waiting, flags);
      var clear := ResumeAll();
      ok := true;
      if clear != {} {
        flags := flags - clear;
      }
    }

    /** The loop over the wait list, from which each resumed thread is taken. */
    method ResumeAll() returns (clear: Flags)
      modifies this`waiting, this`received
      ensures waiting == Staying(old(waiting), flags) && clear == Cleared(old(waiting), flags)
      ensures received == Resumed(old(waiting), flags, old(received))
    {
      clear := {};
      ghost var all, n := waiting, 0;
      ghost var kept, left: seq<Waiter> := [], waiting;
      assert all[..0] == [];
      var i := 0;
      while i < |waiting|
        invariant n <= |all| && left == all[n..] && kept == Staying(all[..n], flags)
        invariant i == |kept| && waiting == kept + left
        invariant clear == Cleared(all[..n], flags) && received == Resumed(all[..n], flags, old(received))
        decreases |all| - n
      {
        TakeOut(kept, left);
        OneMore(all, n, flags, old(received));
        var w := waiting[i];
        if Satisfied(w, flags) {
          var got := w.wanted * flags;
          if w.clear { clear := clear + got; }
          received := received[w.thread := got];
          waiting := waiting[..i] + waiting[i + 1..];
        } else {
          i := i + 1;
          kept := kept + [w];
        }
        n, left := n + 1, left[1..];
      }
      assert all[..n] == all;
    }

    /** _rt_event_recv up to the point where it returns or sleeps, at some position in the list. */
    method Receive(w: Waiter, wait: bool, position: nat) returns (r: Outcome)
      requires Valid() && position <= |waiting| && forall v :: v in waiting ==> v.thread != w.thread
      modifies this
      ensures Valid() && received == old(received)
      ensures r == if w.wanted == {} then Refused else if Satisfied(w, old(flags)) then Got(w.wanted * old(flags))
                   else if wait then Sleeps else Refused
      ensures flags == if r.Got? && w.clear then old(flags) - w.wanted else old(flags)
      ensures waiting == if r.Sleeps? then old(waiting)[..position] + [w] + old(waiting)[position..] else old(waiting)
    {
      if w.wanted == {} { return Refused; }
      if Satisfied(w, flags) {
        r := Got(w.wanted * flags);
        if w.clear { flags := flags - w.wanted; }
      } else if !wait {
        r := Refused;
      } else {
        assert waiting == waiting[..position] + waiting[position..];
        waiting := waiting[..position] + [w] + waiting[position..];
        r := Sleeps;
      }
    }

    /** The timer of a waiting thread resumes it with an error. */
    method Timeout(i: nat)
      requires Valid() && i < |waiting|
      modifies this`waiting
      ensures Valid() && waiting == old(waiting)[..i] + old(waiting)[i + 1..]
    {
      assert forall w :: w in waiting[..i] + waiting[i + 1..] ==> w in waiting;
      waiting := waiting[..i] + waiting[i + 1..];
    }

    /** RT_IPC_CMD_RESET. */
    method Reset()
      requires Valid()
      modifies this`flags, this`waiting
      ensures Valid() && flags == {} && waiting == []
    {
      waiting, flags := [], {};
    }

    method Do(step: Step) returns (outcomes: seq<Outcome>)
      requires Valid()
      modifies this
      ensures Valid() && (Meaning(), outcomes) == StepOf(old(Meaning()), step)
    {
      outcomes := [];
      match step {
        case Sends(more) => var ok := Send(more);
        case Receives(w, wait, position) =>
          if position <= |waiting| && forall v :: v in waiting ==> v.thread != w.thread {
            var r := Receive(w, wait, position);
            outcomes := [r];
          }
        case TimesOut(i) => if i < |waiting| { Timeout(i); }
        case Resets => Reset();
      }
    }

    /** In every run, whatever the threads do, no one waits for what is there, and every receive comes to what
        the schedule means. */
    method Run(steps: seq<Step>) returns (outcomes: seq<Outcome>)
      requires Valid()
      modifies this
      ensures Valid() && (Meaning(), outcomes) == RunOf(old(Meaning()), steps)
    {
      outcomes := [];
      assert steps[..0] == [];
      for i := 0 to |steps|
        invariant Valid() && (Meaning(), outcomes) == RunOf(old(Meaning()), steps[..i])
      {
        assert steps[..i + 1][..i] == steps[..i];
        var more := Do(steps[i]);
        outcomes := outcomes + more;
      }
      assert steps[..|steps|] == steps;
    }
  }
}
