/** The wait lists of rt-thread/src/ipc.c: threads that sleep until something is available, and those
    that were woken for it and have not run yet. Whatever is available may be taken by any thread that
    runs first, so a woken thread looks again. */
module WaitLists {
  import opened Basics

  /** A list of sleeping threads, in the order in which they are woken, and the woken ones. */
  datatype Gate = Gate(waiting: seq<nat>, woken: set<nat>)

  ghost predicate Orderly(g: Gate) {
    Distinct(g.waiting) && forall t :: t in g.waiting ==> t !in g.woken
  }

  /** No wake-up is lost: while a thread sleeps, each of the `n` things that are available has a thread
      that was woken for it. */
  predicate Served(g: Gate, n: nat) {
    |g.waiting| > 0 ==> n <= |g.woken|
  }

  /** rt_susp_list_dequeue with RT_EOK, if the list is not empty. */
  function Wake(g: Gate): Gate {
    if |g.waiting| == 0 then g else Gate(g.waiting[1..], g.woken + {g.waiting[0]})
  }

  /** rt_thread_suspend_to_list: a thread goes to sleep, perhaps again. */
  function Join(g: Gate, t: nat, position: nat): Gate
    requires position <= |g.waiting|
  {
    Gate(g.waiting[..position] + [t] + g.waiting[position..], g.woken - {t})
  }

  /** A thread that runs is no longer one of those that have not. */
  function Runs(g: Gate, t: nat): Gate {
    g.(woken := g.woken - {t})
  }

  /** A thread leaves the list of sleeping threads: its time is over, or it is closed. */
  function Leaves(g: Gate, i: nat): Gate
    requires i < |g.waiting|
  {
    g.(waiting := g.waiting[..i] + g.waiting[i + 1..])
  }

  /** Who sleeps at the front is woken first; who joins or leaves does so at its place, and all others keep
      their order. */
  lemma InOrder(before: seq<nat>, t: nat, after: seq<nat>, woken: set<nat>)
    ensures Wake(Gate([t] + after, woken)) == Gate(after, woken + {t}) && Wake(Gate([], woken)) == Gate([], woken)
    ensures Join(Gate(before + after, woken), t, |before|) == Gate(before + [t] + after, woken - {t})
    ensures Leaves(Gate(before + [t] + after, woken), |before|) == Gate(before + after, woken)
  {
    assert ([t] + after)[1..] == after;
    assert (before + after)[..|before|] == before && (before + after)[|before|..] == after;
    var s := before + [t] + after;
    assert s[..|before|] == before && s[|before| + 1..] == after;
  }

  /** One more is available, and one thread is woken. */
  lemma WakeServes(g: Gate, n: nat)
    requires Orderly(g) && Served(g, n)
    ensures Orderly(Wake(g)) && Served(Wake(g), n + 1)
  {
    if |g.waiting| > 0 {
      var first := g.waiting[0];
      assert first in g.waiting;
      assert |g.woken + {first}| == |g.woken| + 1;
    }
  }

  /** A thread that runs takes what is available. */
  lemma RunsServes(g: Gate, t: nat, n: nat)
    requires Orderly(g) && Served(g, n + 1)
    ensures Orderly(Runs(g, t)) && Served(Runs(g, t), n)
  {
    if t in g.woken {
      assert |g.woken - {t}| == |g.woken| - 1;
    } else {
      assert g.woken - {t} == g.woken;
    }
  }

  /** A thread that runs and finds nothing available does no harm. */
  lemma LookServes(g: Gate, t: nat)
    requires Orderly(g)
    ensures Orderly(Runs(g, t)) && Served(Runs(g, t), 0)
  {
  }

  /** A thread goes to sleep because nothing is available. */
  lemma JoinServes(g: Gate, t: nat, position: nat)
    requires Orderly(g) && t !in g.waiting && position <= |g.waiting|
    ensures Orderly(Join(g, t, position)) && Served(Join(g, t, position), 0)
  {
    var s := Join(g, t, position).waiting;
    assert forall i :: 0 <= i < |s| ==> s[i] == if i < position then g.waiting[i] else if i == position then t else g.waiting[i - 1];
  }

  lemma LeavesServes(g: Gate, i: nat, n: nat)
    requires Orderly(g) && i < |g.waiting| && Served(g, n)
    ensures Orderly(Leaves(g, i)) && Served(Leaves(g, i), n)
    ensures forall t :: t in Leaves(g, i).waiting ==> t in g.waiting
  {
    var s := Leaves(g, i).waiting;
    assert forall j :: 0 <= j < |s| ==> s[j] == g.waiting[if j < i then j else j + 1];
  }

  /** Closing a woken thread before it has run loses its wake-up exactly when another thread sleeps and
      there are as many woken threads as there are things available. */
  lemma WakeupLost(g: Gate, t: nat, n: nat)
    requires Orderly(g) && Served(g, n) && t in g.woken
    ensures Served(Runs(g, t), n) <==> |g.waiting| == 0 || n < |g.woken|
  {
    assert |g.woken - {t}| == |g.woken| - 1;
  }
}
