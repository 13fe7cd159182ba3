/** The double-checked construction that all three `getDatabase` functions
    share, with threads interleaving over the static `INSTANCE` and the class
    lock: a thread reads `INSTANCE`; if it is null it takes the lock, reads
    `INSTANCE` again, builds the database only if it is still null, and
    releases the lock. */
module Singleton {
  import opened Wrappers

  /** Where a thread is inside `getDatabase`: about to read `INSTANCE`, having
      read null and waiting for the lock, holding the lock, or returned with
      the database it got. */
  datatype Pc = Start | Waiting | Locked | Done(db: nat)

  /** The shared state. An instance is named by the number of the build that
      made it; `owner` is the thread holding the lock; `builds` counts the
      calls to the builder. */
  datatype World = World(instance: Option<nat>, owner: Option<nat>, pcs: seq<Pc>, builds: nat)

  /** `n` threads that have all just called `getDatabase`, before any
      database exists. */
  function Init(n: nat): (w: World)
    ensures |w.pcs| == n && w.instance.None? && w.builds == 0
  {
    World(None, None, seq(n, _ => Start), 0)
  }

  /** One atomic step of thread `t`. `recheck` says whether the null test is
      repeated inside the lock, as it is in all three holders. A thread that
      does not exist, is blocked or has returned does not move. */
  function Step(w: World, t: nat, recheck: bool): (r: World)
    ensures |r.pcs| == |w.pcs|
    ensures forall u :: 0 <= u < |w.pcs| && u != t ==> r.pcs[u] == w.pcs[u]
    ensures forall u :: 0 <= u < |w.pcs| && w.pcs[u].Done? ==> r.pcs[u] == w.pcs[u]
    ensures w.builds <= r.builds <= w.builds + 1
    ensures recheck && w.instance.Some? ==> r.instance == w.instance && r.builds == w.builds
  {
    if t >= |w.pcs| then w
    else match w.pcs[t]
      case Start =>
        if w.instance.Some? then w.(pcs := w.pcs[t := Done(w.instance.value)])
        else w.(pcs := w.pcs[t := Waiting])
      case Waiting =>
        if w.owner.None? then w.(owner := Some(t), pcs := w.pcs[t := Locked]) else w
      case Locked =>
        if recheck && w.instance.Some? then
          w.(owner := None, pcs := w.pcs[t := Done(w.instance.value)])
        else
          w.(instance := Some(w.builds + 1), owner := None,
             pcs := w.pcs[t := Done(w.builds + 1)], builds := w.builds + 1)
      case Done(_) => w
  }

  /** The steps of a schedule, one thread number per step, in order. */
  function Run(w: World, schedule: seq<nat>, recheck: bool): (r: World)
    ensures |r.pcs| == |w.pcs|
    ensures forall u :: 0 <= u < |w.pcs| && w.pcs[u].Done? ==> r.pcs[u] == w.pcs[u]
    ensures w.builds <= r.builds <= w.builds + |schedule|
    ensures recheck && w.instance.Some? ==> r.instance == w.instance && r.builds == w.builds
    decreases |schedule|
  {
    if schedule == [] then w else Run(Step(w, schedule[0], recheck), schedule[1..], recheck)
  }

  /** At most one build has happened and `INSTANCE` is its product; only the
      lock owner is inside the lock; every thread that returned got the one
      database. */
  predicate Inv(w: World)
  {
    w.builds <= 1 &&
    w.instance == (if w.builds == 0 then None else Some(1)) &&
    (w.owner.Some? ==> w.owner.value < |w.pcs| && w.pcs[w.owner.value] == Locked) &&
    (forall t :: 0 <= t < |w.pcs| && w.pcs[t] == Locked ==> w.owner == Some(t)) &&
    (forall t :: 0 <= t < |w.pcs| && w.pcs[t].Done? ==> w.pcs[t].db == 1 && w.builds == 1)
  }

  lemma InitInv(n: nat)
    ensures Inv(Init(n))
  {
  }

  /** With the re-check inside the lock, every step keeps the invariant. */
  lemma StepInv(w: World, t: nat)
    requires Inv(w)
    ensures Inv(Step(w, t, true))
  {
    if t < |w.pcs| && w.pcs[t] == Locked {
      assert w.owner == Some(t);
    }
  }

  /** With the re-check, every schedule keeps the invariant. */
  lemma {:induction false} RunInv(w: World, schedule: seq<nat>)
    requires Inv(w)
    ensures Inv(Run(w, schedule, true))
    decreases |schedule|
  {
    if schedule != [] {
      StepInv(w, schedule[0]);
      RunInv(Step(w, schedule[0], true), schedule[1..]);
    }
  }

  /** However the threads interleave, the database is built at most once and
      all callers that returned hold the same instance. */
  lemma OneInstance(n: nat, schedule: seq<nat>)
    ensures Run(Init(n), schedule, true).builds <= 1
    ensures forall t, u ::
      0 <= t < n && 0 <= u < n &&
      Run(Init(n), schedule, true).pcs[t].Done? && Run(Init(n), schedule, true).pcs[u].Done? ==>
      Run(Init(n), schedule, true).pcs[t] == Run(Init(n), schedule, true).pcs[u]
  {
    InitInv(n);
    RunInv(Init(n), schedule);
  }

  /** Without the re-check, two threads that both read null before either
      takes the lock build two databases and return different ones. */
  lemma WithoutRecheckTwoBuilds(w: World, schedule: seq<nat>)
    requires w == Init(2) && schedule == [0, 1, 0, 0, 1, 1]
    ensures Run(w, schedule, false).builds == 2
    ensures Run(w, schedule, false).pcs == [Done(1), Done(2)]
  {
    var w1 := Step(w, 0, false);
    assert w1.pcs == [Waiting, Start];
    var w2 := Step(w1, 1, false);
    assert w2.pcs == [Waiting, Waiting];
    var w3 := Step(w2, 0, false);
    assert w3.pcs == [Locked, Waiting];
    var w4 := Step(w3, 0, false);
    assert w4.pcs == [Done(1), Waiting] && w4.owner.None?;
    var w5 := Step(w4, 1, false);
    assert w5.pcs == [Done(1), Locked];
    var w6 := Step(w5, 1, false);
    assert w6.pcs == [Done(1), Done(2)] && w6.builds == 2;
    RunSteps(w, schedule, false, [w1, w2, w3, w4, w5, w6]);
  }

  /** The same schedule with the re-check builds once. */
  lemma WithRecheckOneBuild(w: World, schedule: seq<nat>)
    requires w == Init(2) && schedule == [0, 1, 0, 0, 1, 1]
    ensures Run(w, schedule, true).builds == 1
    ensures Run(w, schedule, true).pcs == [Done(1), Done(1)]
  {
    var w1 := Step(w, 0, true);
    assert w1.pcs == [Waiting, Start];
    var w2 := Step(w1, 1, true);
    assert w2.pcs == [Waiting, Waiting];
    var w3 := Step(w2, 0, true);
    assert w3.pcs == [Locked, Waiting];
    var w4 := Step(w3, 0, true);
    assert w4.pcs == [Done(1), Waiting] && w4.owner.None? && w4.instance == Some(1);
    var w5 := Step(w4, 1, true);
    assert w5.pcs == [Done(1), Locked];
    var w6 := Step(w5, 1, true);
    assert w6.pcs == [Done(1), Done(1)] && w6.builds == 1;
    RunSteps(w, schedule, true, [w1, w2, w3, w4, w5, w6]);
  }

  /** A run is the last of its intermediate worlds. */
  lemma {:induction false} RunSteps(w: World, schedule: seq<nat>, recheck: bool, worlds: seq<World>)
    requires |worlds| == |schedule| > 0
    requires worlds[0] == Step(w, schedule[0], recheck)
    requires forall k :: 0 < k < |worlds| ==> worlds[k] == Step(worlds[k - 1], schedule[k], recheck)
    ensures Run(w, schedule, recheck) == worlds[|worlds| - 1]
    decreases |schedule|
  {
    if |schedule| > 1 {
      RunSteps(worlds[0], schedule[1..], recheck, worlds[1..]);
    } else {
      assert schedule[1..] == [];
    }
  }
}
