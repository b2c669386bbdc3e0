/**
 * The work-stealing scheduler over unique coroutines. Every thread runs a
 * scheduler with a private FIFO of at most ten ready coroutines, a work
 * deque that takes the overflow and that other threads steal from, a
 * channel for messages, the list of its neighbours (the other schedulers'
 * channels and stealers), and a slab from I/O tokens to the coroutines
 * blocked on them.
 *
 * What the threads share is one `Runtime` object: the coroutines by handle,
 * the deques and channels by index, the registry of all schedulers, and the
 * flag that says the schedulers are running. A deque's front is the end
 * stealers take from; its owner pushes at the back.
 */
module Scheduler {
  import opened Types
  import opened SymmetricScript
  import Unique = CoroutineUnique

  /** How many ready coroutines the private queue holds before `ready` uses the deque. */
  const MAX_PRIVATE_WORK_NUM: nat := 10

  /** The payloads of the two assertions `Scheduler::run` starts with. */
  const THREADS_PANIC: string := "Threads must >= 1"
  const ALREADY_RUNNING_PANIC: string := "Schedulers are already running!"

  /** A coroutine, by its place in the runtime's table. */
  type Handle = nat

  /** An I/O registration in a scheduler's slab. */
  type Token = nat

  /** A registry entry: a scheduler's channel and the stealer of its deque, by index. */
  datatype Neighbor = Neighbor(chan: nat, stealer: nat)

  /** `SchedMessage`. */
  datatype SchedMessage = NewNeighbor(n: Neighbor) | Shutdown

  /** How one pass of the scheduling loop ended. */
  datatype RoundEnd =
    | Stopped     // `Shutdown` received: the loop is left
    | RanLocally  // something from the private queue or the own deque ran
    | IoPending   // nothing to run, but I/O registrations are pending
    | Stole       // neighbours' work ran
    | Slept       // nothing anywhere: the thread sleeps
    | Crashed     // a resumed coroutine came back `Normal`: `unreachable!()`

  /**
   * `ready`: the private queue takes the handle at its back while it holds
   * fewer than ten; otherwise the deque does. Exactly one of the two grows,
   * by exactly this handle, and a private queue of at most ten stays so.
   */
  function ReadyPush(private: seq<Handle>, deque: seq<Handle>, h: Handle): (r: (seq<Handle>, seq<Handle>))
    ensures r == (private + [h], deque) || r == (private, deque + [h])
    ensures r.0 == private + [h] <==> |private| < MAX_PRIVATE_WORK_NUM
    ensures |private| <= MAX_PRIVATE_WORK_NUM ==> |r.0| <= MAX_PRIVATE_WORK_NUM
  {
    if |private| >= MAX_PRIVATE_WORK_NUM then (private, deque + [h]) else (private + [h], deque)
  }

  /** Every registry entry names a channel and a deque that exist. */
  predicate EntriesIn(entries: seq<Neighbor>, channels: nat, deques: nat)
  {
    forall i :: 0 <= i < |entries| ==> entries[i].chan < channels && entries[i].stealer < deques
  }

  /** Every entry has a channel of its own. */
  predicate DistinctChannels(entries: seq<Neighbor>)
  {
    forall i, j :: 0 <= i < j < |entries| ==> entries[i].chan != entries[j].chan
  }

  /** `msg` sent on the channel of each entry, in order. */
  function Broadcast(channels: seq<seq<SchedMessage>>, entries: seq<Neighbor>, msg: SchedMessage): (r: seq<seq<SchedMessage>>)
    requires forall i :: 0 <= i < |entries| ==> entries[i].chan < |channels|
    ensures |r| == |channels|
    decreases |entries|
  {
    if entries == [] then channels
    else
      var prev := Broadcast(channels, entries[..|entries| - 1], msg);
      var c := entries[|entries| - 1].chan;
      prev[c := prev[c] + [msg]]
  }

  /**
   * With one channel per entry, a broadcast appends `msg` exactly once to
   * each entry's channel and leaves every other channel alone.
   */
  lemma {:induction false} BroadcastReachesEach(channels: seq<seq<SchedMessage>>, entries: seq<Neighbor>, msg: SchedMessage)
    requires forall i :: 0 <= i < |entries| ==> entries[i].chan < |channels|
    requires DistinctChannels(entries)
    ensures var r := Broadcast(channels, entries, msg);
      && (forall i :: 0 <= i < |entries| ==> r[entries[i].chan] == channels[entries[i].chan] + [msg])
      && (forall c :: 0 <= c < |channels| && (forall i :: 0 <= i < |entries| ==> entries[i].chan != c) ==> r[c] == channels[c])
    decreases |entries|
  {
    if entries != [] {
      var init := entries[..|entries| - 1];
      assert DistinctChannels(init);
      BroadcastReachesEach(channels, init, msg);
    }
  }

  /** `Stealer::steal` on deque `d`: its oldest handle, if it has one. */
  function Steal(ds: seq<seq<Handle>>, d: nat): (r: (seq<seq<Handle>>, Option<Handle>))
    requires d < |ds|
    ensures |r.0| == |ds|
    ensures r.1.None? <==> ds[d] == []
    ensures r.1.None? ==> r.0 == ds
    ensures r.1.Some? ==> [r.1.value] + r.0[d] == ds[d]
    ensures forall e :: 0 <= e < |ds| && e != d ==> r.0[e] == ds[e]
  {
    if ds[d] == [] then (ds, None) else (ds[d := ds[d][1..]], Some(ds[d][0]))
  }

  /** Every handle in the deques names a coroutine of a table of `n`. */
  predicate HandlesIn(ds: seq<seq<Handle>>, n: nat)
  {
    forall d, i :: 0 <= d < |ds| && 0 <= i < |ds[d]| ==> ds[d][i] < n
  }

  lemma StealKeepsHandles(ds: seq<seq<Handle>>, d: nat, n: nat)
    requires d < |ds| && HandlesIn(ds, n)
    ensures var r := Steal(ds, d); HandlesIn(r.0, n) && (r.1.Some? ==> r.1.value < n)
  {
    var r := Steal(ds, d);
    if r.1.Some? {
      assert ds[d][0] < n;
      forall e, i | 0 <= e < |r.0| && 0 <= i < |r.0[e]|
        ensures r.0[e][i] < n
      {
        if e == d {
          assert r.0[e][i] == ds[d][i + 1];
        }
      }
    }
  }

  /** One `steal` from each neighbour in order, keeping what was got. */
  function StealEach(ds: seq<seq<Handle>>, ns: seq<Neighbor>): (r: (seq<seq<Handle>>, seq<Handle>))
    requires forall i :: 0 <= i < |ns| ==> ns[i].stealer < |ds|
    ensures |r.0| == |ds| && |r.1| <= |ns|
    ensures forall d :: 0 <= d < |ds| && (forall i :: 0 <= i < |ns| ==> ns[i].stealer != d) ==> r.0[d] == ds[d]
    decreases |ns|
  {
    if ns == [] then (ds, [])
    else
      var prev := StealEach(ds, ns[..|ns| - 1]);
      var s := Steal(prev.0, ns[|ns| - 1].stealer);
      (s.0, prev.1 + (if s.1.Some? then [s.1.value] else []))
  }

  /** The steals from the first `i + 1` neighbours: those from the first `i`, then one more. */
  lemma StealEachStep(ds: seq<seq<Handle>>, ns: seq<Neighbor>, i: nat)
    requires i < |ns| && forall k :: 0 <= k < |ns| ==> ns[k].stealer < |ds|
    ensures var prev := StealEach(ds, ns[..i]);
      var s := Steal(prev.0, ns[i].stealer);
      StealEach(ds, ns[..i + 1]) == (s.0, prev.1 + (if s.1.Some? then [s.1.value] else []))
  {
    assert ns[..i + 1][..i] == ns[..i];
  }

  /** When the steals got nothing, every neighbour's deque was empty and nothing changed. */
  lemma {:induction false} NothingStolenMeansAllEmpty(ds: seq<seq<Handle>>, ns: seq<Neighbor>)
    requires forall i :: 0 <= i < |ns| ==> ns[i].stealer < |ds|
    requires StealEach(ds, ns).1 == []
    ensures StealEach(ds, ns).0 == ds
    ensures forall i :: 0 <= i < |ns| ==> ds[ns[i].stealer] == []
    decreases |ns|
  {
    if ns != [] {
      var init := ns[..|ns| - 1];
      NothingStolenMeansAllEmpty(ds, init);
      assert forall i :: 0 <= i < |init| ==> ns[i] == init[i];
    }
  }

  /** How many handles all the deques hold together. */
  function Total(ds: seq<seq<Handle>>): nat
  {
    if ds == [] then 0 else |ds[0]| + Total(ds[1..])
  }

  /** Replacing one deque changes the total by the change in its length. */
  lemma {:induction false} TotalUpdate(ds: seq<seq<Handle>>, d: nat, x: seq<Handle>)
    requires d < |ds|
    ensures Total(ds[d := x]) + |ds[d]| == Total(ds) + |x|
    decreases |ds|
  {
    if d > 0 {
      assert ds[d := x][1..] == ds[1..][d - 1 := x];
      TotalUpdate(ds[1..], d - 1, x);
    } else {
      assert ds[d := x][1..] == ds[1..];
    }
  }

  /** Stealing only moves handles: what was stolen plus what is left is what there was. */
  lemma {:induction false} StealEachConserves(ds: seq<seq<Handle>>, ns: seq<Neighbor>)
    requires forall i :: 0 <= i < |ns| ==> ns[i].stealer < |ds|
    ensures var r := StealEach(ds, ns); Total(r.0) + |r.1| == Total(ds)
    decreases |ns|
  {
    if ns != [] {
      var prev := StealEach(ds, ns[..|ns| - 1]);
      StealEachConserves(ds, ns[..|ns| - 1]);
      var d := ns[|ns| - 1].stealer;
      if prev.0[d] != [] {
        TotalUpdate(prev.0, d, prev.0[d][1..]);
      }
    }
  }

  /** What the scheduling loop has left to do with queued coroutines: their count plus their measures. */
  function Load(q: seq<Handle>, cos: seq<Co>): nat
    requires forall i :: 0 <= i < |q| ==> q[i] < |cos|
  {
    if q == [] then 0 else Measure(cos[q[0]]) + 1 + Load(q[1..], cos)
  }

  /** What `resume_coroutine` does to the coroutine table when it serves `h`. */
  function ResumeStep(cos: seq<Co>, h: Handle): (r: seq<Co>)
    requires h < |cos|
    ensures |r| == |cos| && forall k :: 0 <= k < |cos| && k != h ==> r[k] == cos[k]
  {
    if Resumable(cos[h].state) then cos[h := Unique.ResumeSpec(cos[h], None, Running, None).target] else cos
  }

  /** Running in two stretches is running. */
  lemma OnlyRanTrans(s0: Snap, s1: Snap, s2: Snap, own: nat)
    requires OnlyRan(s0, s1, own) && OnlyRan(s1, s2, own)
    ensures OnlyRan(s0, s2, own)
  {
  }

  lemma {:induction false} LoadAppend(q: seq<Handle>, h: Handle, cos: seq<Co>)
    requires forall i :: 0 <= i < |q| ==> q[i] < |cos|
    requires h < |cos|
    ensures Load(q + [h], cos) == Load(q, cos) + Measure(cos[h]) + 1
    decreases |q|
  {
    if q != [] {
      assert (q + [h])[1..] == q[1..] + [h];
      LoadAppend(q[1..], h, cos);
    }
  }

  /** Resuming a coroutine can only lower the load of a queue. */
  lemma {:induction false} LoadAfterResume(q: seq<Handle>, cos: seq<Co>, h: Handle, c: Co)
    requires forall i :: 0 <= i < |q| ==> q[i] < |cos|
    requires h < |cos| && Measure(c) <= Measure(cos[h])
    ensures Load(q, cos[h := c]) <= Load(q, cos)
    decreases |q|
  {
    if q != [] {
      LoadAfterResume(q[1..], cos, h, c);
    }
  }

  /** What a scheduler can see at one moment: its own fields and the runtime's. */
  datatype Snap = Snap(neighbors: seq<Neighbor>, slabs: map<Token, Handle>, privateWork: seq<Handle>,
                       coroutines: seq<Co>, deques: seq<seq<Handle>>, channels: seq<seq<SchedMessage>>,
                       registry: seq<Neighbor>, started: bool)

  /**
   * Between `s0` and `s1` coroutines were only resumed and readied: no
   * message, registration, neighbour or other deque changed, and the own
   * deque `own` was only pushed to.
   */
  predicate OnlyRan(s0: Snap, s1: Snap, own: nat)
  {
    && s1.neighbors == s0.neighbors && s1.slabs == s0.slabs
    && s1.channels == s0.channels && s1.registry == s0.registry && s1.started == s0.started
    && |s1.coroutines| == |s0.coroutines| && |s1.deques| == |s0.deques|
    && (forall d :: 0 <= d < |s0.deques| && d != own ==> s1.deques[d] == s0.deques[d])
    && (own < |s0.deques| ==> s0.deques[own] <= s1.deques[own])
  }

  /** What all scheduler threads share. */
  class Runtime {
    var coroutines: seq<Co>
    var deques: seq<seq<Handle>>
    var channels: seq<seq<SchedMessage>>
    var registry: seq<Neighbor>
    var started: bool

    /** Every handle, index and message names something that exists; each registered scheduler has its own channel. */
    ghost predicate Valid()
      reads this
    {
      && HandlesIn(deques, |coroutines|)
      && (forall c, i :: 0 <= c < |channels| && 0 <= i < |channels[c]| && channels[c][i].NewNeighbor? ==>
            channels[c][i].n.chan < |channels| && channels[c][i].n.stealer < |deques|)
      && EntriesIn(registry, |channels|, |deques|)
      && DistinctChannels(registry)
    }

    /** The process before any scheduler exists. */
    constructor ()
      ensures Valid() && coroutines == [] && deques == [] && channels == [] && registry == [] && !started
    {
      coroutines := [];
      deques := [];
      channels := [];
      registry := [];
      started := false;
    }

    /**
     * Send `msg` to every registered scheduler, in registry order, as
     * `Scheduler::new` does with `NewNeighbor` and the guard of
     * `Scheduler::run` does with `Shutdown`.
     */
    method Announce(msg: SchedMessage)
      requires Valid() && (msg.NewNeighbor? ==> msg.n.chan < |channels| && msg.n.stealer < |deques|)
      modifies this
      ensures coroutines == old(coroutines) && deques == old(deques) && registry == old(registry) && started == old(started)
      ensures Valid() && channels == Broadcast(old(channels), registry, msg)
    {
      for i := 0 to |registry|
        invariant registry == old(registry) && deques == old(deques) && coroutines == old(coroutines)
        invariant started == old(started)
        invariant Valid() && |channels| == |old(channels)|
        invariant channels == Broadcast(old(channels), registry[..i], msg)
      {
        assert registry[..i + 1][..i] == registry[..i];
        var c := registry[i].chan;
        channels := channels[c := channels[c] + [msg]];
      }
      assert registry[..|registry|] == registry;
    }

    /**
     * The registry part of `Scheduler::new`: a new deque and channel, a
     * `NewNeighbor` to every scheduler already registered, then the new one
     * registered at the end. `earlier` is the registry as it was, which
     * becomes the new scheduler's neighbours.
     */
    method Enlist() returns (me: Neighbor, earlier: seq<Neighbor>)
      requires Valid()
      modifies this
      ensures Valid() && earlier == old(registry) && registry == old(registry) + [me]
      ensures me == Neighbor(|old(channels)|, |old(deques)|)
      ensures deques == old(deques) + [[]]
      ensures channels == Broadcast(old(channels) + [[]], old(registry), NewNeighbor(me))
      ensures coroutines == old(coroutines) && started == old(started)
    {
      deques := deques + [[]];
      channels := channels + [[]];
      me := Neighbor(|channels| - 1, |deques| - 1);
      earlier := registry;
      Announce(NewNeighbor(me));
      registry := registry + [me];
    }

    /**
     * The start of `Scheduler::run`: fewer than one thread fails the first
     * assertion; otherwise the flag is swapped from false to true, and if it
     * was already true the run panics. A failed start leaves the flag alone.
     */
    method Start(threads: nat) returns (failure: Option<string>)
      modifies this
      ensures threads < 1 ==> failure == Some(THREADS_PANIC) && started == old(started)
      ensures threads >= 1 && old(started) ==> failure == Some(ALREADY_RUNNING_PANIC) && started
      ensures threads >= 1 && !old(started) ==> failure.None? && started
      ensures coroutines == old(coroutines) && deques == old(deques) && channels == old(channels)
      ensures registry == old(registry)
    {
      if threads < 1 {
        return Some(THREADS_PANIC);
      }
      if started {
        return Some(ALREADY_RUNNING_PANIC);
      }
      started := true;
      failure := None;
    }

    /** The end of `Scheduler::run`: the flag is cleared so the schedulers can be run again. */
    method Finish()
      modifies this
      ensures !started
      ensures coroutines == old(coroutines) && deques == old(deques) && channels == old(channels)
      ensures registry == old(registry)
    {
      started := false;
    }
  }

  /** Two starts in a row: the second one panics, and after `Finish` a start succeeds again. */
  method StartTwice(rt: Runtime, threads: nat) returns (first: Option<string>, second: Option<string>, third: Option<string>)
    requires threads >= 1 && !rt.started
    modifies rt
    ensures first.None? && second == Some(ALREADY_RUNNING_PANIC) && third.None?
  {
    first := rt.Start(threads);
    second := rt.Start(threads);
    rt.Finish();
    third := rt.Start(threads);
  }

  /** One thread's scheduler. */
  class Scheduler {
    const rt: Runtime
    const workqueue: nat
    const commchannel: nat
    var neighbors: seq<Neighbor>
    var slabs: map<Token, Handle>
    var privateWork: seq<Handle>

    ghost predicate Valid()
      reads this, rt
    {
      && rt.Valid()
      && workqueue < |rt.deques| && commchannel < |rt.channels|
      && EntriesIn(neighbors, |rt.channels|, |rt.deques|)
      && (forall i :: 0 <= i < |privateWork| ==> privateWork[i] < |rt.coroutines|)
      && (forall t :: t in slabs ==> slabs[t] < |rt.coroutines|)
    }

    /** Everything this scheduler can see. */
    ghost function Snapshot(): Snap
      reads this, rt
    {
      Snap(neighbors, slabs, privateWork, rt.coroutines, rt.deques, rt.channels, rt.registry, rt.started)
    }

    /** The scheduler `Scheduler::new` builds around an enlisted deque and channel. */
    constructor (rt: Runtime, me: Neighbor, earlier: seq<Neighbor>)
      requires rt.Valid() && me.chan < |rt.channels| && me.stealer < |rt.deques|
      requires EntriesIn(earlier, |rt.channels|, |rt.deques|)
      ensures Valid() && this.rt == rt && workqueue == me.stealer && commchannel == me.chan
      ensures neighbors == earlier && slabs == map[] && privateWork == []
    {
      this.rt := rt;
      workqueue := me.stealer;
      commchannel := me.chan;
      neighbors := earlier;
      slabs := map[];
      privateWork := [];
    }

    /** `Scheduler::ready`. */
    method Ready(h: Handle)
      requires Valid() && h < |rt.coroutines|
      modifies this, rt
      ensures Valid() && OnlyRan(old(Snapshot()), Snapshot(), workqueue) && rt.coroutines == old(rt.coroutines)
      ensures var r := ReadyPush(old(privateWork), old(rt.deques[workqueue]), h);
        privateWork == r.0 && rt.deques == old(rt.deques)[workqueue := r.1]
    {
      if |privateWork| >= MAX_PRIVATE_WORK_NUM {
        rt.deques := rt.deques[workqueue := rt.deques[workqueue] + [h]];
      } else {
        privateWork := privateWork + [h];
      }
    }

    /**
     * `Scheduler::spawn`/`spawn_opts`: a new `Suspended` coroutine running
     * `body`, made ready on this scheduler.
     */
    method Spawn(body: seq<Step>) returns (h: Handle)
      requires Valid()
      modifies this, rt
      ensures Valid() && h == |old(rt.coroutines)| && rt.coroutines == old(rt.coroutines) + [Co(Suspended, Live(body))]
      ensures var r := ReadyPush(old(privateWork), old(rt.deques[workqueue]), h);
        privateWork == r.0 && rt.deques == old(rt.deques)[workqueue := r.1]
      ensures neighbors == old(neighbors) && slabs == old(slabs) && rt.channels == old(rt.channels)
    {
      rt.coroutines := rt.coroutines + [Co(Suspended, Live(body))];
      h := |rt.coroutines| - 1;
      Ready(h);
    }

    /**
     * `resume_coroutine`: only a `Suspended` or `Blocked` coroutine is
     * resumed (an error it reports is only logged); afterwards a `Suspended`
     * one is made ready again, a `Blocked` one is left to its I/O
     * registration, a finished or panicked one is dropped, and `Normal` or
     * `Running` is `unreachable!()`. Any other state is logged and the
     * handle dropped unresumed.
     */
    method ResumeCoroutine(h: Handle) returns (crashed: bool)
      requires Valid() && h < |rt.coroutines|
      modifies this, rt
      ensures Valid() && OnlyRan(old(Snapshot()), Snapshot(), workqueue)
      ensures !Resumable(old(rt.coroutines[h].state)) ==> !crashed && Snapshot() == old(Snapshot())
      ensures Resumable(old(rt.coroutines[h].state)) ==>
        var a := Unique.ResumeSpec(old(rt.coroutines[h]), None, Running, None);
        && rt.coroutines == old(rt.coroutines)[h := a.target]
        && (crashed <==> a.target.state == Normal)
        && if a.target.state == Suspended then
             var r := ReadyPush(old(privateWork), old(rt.deques[workqueue]), h);
             privateWork == r.0 && rt.deques == old(rt.deques)[workqueue := r.1]
           else privateWork == old(privateWork) && rt.deques == old(rt.deques)
    {
      crashed := false;
      var c := rt.coroutines[h];
      if Resumable(c.state) {
        var a := Unique.ResumeSpec(c, None, Running, None);
        rt.coroutines := rt.coroutines[h := a.target];
        match a.target.state {
          case Normal =>
            crashed := true;
          case Running =>
            crashed := true;
          case Suspended =>
            Ready(h);
          case Blocked =>
          case Finished =>
          case Panicked =>
        }
      }
    }

    /**
     * The private queue part of `schedule`: pop the front and resume it
     * until the queue is empty. The coroutines queued when it starts are
     * resumed first and in queue order: `served` lists every handle served,
     * each served as `ServeOne` states, and no other coroutine changes.
     */
    method RunPrivateWork() returns (ran: bool, crashed: bool, ghost served: seq<Handle>)
      requires Valid()
      modifies this, rt
      ensures Valid() && OnlyRan(old(Snapshot()), Snapshot(), workqueue)
      ensures ran <==> old(privateWork) != []
      ensures !ran ==> Snapshot() == old(Snapshot())
      ensures !crashed ==> privateWork == [] && old(privateWork) <= served
      ensures forall h :: 0 <= h < |rt.coroutines| && h !in served ==> rt.coroutines[h] == old(rt.coroutines)[h]
    {
      ghost var s0 := Snapshot();
      ran, crashed, served := privateWork != [], false, [];
      if !ran {
        return;
      }
      while privateWork != []
        invariant Valid() && OnlyRan(s0, Snapshot(), workqueue)
        invariant s0.privateWork <= served + privateWork
        invariant forall h :: 0 <= h < |rt.coroutines| && h !in served ==> rt.coroutines[h] == s0.coroutines[h]
        decreases Load(privateWork, rt.coroutines)
      {
        ghost var queue := privateWork;
        ghost var mid := Snapshot();
        var w;
        w, crashed := ServeOne();
        assert OnlyRan(s0, Snapshot(), workqueue) by {
          OnlyRanTrans(s0, mid, Snapshot(), workqueue);
        }
        assert s0.privateWork <= (served + [w]) + privateWork by {
          assert (served + [w]) + queue[1..] == served + queue;
        }
        served := served + [w];
        if crashed {
          return;
        }
      }
    }

    /**
     * One turn of the private queue: pop its front and resume it as
     * `resume_coroutine` does. What is left of the queue stays at its front,
     * it crashed exactly when the resume left the coroutine `Normal`, and
     * otherwise the queue's load went down.
     */
    method ServeOne() returns (w: Handle, crashed: bool)
      requires Valid() && privateWork != []
      modifies this, rt
      ensures Valid() && OnlyRan(old(Snapshot()), Snapshot(), workqueue)
      ensures w == old(privateWork[0]) && old(privateWork[1..]) <= privateWork
      ensures w < |old(rt.coroutines)| && rt.coroutines == ResumeStep(old(rt.coroutines), w)
      ensures crashed <==> Resumable(old(rt.coroutines[w].state)) && rt.coroutines[w].state == Normal
      ensures !crashed ==> Load(privateWork, rt.coroutines) < Load(old(privateWork), old(rt.coroutines))
    {
      ghost var cos := rt.coroutines;
      w := privateWork[0];
      privateWork := privateWork[1..];
      ghost var rest := privateWork;
      assert Load(old(privateWork), cos) == Measure(cos[w]) + 1 + Load(rest, cos);
      crashed := ResumeCoroutine(w);
      if !crashed && Resumable(cos[w].state) {
        var a := Unique.ResumeSpec(cos[w], None, Running, None);
        LoadAfterResume(rest, cos, w, a.target);
        if privateWork != rest {
          LoadAppend(rest, w, rt.coroutines);
        }
      }
    }

    /** `workstealer.steal()`: the oldest handle of the own deque, if any. */
    method StealOwn() returns (work: Option<Handle>)
      requires Valid()
      modifies rt
      ensures Valid() && (rt.deques, work) == Steal(old(rt.deques), workqueue)
      ensures rt.coroutines == old(rt.coroutines) && rt.channels == old(rt.channels)
      ensures rt.registry == old(rt.registry) && rt.started == old(rt.started)
    {
      var d := rt.deques[workqueue];
      if d == [] {
        work := None;
      } else {
        rt.deques := rt.deques[workqueue := d[1..]];
        work := Some(d[0]);
      }
    }

    /** The stealing part of `schedule`: one `steal` per neighbour, in order, collecting what it got. */
    method StealFromNeighbors() returns (stolen: seq<Handle>)
      requires Valid()
      modifies rt
      ensures Valid() && (rt.deques, stolen) == StealEach(old(rt.deques), neighbors)
      ensures forall i :: 0 <= i < |stolen| ==> stolen[i] < |rt.coroutines|
      ensures rt.coroutines == old(rt.coroutines) && rt.channels == old(rt.channels)
      ensures rt.registry == old(rt.registry) && rt.started == old(rt.started)
    {
      stolen := [];
      for i := 0 to |neighbors|
        invariant rt.coroutines == old(rt.coroutines) && rt.channels == old(rt.channels)
        invariant rt.registry == old(rt.registry) && rt.started == old(rt.started)
        invariant Valid()
        invariant (rt.deques, stolen) == StealEach(old(rt.deques), neighbors[..i])
        invariant forall k :: 0 <= k < |stolen| ==> stolen[k] < |rt.coroutines|
      {
        var d := neighbors[i].stealer;
        StealEachStep(old(rt.deques), neighbors, i);
        var s := Steal(rt.deques, d);
        StealKeepsHandles(rt.deques, d, |rt.coroutines|);
        stolen := stolen + (if s.1.Some? then [s.1.value] else []);
        rt.deques := s.0;
      }
      assert neighbors[..|neighbors|] == neighbors;
    }

    /** Resume each stolen coroutine in turn. */
    method ResumeAll(works: seq<Handle>) returns (crashed: bool)
      requires Valid() && forall i :: 0 <= i < |works| ==> works[i] < |rt.coroutines|
      modifies this, rt
      ensures Valid() && OnlyRan(old(Snapshot()), Snapshot(), workqueue)
      ensures works == [] ==> !crashed && Snapshot() == old(Snapshot())
    {
      ghost var s0 := Snapshot();
      crashed := false;
      for i := 0 to |works|
        invariant Valid() && OnlyRan(s0, Snapshot(), workqueue)
        invariant works == [] ==> Snapshot() == s0
      {
        crashed := ResumeCoroutine(works[i]);
        if crashed {
          return;
        }
      }
    }

    /**
     * The message part of `schedule`'s loop: take at most one message from
     * the channel; a new neighbour is added at the end, `Shutdown` says stop.
     */
    method Receive() returns (stop: bool)
      requires Valid()
      modifies this, rt
      ensures Valid()
      ensures var inbox := old(rt.channels[commchannel]);
        && (stop <==> inbox != [] && inbox[0] == Shutdown)
        && (inbox != [] ==> rt.channels == old(rt.channels)[commchannel := inbox[1..]])
        && (inbox == [] ==> rt.channels == old(rt.channels))
        && neighbors == if inbox != [] && inbox[0].NewNeighbor? then old(neighbors) + [inbox[0].n] else old(neighbors)
      ensures privateWork == old(privateWork) && slabs == old(slabs)
      ensures rt.coroutines == old(rt.coroutines) && rt.deques == old(rt.deques)
      ensures rt.registry == old(rt.registry) && rt.started == old(rt.started)
    {
      stop := false;
      var inbox := rt.channels[commchannel];
      if inbox != [] {
        rt.channels := rt.channels[commchannel := inbox[1..]];
        match inbox[0]
        case NewNeighbor(n) =>
          neighbors := neighbors + [n];
        case Shutdown =>
          stop := true;
      }
    }

    /**
     * The running part of `schedule`'s loop: run the private queue dry; only
     * if it was empty, steal once from the own deque; only if nothing ran
     * and no I/O is pending, steal once from each neighbour and run what
     * came; sleep only if that was nothing.
     */
    method RunReady() returns (end: RoundEnd)
      requires Valid()
      modifies this, rt
      ensures Valid() && end != Stopped
      ensures neighbors == old(neighbors) && slabs == old(slabs) && |rt.deques| == |old(rt.deques)|
      ensures rt.channels == old(rt.channels) && rt.registry == old(rt.registry)
      ensures old(privateWork) != [] && end != Crashed ==>
        end == RanLocally && OnlyRan(old(Snapshot()), Snapshot(), workqueue)
      ensures end == IoPending ==> old(privateWork) == [] && old(rt.deques[workqueue]) == [] && slabs != map[]
      ensures end == Stole || end == Slept ==>
        old(privateWork) == [] && old(rt.deques[workqueue]) == [] && slabs == map[]
      ensures end == Slept ==>
        (forall i :: 0 <= i < |neighbors| ==> rt.deques[neighbors[i].stealer] == [])
        && rt.coroutines == old(rt.coroutines)
    {
      var ran, crashed, _ := RunPrivateWork();
      if crashed {
        return Crashed;
      }
      var needSteal := !ran;
      if needSteal {
        var work := StealOwn();
        if work.Some? {
          needSteal := false;
          crashed := ResumeCoroutine(work.value);
          if crashed {
            return Crashed;
          }
        }
      }
      if !needSteal {
        return RanLocally;
      }
      if slabs != map[] {
        return IoPending;
      }
      ghost var ds := rt.deques;
      var stolen := StealFromNeighbors();
      crashed := ResumeAll(stolen);
      if crashed {
        return Crashed;
      }
      if stolen == [] {
        NothingStolenMeansAllEmpty(ds, neighbors);
        return Slept;
      }
      return Stole;
    }

    /**
     * One pass of `schedule`'s loop, which repeats it until `Stopped`: the
     * message first, then the ready coroutines.
     */
    method ScheduleRound() returns (end: RoundEnd)
      requires Valid()
      modifies this, rt
      ensures Valid() && |rt.deques| == |old(rt.deques)|
      ensures var inbox := old(rt.channels[commchannel]);
        (end == Stopped <==> inbox != [] && inbox[0] == Shutdown)
      ensures end == Stopped ==>
        rt.coroutines == old(rt.coroutines) && rt.deques == old(rt.deques) && privateWork == old(privateWork)
      ensures var inbox := old(rt.channels[commchannel]);
        neighbors == if inbox != [] && inbox[0].NewNeighbor? then old(neighbors) + [inbox[0].n] else old(neighbors)
      ensures old(privateWork) != [] && end != Stopped && end != Crashed ==>
        && end == RanLocally
        && (forall d :: 0 <= d < |rt.deques| && d != workqueue ==> rt.deques[d] == old(rt.deques[d]))
        && old(rt.deques[workqueue]) <= rt.deques[workqueue]
      ensures end == IoPending ==> old(privateWork) == [] && old(rt.deques[workqueue]) == [] && slabs != map[]
      ensures end == Stole || end == Slept ==>
        old(privateWork) == [] && old(rt.deques[workqueue]) == [] && slabs == map[]
      ensures end == Slept ==>
        (forall i :: 0 <= i < |neighbors| ==> rt.deques[neighbors[i].stealer] == [])
        && rt.coroutines == old(rt.coroutines)
    {
      var stop := Receive();
      if stop {
        return Stopped;
      }
      end := RunReady();
    }

    /**
     * `SchedulerHandler::readable`/`writable`: a registered token is removed
     * from the slab and its coroutine made ready, once; an unknown token
     * changes nothing.
     */
    method Readiness(token: Token)
      requires Valid()
      modifies this, rt
      ensures Valid() && rt.coroutines == old(rt.coroutines) && neighbors == old(neighbors)
      ensures token !in old(slabs) ==> Snapshot() == old(Snapshot())
      ensures token in old(slabs) ==>
        && slabs == old(slabs) - {token}
        && var r := ReadyPush(old(privateWork), old(rt.deques[workqueue]), old(slabs)[token]);
           privateWork == r.0 && rt.deques == old(rt.deques)[workqueue := r.1]
    {
      if token in slabs {
        var h := slabs[token];
        slabs := slabs - {token};
        Ready(h);
      }
    }
  }

  /**
   * `Scheduler::new`: enlist in the registry, announcing the new scheduler
   * to every earlier one, and take the registry as it was as neighbours.
   */
  method NewScheduler(rt: Runtime) returns (s: Scheduler)
    requires rt.Valid()
    modifies rt
    ensures fresh(s) && s.Valid() && s.rt == rt
    ensures s.neighbors == old(rt.registry) && rt.registry == old(rt.registry) + [Neighbor(s.commchannel, s.workqueue)]
    ensures rt.channels == Broadcast(old(rt.channels) + [[]], old(rt.registry), NewNeighbor(Neighbor(s.commchannel, s.workqueue)))
    ensures rt.deques == old(rt.deques) + [[]] && s.privateWork == [] && s.slabs == map[]
  {
    var me, earlier := rt.Enlist();
    s := new Scheduler(rt, me, earlier);
  }

  /**
   * Each earlier scheduler finds exactly one `NewNeighbor` naming the new
   * one at the back of its channel, and no other channel changes.
   */
  lemma EnlistNotifiesEachOnce(channels: seq<seq<SchedMessage>>, registry: seq<Neighbor>, me: Neighbor)
    requires forall i :: 0 <= i < |registry| ==> registry[i].chan < |channels|
    requires DistinctChannels(registry)
    ensures var r := Broadcast(channels + [[]], registry, NewNeighbor(me));
      && (forall i :: 0 <= i < |registry| ==> r[registry[i].chan] == channels[registry[i].chan] + [NewNeighbor(me)])
      && r[|channels|] == []
  {
    BroadcastReachesEach(channels + [[]], registry, NewNeighbor(me));
  }
}
