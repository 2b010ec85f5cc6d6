/**
 The scheduler as the program runs it: cells updated by methods, a scan and a retry loop over a
 registry that is changed in place, user code and wakes choosing freely what they do.

 Each object carries the run of the state machine it has taken so far. `Valid` says that the
 fields are what that run leads to, so everything proved of runs is true of the objects.
 */
module LiveScheduler {
  import opened Options
  import opened Scheduler
  import opened SchedulerSafety
  import opened SchedulerTurns
  import E = SchedulerEffects
  import S = SlabModel

  /** `s` is what `run` leads to from an empty scheduler. */
  ghost predicate Reached(run: seq<Action>, s: State) { Legal(INIT, run) && Run(INIT, run) == s }

  lemma ReachedThen(run: seq<Action>, s: State, a: Action)
    requires Reached(run, s) && Enabled(s, a)
    ensures Reached(run + [a], Apply(s, a))
  {
    Then(INIT, run, a);
  }

  lemma ReachedInv(run: seq<Action>, s: State)
    requires Reached(run, s)
    ensures Inv(s)
  {
    InitInv();
    RunInv(INIT, run);
  }

  /** `dec_suspended` never underflows: a suspended task was found. */
  lemma AtLeastOne(run: seq<Action>, s: State, key: Key)
    requires Reached(run, s) && Is(s, key, Suspended)
    ensures s.suspended >= 1
  {
    ReachedInv(run, s);
    assert key in WithReason(s.tasks, Suspended);
  }

  /** The slab with run-time borrow checking. The first result of a method says whether it
      panicked. */
  class Registry {
    var slab: S.Slab<Task>
    var borrowFlag: nat
    var iterateFlag: nat

    static const SENTINEL: nat := 0xFFFF_FFFF_FFFF_FFFF

    constructor ()
      ensures slab == S.EmptySlab() && borrowFlag == iterateFlag == 0
    {
      slab, borrowFlag, iterateFlag := S.EmptySlab(), 0, 0;
    }

    method Get(key: Key) returns (panicked: bool, task: Option<Task>)
      modifies `borrowFlag
      ensures panicked <==> old(borrowFlag) == SENTINEL
      ensures !panicked ==> task == S.Get(slab, key)
      ensures borrowFlag == if !panicked && task.Some? then old(borrowFlag) + 1 else old(borrowFlag)
    {
      if borrowFlag == SENTINEL {
        return true, None;
      }
      task := S.Get(slab, key);
      if task.Some? { borrowFlag := borrowFlag + 1; }
      panicked := false;
    }

    /** The drop of a borrow. */
    method Release()
      requires borrowFlag > 0
      modifies `borrowFlag
      ensures borrowFlag == old(borrowFlag) - 1
    {
      borrowFlag := borrowFlag - 1;
    }

    /** A task's stop reason is a cell, so a shared borrow may set it. */
    method SetStopReason(key: Key, r: StopReason)
      requires S.Valid(slab, S.USIZE) && key in S.Contents(slab)
      modifies `slab
      ensures S.Valid(slab, S.USIZE)
      ensures S.Contents(slab) == old(S.Contents(slab))[key := old(S.Contents(slab))[key].(reason := r)]
      ensures |slab.cells| == old(|slab.cells|) && slab.len == old(slab.len)
    {
      ghost var free :| S.Chain(slab, S.USIZE, free);
      var t := slab.cells[key].value.(reason := r);
      S.UpdateKeepsChain(slab, S.USIZE, free, key, t);
      slab := S.Update(slab, key, t);
    }

    method Insert(t: Task) returns (panicked: bool, key: Key)
      requires S.Valid(slab, S.USIZE) && slab.len < S.USIZE.count
      modifies `slab
      ensures panicked <==> iterateFlag != 0
      ensures panicked ==> slab == old(slab)
      ensures S.Valid(slab, S.USIZE)
      ensures !panicked ==>
                && key !in old(S.Contents(slab)) && key <= old(|slab.cells|)
                && S.Contents(slab) == old(S.Contents(slab))[key := t]
                && |slab.cells| == old(|slab.cells|) + if key < old(|slab.cells|) then 0 else S.CHUNK_SIZE
    {
      hide S.Valid;
      if iterateFlag != 0 {
        return true, 0;
      }
      S.InsertOutcome(slab, S.USIZE, t);
      S.InsertContents(slab, S.USIZE, t);
      var r := S.Insert(slab, S.USIZE, t);
      slab := r.slab;
      return false, r.key;
    }

    method Remove(key: Key) returns (panicked: bool, found: bool)
      requires S.Valid(slab, S.USIZE)
      modifies `slab
      ensures panicked <==> borrowFlag != 0 || iterateFlag != 0
      ensures panicked ==> slab == old(slab)
      ensures S.Valid(slab, S.USIZE)
      ensures !panicked ==>
                && found == (key in old(S.Contents(slab)))
                && S.Contents(slab) == old(S.Contents(slab)) - {key}
                && |slab.cells| == old(|slab.cells|)
    {
      hide S.Valid;
      if borrowFlag != 0 || iterateFlag != 0 {
        return true, false;
      }
      S.RemoveOutcome(slab, S.USIZE, key);
      S.RemoveMap(slab, key);
      S.MapOfGet(slab);
      found := S.Get(slab, key).Some?;
      slab := S.Remove(slab, key);
      panicked := false;
    }

    /** Locks both flags while the predicate runs. The predicate may panic, which is `None`: by itself,
        or because it calls this registry, whose other methods panic on locked flags. The tasks before
        that one have been dealt with by then, and the guard unlocks the flags on the way out. */
    method Retain(keep: (nat, Task) -> Option<bool>) returns (end: Retaining)
      requires S.Valid(slab, S.USIZE)
      modifies this
      ensures end.Refused? <==> old(borrowFlag != 0 || iterateFlag != 0)
      ensures S.Valid(slab, S.USIZE)
      ensures borrowFlag == old(borrowFlag) && iterateFlag == old(iterateFlag)
      ensures var was := old(S.Contents(slab));
              match end
              case Refused => slab == old(slab)
              case Done =>
                && (forall k :: k in was ==> keep(k, was[k]).Some?)
                && S.Contents(slab) == map k | k in was && keep(k, was[k]) == Some(true) :: was[k]
              case Threw(at) =>
                && at in was && keep(at, was[at]).None?
                && (forall k :: k in was && k < at ==> keep(k, was[k]).Some?)
                && S.Contents(slab) == map k | k in was && (k >= at || keep(k, was[k]) == Some(true)) :: was[k]
    {
      hide S.Valid;
      if borrowFlag != 0 || iterateFlag != 0 {
        return Refused;
      }
      borrowFlag, iterateFlag := SENTINEL, SENTINEL;
      RetainEnds(slab, keep);
      end := EndOfRetain(S.IterFrom(slab, 0), keep);
      var settled := Settled(keep, end);
      S.RetainValid(slab, S.USIZE, 0, settled);
      slab := S.RetainFrom(slab, 0, settled);
      borrowFlag, iterateFlag := 0, 0;
    }
  }

  /** How a retain ends: refused by the flags, complete, or unwound at a key. */
  datatype Retaining = Refused | Done | Threw(at: nat)

  /** The first key at which the predicate panics, if any. */
  function EndOfRetain(it: seq<(nat, Task)>, keep: (nat, Task) -> Option<bool>): (end: Retaining)
    ensures !end.Refused?
  {
    if it == [] then Done
    else if keep(it[0].0, it[0].1).None? then Threw(it[0].0)
    else EndOfRetain(it[1..], keep)
  }

  /** The tasks that are still there when the retain has ended so. */
  function Settled(keep: (nat, Task) -> Option<bool>, end: Retaining): (nat, Task) -> bool {
    (k: nat, t: Task) => (end.Threw? && k >= end.at) || keep(k, t) == Some(true)
  }

  lemma {:induction false} EndIsFirstPanic(it: seq<(nat, Task)>, keep: (nat, Task) -> Option<bool>)
    requires forall i, j :: 0 <= i < j < |it| ==> it[i].0 < it[j].0
    ensures var end := EndOfRetain(it, keep);
            && (end.Done? ==> forall i :: 0 <= i < |it| ==> keep(it[i].0, it[i].1).Some?)
            && (end.Threw? ==>
                  && (exists i :: 0 <= i < |it| && it[i].0 == end.at && keep(it[i].0, it[i].1).None?)
                  && (forall i :: 0 <= i < |it| && it[i].0 < end.at ==> keep(it[i].0, it[i].1).Some?))
    decreases |it|
  {
    if it != [] && keep(it[0].0, it[0].1).Some? {
      EndIsFirstPanic(it[1..], keep);
      assert forall i :: 1 <= i < |it| ==> it[i] == it[1..][i - 1];
    }
  }

  /** The pairs of a map, by increasing key. */
  ghost predicate Sorted(it: seq<(nat, Task)>, m: map<nat, Task>) {
    && (forall i, j :: 0 <= i < j < |it| ==> it[i].0 < it[j].0)
    && (forall i :: 0 <= i < |it| ==> it[i].0 in m && m[it[i].0] == it[i].1)
    && (forall k :: k in m ==> exists i :: 0 <= i < |it| && it[i] == (k, m[k]))
  }

  lemma IterIsSorted(slab: S.Slab<Task>)
    ensures Sorted(S.IterFrom(slab, 0), S.Contents(slab))
  {
    var it, m := S.IterFrom(slab, 0), S.Contents(slab);
    S.IterAgrees(slab, 0);
    S.MapOfGet(slab);
    hide S.IterFrom, S.Contents;
    forall i | 0 <= i < |it| ensures it[i].0 in m && m[it[i].0] == it[i].1 {
      assert (it[i].0, it[i].1) in it;
    }
    forall k | k in m ensures exists i :: 0 <= i < |it| && it[i] == (k, m[k]) {
      assert (k, m[k]) in it;
    }
  }

  /** A retain ends at the least key at which the predicate panics, if there is one. */
  lemma EndInMap(it: seq<(nat, Task)>, m: map<nat, Task>, keep: (nat, Task) -> Option<bool>)
    requires Sorted(it, m)
    ensures var end := EndOfRetain(it, keep);
            && (end.Done? ==> forall k :: k in m ==> keep(k, m[k]).Some?)
            && (end.Threw? ==>
                  && end.at in m && keep(end.at, m[end.at]).None?
                  && (forall k :: k in m && k < end.at ==> keep(k, m[k]).Some?))
  {
    EndIsFirstPanic(it, keep);
    hide EndOfRetain;
  }

  lemma RetainEnds(slab: S.Slab<Task>, keep: (nat, Task) -> Option<bool>)
    ensures var was := S.Contents(slab); var end := EndOfRetain(S.IterFrom(slab, 0), keep);
            && (end.Done? ==> forall k :: k in was ==> keep(k, was[k]).Some?)
            && (end.Threw? ==>
                  && end.at in was && keep(end.at, was[end.at]).None?
                  && (forall k :: k in was && k < end.at ==> keep(k, was[k]).Some?))
            && S.Contents(S.RetainFrom(slab, 0, Settled(keep, end)))
               == map k | k in was && Settled(keep, end)(k, was[k]) :: was[k]
  {
    var it := S.IterFrom(slab, 0);
    IterIsSorted(slab);
    EndInMap(it, S.Contents(slab), keep);
    S.RetainMap(slab, 0, Settled(keep, EndOfRetain(it, keep)));
    hide Sorted, EndOfRetain, S.IterFrom, S.RetainFrom, S.Contents, Settled;
  }

  /** What a caller of `PollInternal` observes. */
  datatype Observed = Result(value: Poll) | Unwound | StillPolling

  /** `State` of a task, as `get_state` reports it. */
  datatype TaskState = Runnable | IsSuspended | Waiting | IsCancelled | Inactive

  class UnorderedAlgorithm {
    const registry: Registry
    var lastWaker: bool
    var current: Option<Key>
    var suspendedCount: nat
    var runnable: set<TaskId>     // the flags shared with the wakers
    var polling: set<TaskId>      // the recursion guards of the futures
    var nextId: TaskId            // names the next future; the program uses its address
    var wakes: seq<Wake>          // the wakes in progress on other threads
    var epoch: nat                // numbers the registrations of the outer waker
    ghost var st: State
    ghost var trace: seq<Action>

    /** The fields agree with the machine. */
    ghost predicate Agrees()
      reads this, registry
    {
      && S.Valid(registry.slab, S.USIZE)
      && st.tasks == S.Contents(registry.slab) && st.capacity == |registry.slab.cells|
      && st.suspended == suspendedCount && st.current == current && st.waker == lastWaker
      && st.runnable == runnable && st.polling == polling && st.nextId == nextId
      && st.wakes == wakes && st.epoch == epoch
    }

    /** Borrows are out exactly while the scan holds a task. */
    ghost predicate Valid()
      reads this, registry
    {
      && Reached(trace, st) && Agrees()
      && registry.iterateFlag == 0
      && registry.borrowFlag == (if st.pc.Chosen? || st.pc.Inside? then 1 else 0)
    }

    constructor ()
      ensures Valid() && trace == [] && st == INIT && fresh(registry)
    {
      registry := new Registry();
      lastWaker, current, suspendedCount, runnable, polling := false, None, 0, {}, {};
      nextId, wakes, epoch := 0, [], 0;
      st, trace := INIT, [];
      S.EmptyValid<Task>(S.USIZE);
    }

    ghost method Take(a: Action)
      requires Reached(trace, st) && Enabled(st, a)
      modifies `st, `trace
      ensures st == Apply(old(st), a) && trace == old(trace) + [a] && Reached(trace, st)
    {
      ReachedThen(trace, st, a);
      st, trace := Apply(st, a), trace + [a];
    }

    ghost method TakeResume(key: Key)
      requires Reached(trace, st) && HandleTime(st.pc)
      modifies `st, `trace
      ensures Reached(trace, st)
      ensures st == Apply(old(st), Action.Resume(key)) && trace == old(trace) + [Action.Resume(key)]
      ensures E.Stops(old(st), st, key, NotStopped, Is(old(st), key, Suspended))
    {
      E.ResumeMeans(st, key);
      Take(Action.Resume(key));
      hide Reached, E.Exactly, Apply;
    }

    ghost method TakeSuspend(key: Key)
      requires Reached(trace, st) && HandleTime(st.pc)
      modifies `st, `trace
      ensures Reached(trace, st)
      ensures st == Apply(old(st), Action.Suspend(key)) && trace == old(trace) + [Action.Suspend(key)]
      ensures E.Stops(old(st), st, key, Suspended, Is(old(st), key, NotStopped))
    {
      E.SuspendMeans(st, key);
      Take(Action.Suspend(key));
      hide Reached, E.Exactly, Apply;
    }

    ghost method TakeCancel(key: Key)
      requires Reached(trace, st) && HandleTime(st.pc)
      modifies `st, `trace
      ensures Reached(trace, st)
      ensures st == Apply(old(st), Action.Cancel(key)) && trace == old(trace) + [Action.Cancel(key)]
      ensures E.Stops(old(st), st, key, Cancelled, key in old(st.tasks) && !Is(old(st), key, Cancelled))
    {
      E.CancelMeans(st, key);
      Take(Action.Cancel(key));
      hide Reached, E.Exactly, Apply;
    }

    // -------------------------------------------------------------- the handle

    method Register(suspended: bool) returns (key: Key)
      requires Valid() && HandleTime(st.pc) && registry.slab.len < S.USIZE.count
      modifies this, registry
      ensures Valid() && trace == old(trace) + [Spawn(key, suspended)]
      ensures st == AfterCall(DoSpawn(old(st), key, suspended))
      ensures key !in old(S.Contents(registry.slab))
    {
      hide S.Valid;
      hide Reached;
      hide DoVisit, DoBegin, DoEnd, DoEndBeat, DoResume, DoSuspend, DoCancel;
      var dynamic := Task(nextId, if suspended then Suspended else NotStopped);
      var panicked;
      panicked, key := registry.Insert(dynamic);
      nextId, runnable := nextId + 1, runnable + {dynamic.id};
      if suspended { suspendedCount := suspendedCount + 1; }
      Take(Spawn(key, suspended));
    }

    method Resume(key: Key) returns (r: bool)
      requires Valid() && HandleTime(st.pc)
      modifies this, registry
      ensures Valid() && trace == old(trace) + [Action.Resume(key)] && st == Apply(old(st), Action.Resume(key))
      ensures r <==> Is(old(st), key, Suspended)
      ensures E.Stops(old(st), st, key, NotStopped, r)
    {
      hide S.Valid;
      hide Reached;
      hide DoVisit, DoBegin, DoEnd, DoEndBeat, DoSpawn, DoSuspend, DoCancel;
      hide E.Stops;
      S.MapOfGet(registry.slab);
      var panicked, task := registry.Get(key);
      r := false;
      if task.Some? {
        if task.value.reason == Suspended {
          registry.SetStopReason(key, NotStopped);
          AtLeastOne(trace, st, key);
          suspendedCount := suspendedCount - 1;
          r := true;
        }
        registry.Release();
      }
      TakeResume(key);
    }

    method Suspend(key: Key) returns (r: bool)
      requires Valid() && HandleTime(st.pc)
      modifies this, registry
      ensures Valid() && trace == old(trace) + [Action.Suspend(key)] && st == Apply(old(st), Action.Suspend(key))
      ensures r <==> Is(old(st), key, NotStopped)
      ensures E.Stops(old(st), st, key, Suspended, r)
    {
      hide S.Valid;
      hide Reached;
      hide DoVisit, DoBegin, DoEnd, DoEndBeat, DoSpawn, DoResume, DoCancel;
      hide E.Stops;
      S.MapOfGet(registry.slab);
      var panicked, task := registry.Get(key);
      r := false;
      if task.Some? {
        if task.value.reason == NotStopped {
          registry.SetStopReason(key, Suspended);
          suspendedCount := suspendedCount + 1;
          r := true;
        }
        registry.Release();
      }
      TakeSuspend(key);
    }

    method Cancel(key: Key) returns (r: bool)
      requires Valid() && HandleTime(st.pc)
      modifies this, registry
      ensures Valid() && trace == old(trace) + [Action.Cancel(key)] && st == Apply(old(st), Action.Cancel(key))
      ensures r <==> key in old(st.tasks) && !Is(old(st), key, Cancelled)
      ensures E.Stops(old(st), st, key, Cancelled, r)
    {
      hide S.Valid;
      hide Reached;
      hide DoVisit, DoBegin, DoEnd, DoEndBeat, DoSpawn, DoResume, DoSuspend;
      hide E.Stops;
      S.MapOfGet(registry.slab);
      var panicked, task := registry.Get(key);
      r := false;
      if task.Some? {
        var reason := task.value.reason;
        if reason != Cancelled {
          if reason == Suspended { AtLeastOne(trace, st, key); }
          assert reason == Suspended ==> suspendedCount >= 1;
          registry.SetStopReason(key, Cancelled);
          if reason == Suspended {
            suspendedCount := suspendedCount - 1;
          }
          r := true;
        }
        registry.Release();
      }
      TakeCancel(key);
    }

    method GetState(key: Key) returns (r: TaskState)
      requires Valid()
      modifies registry`borrowFlag
      ensures Valid() && registry.borrowFlag == old(registry.borrowFlag)
      ensures key !in st.tasks ==> r == Inactive
      ensures key in st.tasks ==>
                r == match st.tasks[key].reason
                     case Cancelled => IsCancelled
                     case Suspended => IsSuspended
                     case NotStopped => if st.tasks[key].id in st.runnable then Runnable else Waiting
    {
      hide S.Valid;
      hide Reached;
      S.MapOfGet(registry.slab);
      var panicked, task := registry.Get(key);
      if task.None? {
        return Inactive;
      }
      match task.value.reason {
        case Cancelled => r := IsCancelled;
        case Suspended => r := IsSuspended;
        case NotStopped => r := if task.value.id in runnable then Runnable else Waiting;
      }
      registry.Release();
    }

    // -------------------------------------------------------------- wakes and user code

    /** Any wakes, on any threads, take any number of their steps. */
    method Interfere()
      requires Valid()
      modifies this
      ensures Valid() && st.pc == old(st.pc) && st.tasks == old(st.tasks)
      ensures old(trace) <= trace && Polls(trace) == old(Polls(trace))
      ensures old(st.runnable) <= st.runnable
    {
      hide S.Valid;
      hide Reached;
      var n: int := *;
      while n > 0
        invariant Valid() && st.pc == old(st.pc) && st.tasks == old(st.tasks)
        invariant old(trace) <= trace && Polls(trace) == old(Polls(trace))
        invariant old(st.runnable) <= st.runnable
      {
        n := n - 1;
        WakeStep();
      }
    }

    /** One step of one wake, or none. */
    method WakeStep()
      requires Valid()
      modifies this
      ensures Valid() && st.pc == old(st.pc) && st.tasks == old(st.tasks)
      ensures old(trace) <= trace && Polls(trace) == old(Polls(trace))
      ensures old(st.runnable) <= st.runnable
    {
      hide S.Valid;
      hide Reached;
      var id: int := *;
      var w: int := *;
      if * {
        if 0 <= id < nextId {
          wakes := wakes + [Wake(id, if lastWaker then Some(epoch) else None)];
          lastWaker := false;                     // notify_wake swaps the waker out
          PollsMore(trace, Notify(id));
          Take(Notify(id));
        }
      } else if 0 <= w < |wakes| {
        if wakes[w].held.Some? {
          wakes := wakes[w := wakes[w].(held := None)];
          PollsMore(trace, Invoke(w));
          Take(Invoke(w));
        } else {
          runnable := runnable + {wakes[w].id};
          wakes := wakes[..w] + wakes[w + 1..];
          PollsMore(trace, Store(w));
          Take(Store(w));
        }
      }
    }

    /** User code makes some handle call, or none. */
    method HandleCall()
      requires Valid() && st.pc.Inside?
      modifies this, registry
      ensures Valid() && st.pc == old(st.pc)
      ensures old(trace) <= trace && Polls(trace) == old(Polls(trace))
    {
      hide S.Valid;
      hide Reached;
      var key: int := *;
      var suspended: bool := *;
      if 0 <= key {
        if * {
          PollsMore(trace, Action.Resume(key));
          var _ := Resume(key);
        } else if * {
          PollsMore(trace, Action.Suspend(key));
          var _ := Suspend(key);
        } else if * {
          PollsMore(trace, Action.Cancel(key));
          var _ := Cancel(key);
        } else if registry.slab.len < S.USIZE.count {
          ghost var before := trace;
          var k := Register(suspended);
          PollsMore(before, Spawn(k, suspended));
        }
      }
    }

    /** The body of a future: any calls, interleaved with any wakes. */
    method UserCode()
      requires Valid() && st.pc.Inside?
      modifies this, registry
      ensures Valid() && st.pc == old(st.pc)
      ensures old(trace) <= trace && Polls(trace) == old(Polls(trace))
    {
      hide S.Valid;
      hide Reached;
      var n: int := *;
      while n > 0
        invariant Valid() && st.pc == old(st.pc)
        invariant old(trace) <= trace && Polls(trace) == old(Polls(trace))
      {
        n := n - 1;
        Interfere();
        HandleCall();
      }
    }

    // -------------------------------------------------------------- the scan

    /** One iteration of the scan, up to the decision to poll. The registry's remove-time panic
        cannot happen: no borrow is out. */
    method VisitSlot(k: nat) returns (chosen: bool)
      requires Valid() && st.pc.Beat? && st.pc.slot == k < st.pc.limit
      modifies this, registry
      ensures Valid() && trace == old(trace) + [Visit] && st == DoVisit(old(st))
      ensures chosen == st.pc.Chosen?
    {
      hide S.Valid;
      hide Reached;
      S.MapOfGet(registry.slab);
      chosen := false;
      var panicked, task := registry.Get(k);
      if task.Some? {
        var reason := task.value.reason;
        if reason != NotStopped {
          registry.Release();
          if reason == Cancelled {
            var refused, found := registry.Remove(k);
            assert !refused && found;
          }
        } else if task.value.id !in runnable {
          registry.Release();
        } else {
          current := Some(k);
          chosen := true;
        }
      }
      Take(Visit);
    }

    /** `poll_local` and what the scan does with its result. The recursion panic cannot happen, the
        task is still there when it is removed, and no borrow is out then. */
    method PollTask() returns (outcome: Outcome)
      requires Valid() && st.pc.Chosen?
      modifies this, registry
      ensures Valid()
      ensures st.pc == if outcome == Panicked then Outside
                       else Beat(old(st.pc.second), old(st.pc.slot) + 1, old(st.pc.limit), true)
      ensures old(trace) <= trace && Polls(trace) == old(Polls(trace)) + 1
    {
      hide S.Valid;
      hide Reached;
      Interfere();
      EnterTask();
      UserCode();
      outcome := *;
      LeaveTask(outcome);
    }

    method EnterTask()
      requires Valid() && st.pc.Chosen?
      modifies this
      ensures Valid() && trace == old(trace) + [Begin] && st == DoBegin(old(st))
      ensures Polls(trace) == old(Polls(trace)) + 1
    {
      hide S.Valid;
      HoldsTask(trace, st);
      hide Reached;
      var k := current.value;
      var id := registry.slab.cells[k].value.id;
      assert id !in polling;                      // no recursive call
      polling := polling + {id};
      runnable := runnable - {id};
      PollsMore(trace, Begin);
      Take(Begin);
    }

    method LeaveTask(outcome: Outcome)
      requires Valid() && st.pc.Inside?
      modifies this, registry
      ensures Valid() && trace == old(trace) + [End(outcome)] && st == DoEnd(old(st), outcome)
      ensures Polls(trace) == old(Polls(trace))
    {
      hide S.Valid;
      HoldsTask(trace, st);
      hide Reached;
      var k := current.value;
      polling := polling - {registry.slab.cells[k].value.id};
      current := None;
      registry.Release();
      if outcome == Finished {
        var refused, found := registry.Remove(k);
        assert !refused && found;
      }
      PollsMore(trace, End(outcome));
      Take(End(outcome));
    }

    /** The body of the scan's loop. */
    method ScanSlot(k: nat) returns (polled: bool, unwound: bool)
      requires Valid() && st.pc.Beat? && st.pc.slot == k < st.pc.limit
      modifies this, registry
      ensures Valid()
      ensures st.pc == if unwound then Outside
                       else Beat(old(st.pc.second), k + 1, old(st.pc.limit), old(st.pc.polled) || polled)
      ensures old(trace) <= trace && Polls(trace) == old(Polls(trace)) + if polled then 1 else 0
    {
      hide S.Valid;
      hide Reached;
      Interfere();
      PollsMore(trace, Visit);
      polled := VisitSlot(k);
      unwound := false;
      if polled {
        var outcome := PollTask();
        unwound := outcome == Panicked;
      }
    }

    /** One beat. */
    method BeatOnce() returns (anyPoll: bool, unwound: bool)
      requires Valid() && st.pc.Beat? && st.pc.slot == 0 && st.pc.limit == st.capacity && !st.pc.polled
      modifies this, registry
      ensures Valid() && registry.borrowFlag == old(registry.borrowFlag) == 0
      ensures unwound ==> st.pc.Outside?
      ensures !unwound ==>
                st.pc.Beat? && st.pc.second == old(st.pc.second) && st.pc.slot == st.pc.limit && st.pc.polled == anyPoll
      ensures old(trace) <= trace && Polls(trace) >= old(Polls(trace)) + if anyPoll then 1 else 0
    {
      hide S.Valid;
      hide Reached;
      anyPoll, unwound := false, false;
      var capacity := |registry.slab.cells|;
      for k := 0 to capacity
        invariant Valid() && st.pc == Beat(old(st.pc.second), k, capacity, anyPoll)
        invariant old(trace) <= trace && Polls(trace) >= old(Polls(trace)) + if anyPoll then 1 else 0
      {
        var polled, panicked := ScanSlot(k);
        anyPoll := anyPoll || polled;
        if panicked {
          return anyPoll, true;
        }
      }
      Interfere();
    }

    // -------------------------------------------------------------- poll_internal

    /** The first `passes` passes of the loop in `poll_internal`. A poll that is not finished has
        polled a task in every pass. */
    method PollInternal(passes: nat) returns (r: Observed)
      requires Valid() && (st.pc.Outside? || st.pc.Returned?)
      modifies this, registry
      ensures Valid() && old(trace) <= trace
      ensures r.Result? ==> Concluded(st, r.value) && (lastWaker ==> r.value == Pending)
      ensures r.Unwound? ==> st.pc.Outside?
      ensures r.StillPolling? ==> Polls(trace) >= old(Polls(trace)) + passes
    {
      hide S.Valid;
      hide Reached;
      hide Concluded;
      StartPoll();
      for pass := 0 to passes
        invariant Valid() && old(trace) <= trace
        invariant st.pc == Beat(false, 0, st.capacity, false)
        invariant Polls(trace) >= old(Polls(trace)) + pass
      {
        var anyPoll, unwound := BeatOnce();
        if unwound {
          return Unwound;
        }
        var registered := !anyPoll;
        if registered {
          RegisterWaker();
          anyPoll, unwound := BeatOnce();
          if unwound {
            return Unwound;
          }
          if !anyPoll {
            var value := Conclude();
            return Result(value);
          }
        }
        PollAgain(registered);
      }
      return StillPolling;
    }

    method StartPoll()
      requires Valid() && (st.pc.Outside? || st.pc.Returned?)
      modifies this
      ensures Valid() && trace == old(trace) + [Enter] && st.pc == Beat(false, 0, st.capacity, false)
      ensures Polls(trace) == old(Polls(trace))
    {
      hide S.Valid;
      hide Reached;
      lastWaker := false;
      PollsMore(trace, Enter);
      Take(Enter);
    }

    /** A beat polled somebody: deregister the waker if it was registered, and rotate again. */
    method PollAgain(registered: bool)
      requires Valid() && st.pc.Beat? && st.pc.polled && st.pc.slot == st.pc.limit && st.pc.second == registered
      modifies this
      ensures Valid() && trace == old(trace) + [EndBeat] && st.pc == Beat(false, 0, st.capacity, false)
      ensures Polls(trace) == old(Polls(trace))
    {
      hide S.Valid;
      hide Reached;
      if registered { lastWaker := false; }
      PollsMore(trace, EndBeat);
      Take(EndBeat);
    }

    method RegisterWaker()
      requires Valid() && st.pc.Beat? && !st.pc.second && !st.pc.polled && st.pc.slot == st.pc.limit
      modifies this
      ensures Valid() && trace == old(trace) + [EndBeat] && st == DoEndBeat(old(st))
      ensures Polls(trace) == old(Polls(trace))
    {
      hide S.Valid;
      hide Reached;
      lastWaker, epoch := true, epoch + 1;
      PollsMore(trace, EndBeat);
      Take(EndBeat);
    }

    /** Two beats in a row polled nobody. */
    method Conclude() returns (value: Poll)
      requires Valid() && st.pc.Beat? && st.pc.second && !st.pc.polled && st.pc.slot == st.pc.limit
      modifies this
      ensures Valid() && trace == old(trace) + [EndBeat]
      ensures Concluded(st, value) && (lastWaker ==> value == Pending)
    {
      hide S.Valid;
      hide Reached;
      S.LenBound(registry.slab, S.USIZE);
      var count := registry.slab.len;
      if count == 0 || count == suspendedCount {
        lastWaker := false;
        value := Ready(count == 0);
      } else {
        value := Pending;
      }
      Take(EndBeat);
      ReachedConcluded(trace, st);
    }
  }

  /** What a returned result says about the tasks. */
  ghost predicate Concluded(s: State, value: Poll) {
    && s.pc == Returned(value)
    && WithReason(s.tasks, Cancelled) == {}
    && (value == Ready(true) <==> s.tasks == map[])
    && (s.leaked == 0 ==> value == Promised(s))
  }

  lemma ReachedConcluded(run: seq<Action>, s: State)
    requires Reached(run, s) && s.pc.Returned?
    ensures Concluded(s, s.pc.result)
  {
    ResultExact(run);
  }

  /** The task that the scan holds is in the registry. */
  lemma HoldsTask(run: seq<Action>, s: State)
    requires Reached(run, s) && (s.pc.Chosen? || s.pc.Inside?)
    ensures s.current == Some(s.pc.slot) && s.pc.slot in s.tasks
    ensures s.pc.Chosen? ==> s.polling == {}
  {
    ReachedInv(run, s);
  }

  lemma {:induction false} PollsMore(run: seq<Action>, a: Action)
    ensures Polls(run + [a]) == Polls(run) + if a.Begin? then 1 else 0
    decreases |run|
  {
    if run == [] {
      assert run + [a] == [a];
    } else {
      assert (run + [a])[0] == run[0] && (run + [a])[1..] == run[1..] + [a];
      PollsMore(run[1..], a);
    }
  }
}
