/**
 What the steps of the scheduler do, told from outside: which flag is set when, what a handle call
 changes, who may leave, how often the outer waker is invoked, and when a poll of the wheel returns.
 */
module SchedulerEffects {
  import opened Options
  import opened Scheduler
  import opened SchedulerSafety
  import opened SchedulerTurns

  // ---------------------------------------------------------------- the wake flags

  /** What a step means for the flag of task `id`: its spawn and the last step of a wake of it set the
      flag, the start of its poll clears it. */
  datatype Touch = Sets | Clears | Neither

  function TouchOf(s: State, a: Action, id: TaskId): Touch
    requires Enabled(s, a)
  {
    match a
    case Spawn(_, _) => if id == s.nextId then Sets else Neither
    case Store(w) => if s.wakes[w].id == id then Sets else Neither
    case Begin => if s.pc.slot in s.tasks && s.tasks[s.pc.slot].id == id then Clears else Neither
    case _ => Neither
  }

  /** The last such step of a run. */
  function LastTouch(s: State, run: seq<Action>, id: TaskId): Touch
    requires Legal(s, run)
    decreases |run|
  {
    if run == [] then Neither
    else
      var later := LastTouch(Apply(s, run[0]), run[1..], id);
      if later.Neither? then TouchOf(s, run[0], id) else later
  }

  lemma TouchStep(s: State, a: Action, id: TaskId)
    requires Enabled(s, a)
    ensures match TouchOf(s, a, id)
            case Sets => id in Apply(s, a).runnable
            case Clears => id !in Apply(s, a).runnable
            case Neither => id in Apply(s, a).runnable <==> id in s.runnable
  {
    if IsCall(a) { CallTouch(s, a, id); }
  }

  lemma CallTouch(s: State, a: Action, id: TaskId)
    requires Enabled(s, a) && IsCall(a)
    ensures id in Apply(s, a).runnable <==> id in s.runnable || (a.Spawn? && id == s.nextId)
  {
  }

  lemma {:induction false} FlagAfter(s: State, run: seq<Action>, id: TaskId)
    requires Legal(s, run)
    ensures match LastTouch(s, run, id)
            case Sets => id in Run(s, run).runnable
            case Clears => id !in Run(s, run).runnable
            case Neither => id in Run(s, run).runnable <==> id in s.runnable
    decreases |run|
  {
    if run != [] {
      TouchStep(s, run[0], id);
      hide Apply, TouchOf;
      FlagAfter(Apply(s, run[0]), run[1..], id);
    }
  }

  /** Over every run, the flag of a task is set if and only if the last of its spawn, the completions of
      its wakes and the starts of its polls is not the start of a poll. */
  lemma FlagExact(run: seq<Action>, id: TaskId)
    requires Legal(INIT, run)
    ensures id in Run(INIT, run).runnable <==> LastTouch(INIT, run, id) == Sets
  {
    FlagAfter(INIT, run, id);
  }

  /** A run that does not poll `id`, and in which a wake of it is completed, ends with the flag set. */
  lemma {:induction false} WakeSetsFlag(s: State, run: seq<Action>, id: TaskId)
    requires Legal(s, run) && PollCount(s, run, id) == 0
    ensures id in s.runnable || WakeCount(s, run, id) >= 1 ==> id in Run(s, run).runnable
    decreases |run|
  {
    if run != [] {
      TouchStep(s, run[0], id);
      hide Apply;
      WakeSetsFlag(Apply(s, run[0]), run[1..], id);
    }
  }

  /** How many wakes of `id` are in progress, and how many a run starts. */
  function Under(wakes: seq<Wake>, id: TaskId): nat {
    if wakes == [] then 0 else Under(wakes[..|wakes| - 1], id) + if wakes[|wakes| - 1].id == id then 1 else 0
  }

  function NotifyCount(run: seq<Action>, id: TaskId): nat {
    if run == [] then 0 else (if run[0] == Notify(id) then 1 else 0) + NotifyCount(run[1..], id)
  }

  lemma {:induction false} UnderWithout(wakes: seq<Wake>, w: nat, id: TaskId)
    requires w < |wakes|
    ensures Under(wakes, id) == Under(wakes[..w] + wakes[w + 1..], id) + if wakes[w].id == id then 1 else 0
  {
    var n := |wakes| - 1;
    if w == n {
      assert wakes[..w] + wakes[w + 1..] == wakes[..n];
    } else {
      UnderWithout(wakes[..n], w, id);
      var rest := wakes[..w] + wakes[w + 1..];
      assert rest[..|rest| - 1] == wakes[..n][..w] + wakes[..n][w + 1..];
      assert rest[|rest| - 1] == wakes[n];
    }
  }

  lemma {:induction false} UnderUpdate(wakes: seq<Wake>, w: nat, wake: Wake, id: TaskId)
    requires w < |wakes| && wake.id == wakes[w].id
    ensures Under(wakes[w := wake], id) == Under(wakes, id)
  {
    var n := |wakes| - 1;
    if w == n {
      assert wakes[w := wake][..n] == wakes[..n];
    } else {
      UnderUpdate(wakes[..n], w, wake, id);
      assert wakes[w := wake][..n] == wakes[..n][w := wake];
    }
  }

  lemma UnderStep(s: State, a: Action, id: TaskId)
    requires Enabled(s, a)
    ensures Under(Apply(s, a).wakes, id) + (if a.Store? && s.wakes[a.w].id == id then 1 else 0)
         == Under(s.wakes, id) + if a == Notify(id) then 1 else 0
  {
    var t := Apply(s, a);
    match a {
      case Notify(_) => assert t.wakes[..|t.wakes| - 1] == s.wakes;
      case Invoke(w) => UnderUpdate(s.wakes, w, s.wakes[w].(held := None), id);
      case Store(w) => UnderWithout(s.wakes, w, id);
      case _ =>
        if IsCall(a) { CallFrame(s, a); }
        assert t.wakes == s.wakes;
    }
  }

  /** Every wake that was started is completed or still in progress: none is lost on the way, and none
      ends up at another task. */
  lemma {:induction false} WakesComplete(s: State, run: seq<Action>, id: TaskId)
    requires Legal(s, run)
    ensures Under(Run(s, run).wakes, id) + WakeCount(s, run, id) == Under(s.wakes, id) + NotifyCount(run, id)
    decreases |run|
  {
    if run != [] {
      UnderStep(s, run[0], id);
      hide Apply, Under;
      WakesComplete(Apply(s, run[0]), run[1..], id);
    }
  }

  // ---------------------------------------------------------------- one handle call

  /** The steps differ in the tasks and the counter at most. */
  ghost predicate OnlyTasks(s: State, t: State) {
    t == AfterCall(s).(tasks := t.tasks, suspended := t.suspended)
  }

  /** Exactly the task under `key` has changed, to this. */
  ghost predicate Exactly(s: State, t: State, key: Key, task: Task) {
    && key in t.tasks && t.tasks[key] == task
    && forall j :: j != key ==> (j in t.tasks <==> j in s.tasks) && (j in t.tasks ==> t.tasks[j] == s.tasks[j])
  }

  /** If the call took effect, exactly the task under `key` has changed, to this stop reason; otherwise
      none has. */
  ghost predicate Stops(s: State, t: State, key: Key, reason: StopReason, took: bool) {
    if took then key in s.tasks && Exactly(s, t, key, Task(s.tasks[key].id, reason)) else t.tasks == s.tasks
  }

  /** A suspend takes effect if and only if it finds a task without a stop reason; then exactly that
      task is suspended. */
  lemma SuspendMeans(s: State, key: Key)
    requires Enabled(s, Suspend(key))
    ensures var t := Apply(s, Suspend(key));
            && OnlyTasks(s, t)
            && (key in s.tasks && s.tasks[key].reason == NotStopped ==>
                  Exactly(s, t, key, Task(s.tasks[key].id, Suspended)) && t.suspended == s.suspended + 1)
            && (!(key in s.tasks && s.tasks[key].reason == NotStopped) ==>
                  t.tasks == s.tasks && t.suspended == s.suspended)
  {
  }

  /** A resume takes effect if and only if it finds a suspended task; then exactly that task is freed. */
  lemma ResumeMeans(s: State, key: Key)
    requires Enabled(s, Resume(key))
    ensures var t := Apply(s, Resume(key));
            && OnlyTasks(s, t)
            && (key in s.tasks && s.tasks[key].reason == Suspended ==>
                  Exactly(s, t, key, Task(s.tasks[key].id, NotStopped)) && t.suspended == s.suspended - 1)
            && (!(key in s.tasks && s.tasks[key].reason == Suspended) ==>
                  t.tasks == s.tasks && t.suspended == s.suspended)
  {
  }

  /** A cancel takes effect if and only if it finds a task that is not cancelled. */
  lemma CancelMeans(s: State, key: Key)
    requires Enabled(s, Cancel(key))
    ensures var t := Apply(s, Cancel(key));
            && OnlyTasks(s, t)
            && (key in s.tasks && s.tasks[key].reason != Cancelled ==>
                  && Exactly(s, t, key, Task(s.tasks[key].id, Cancelled))
                  && t.suspended == if s.tasks[key].reason == Suspended then s.suspended - 1 else s.suspended)
            && (!(key in s.tasks && s.tasks[key].reason != Cancelled) ==>
                  t.tasks == s.tasks && t.suspended == s.suspended)
  {
  }

  /** A spawn adds exactly one task, with an identity and a key that no live task has, and its flag set. */
  lemma SpawnMeans(s: State, key: Key, suspended: bool)
    requires Inv(s) && Enabled(s, Spawn(key, suspended))
    ensures var t := Apply(s, Spawn(key, suspended));
            && key !in s.tasks && (forall j :: j in s.tasks ==> s.tasks[j].id != s.nextId)
            && Exactly(s, t, key, Task(s.nextId, if suspended then Suspended else NotStopped))
            && t.suspended == (if suspended then s.suspended + 1 else s.suspended)
            && t.runnable == s.runnable + {s.nextId} && s.nextId !in s.runnable
            && t.capacity == s.capacity + (if key < s.capacity then 0 else 16)
  {
  }

  // ---------------------------------------------------------------- who changes, and who leaves

  /** The step stops or frees the task under `k`, or takes it out. */
  predicate Concerns(s: State, a: Action, k: Key)
    requires Enabled(s, a)
  {
    || ((a.Suspend? || a.Resume? || a.Cancel?) && a.key == k)
    || (a == End(Finished) && s.pc.slot == k)
    || (a.Visit? && s.pc.slot == k && Is(s, k, Cancelled))
  }

  /** Every other step leaves the task as it is. */
  lemma OthersStay(s: State, a: Action, k: Key)
    requires Enabled(s, a) && k in s.tasks && !Concerns(s, a, k)
    ensures k in Apply(s, a).tasks && Apply(s, a).tasks[k] == s.tasks[k]
  {
    if IsCall(a) { OthersStayInCall(s, a, k); }
    else if IsWake(a) { WakeFrame(s, a); }
    else if IsBook(a) { BookFrame(s, a); }
  }

  lemma OthersStayInCall(s: State, a: Action, k: Key)
    requires Enabled(s, a) && IsCall(a) && k in s.tasks && !Concerns(s, a, k)
    ensures k in Apply(s, a).tasks && Apply(s, a).tasks[k] == s.tasks[k]
  {
  }

  /** Whether a poll of slot `k` finishes in this run. */
  predicate Finishes(s: State, run: seq<Action>, k: Key)
    requires Legal(s, run)
    decreases |run|
  {
    run != [] && ((run[0] == End(Finished) && s.pc.slot == k) || Finishes(Apply(s, run[0]), run[1..], k))
  }

  lemma StaysUnlessDone(s: State, a: Action, k: Key)
    requires Enabled(s, a) && k in s.tasks && s.tasks[k].reason != Cancelled
    requires a != Cancel(k) && !(a == End(Finished) && s.pc.slot == k)
    ensures var t := Apply(s, a);
            k in t.tasks && t.tasks[k].id == s.tasks[k].id && t.tasks[k].reason != Cancelled
  {
    if a == Suspend(k) { SuspendMeans(s, k); }
    else if a == Resume(k) { ResumeMeans(s, k); }
    else { OthersStay(s, a, k); }
    hide Apply;
  }

  /** No task is lost: one that was there and not cancelled is there still, unless a poll of its slot
      has finished or somebody has cancelled it. */
  lemma {:induction false} NoTaskIsLost(s: State, run: seq<Action>, k: Key)
    requires Legal(s, run) && k in s.tasks && s.tasks[k].reason != Cancelled
    requires Cancel(k) !in run && !Finishes(s, run, k)
    ensures var t := Run(s, run);
            k in t.tasks && t.tasks[k].id == s.tasks[k].id && t.tasks[k].reason != Cancelled
    decreases |run|
  {
    if run != [] {
      assert run[0] in run;
      StaysUnlessDone(s, run[0], k);
      hide Apply;
      NoTaskIsLost(Apply(s, run[0]), run[1..], k);
    }
  }

  /** Free, or out of the wheel for good. */
  ghost predicate FreeOrGone(s: State, k: Key, id: TaskId) {
    (Is(s, k, NotStopped) && s.tasks[k].id == id) || Gone(s, id)
  }

  lemma FreeStep(s: State, a: Action, k: Key, id: TaskId)
    requires Distinct(s) && InRange(s) && Is(s, k, NotStopped) && s.tasks[k].id == id && Enabled(s, a)
    requires a != Suspend(k) && a != Cancel(k)
    ensures FreeOrGone(Apply(s, a), k, id)
  {
    if a == Resume(k) {
      ResumeMeans(s, k);
    } else if a == End(Finished) && s.pc.slot == k {
    } else {
      OthersStay(s, a, k);
    }
  }

  lemma {:induction false} FreeStays(s: State, run: seq<Action>, k: Key, id: TaskId)
    requires Inv(s) && FreeOrGone(s, k, id) && Legal(s, run) && Suspend(k) !in run && Cancel(k) !in run
    ensures FreeOrGone(Run(s, run), k, id)
    decreases |run|
  {
    if run != [] {
      assert run[0] in run;
      StepInv(s, run[0]);
      if Gone(s, id) { GoneStays(s, run[0], id); } else { FreeStep(s, run[0], k, id); }
      hide Apply, Inv, FreeOrGone;
      FreeStays(Apply(s, run[0]), run[1..], k, id);
    }
  }

  // ---------------------------------------------------------------- suspended, resumed, woken

  /** After a suspend that took effect the task is not polled again before it is resumed, whoever wakes
      it; a poll in progress runs to its end. */
  lemma SuspendStops(s: State, key: Key, run: seq<Action>)
    requires Inv(s) && Enabled(s, Suspend(key)) && key in s.tasks && s.tasks[key].reason == NotStopped
    requires Legal(Apply(s, Suspend(key)), run) && Resume(key) !in run
    ensures PollCount(Apply(s, Suspend(key)), run, s.tasks[key].id) == 0
  {
    SuspendMeans(s, key);
    StepInv(s, Suspend(key));
    hide Inv, Apply, Exactly;
    ExactlyIs(s, Apply(s, Suspend(key)), key, Task(s.tasks[key].id, Suspended));
    SuspendedIsNotPolled(Apply(s, Suspend(key)), run, key);
  }

  lemma ExactlyIs(s: State, t: State, key: Key, task: Task)
    ensures Exactly(s, t, key, task) ==> key in t.tasks && t.tasks[key] == task
  {
  }

  /** A task that is free, whose flag is set or gets set, and that is neither stopped nor polled
      meanwhile, has its turn in the next beat that starts, and is polled exactly once in it. */
  lemma FreeIsPolled(s: State, wait: seq<Action>, beat: seq<Action>, k: Key)
    requires Inv(s) && Is(s, k, NotStopped) && Legal(s, wait)
    requires Suspend(k) !in wait && Cancel(k) !in wait && PollCount(s, wait, s.tasks[k].id) == 0
    requires s.tasks[k].id in s.runnable || WakeCount(s, wait, s.tasks[k].id) >= 1
    requires var t := Run(s, wait);
             && k in t.tasks && t.tasks[k].id == s.tasks[k].id
             && t.pc.Beat? && t.pc.slot == 0 && !t.pc.polled
             && Legal(t, beat) && OneBeat(beat) && Untouched(t, beat, k)
             && var pc := Run(t, beat).pc; pc.Beat? && pc.slot >= pc.limit
    ensures PollCount(Run(s, wait), beat, s.tasks[k].id) == 1
  {
    var id := s.tasks[k].id;
    var t := Run(s, wait);
    RunInv(s, wait);
    FreeStays(s, wait, k, id);
    WakeSetsFlag(s, wait, id);
    assert Eligible(t, k, id);
    EligibleIsDue(t, k, id);
    hide Inv, Due, Run, Legal;
    PolledExactlyOnce(t, beat, k);
  }

  /** So is a task after a resume that took effect. */
  lemma ResumedIsPolled(s: State, key: Key, wait: seq<Action>, beat: seq<Action>)
    requires Inv(s) && Enabled(s, Resume(key)) && key in s.tasks && s.tasks[key].reason == Suspended
    requires Legal(Apply(s, Resume(key)), wait)
    requires var r := Apply(s, Resume(key)); var id := s.tasks[key].id;
             && Suspend(key) !in wait && Cancel(key) !in wait && PollCount(r, wait, id) == 0
             && (id in s.runnable || WakeCount(r, wait, id) >= 1)
             && var t := Run(r, wait);
                && key in t.tasks && t.tasks[key].id == id
                && t.pc.Beat? && t.pc.slot == 0 && !t.pc.polled
                && Legal(t, beat) && OneBeat(beat) && Untouched(t, beat, key)
                && var pc := Run(t, beat).pc; pc.Beat? && pc.slot >= pc.limit
    ensures PollCount(Run(Apply(s, Resume(key)), wait), beat, s.tasks[key].id) == 1
  {
    ResumeMeans(s, key);
    StepInv(s, Resume(key));
    CallTouch(s, Resume(key), s.tasks[key].id);
    hide Inv, Apply;
    FreeIsPolled(Apply(s, Resume(key)), wait, beat, key);
  }

  /** A wake that is completed while the wheel sleeps has its task polled, exactly once, in the first
      beat of the next poll of the wheel. */
  lemma WokenIsPolled(run: seq<Action>, more: seq<Action>, beat: seq<Action>, k: Key)
    requires Legal(INIT, run) && Run(INIT, run).pc == Returned(Pending)
    requires Legal(Run(INIT, run), more) && Enter !in more
    requires var s := Run(Run(INIT, run), more);
             && Is(s, k, NotStopped) && WakeCount(Run(INIT, run), more, s.tasks[k].id) >= 1
             && Enabled(s, Enter) && Legal(Apply(s, Enter), beat)
             && OneBeat(beat) && Untouched(Apply(s, Enter), beat, k)
             && var pc := Run(Apply(s, Enter), beat).pc; pc.Beat? && pc.slot >= pc.limit
    ensures var s := Run(Run(INIT, run), more); PollCount(Apply(s, Enter), beat, s.tasks[k].id) == 1
  {
    var r := Run(INIT, run);
    var s := Run(r, more);
    InitInv();
    RunInv(INIT, run);
    RunInv(r, more);
    NobodyPolledAsleep(r, more, s.tasks[k].id);
    WakeSetsFlag(r, more, s.tasks[k].id);
    hide Inv, Run, Legal;
    RunnableIsPolled(s, beat, k);
  }

  lemma {:induction false} NobodyPolledAsleep(s: State, more: seq<Action>, id: TaskId)
    requires (s.pc.Outside? || s.pc.Returned?) && Legal(s, more) && Enter !in more
    ensures PollCount(s, more, id) == 0
    decreases |more|
  {
    if more != [] {
      assert more[0] in more;
      NobodyPolledAsleep(Apply(s, more[0]), more[1..], id);
    }
  }

  // ---------------------------------------------------------------- the outer waker

  /** How often a run invokes the waker of registration `e`. */
  function Invocations(s: State, run: seq<Action>, e: nat): nat
    requires Legal(s, run)
    decreases |run|
  {
    if run == [] then 0
    else
      (if run[0].Invoke? && s.wakes[run[0].w].held == Some(e) then 1 else 0)
      + Invocations(Apply(s, run[0]), run[1..], e)
  }

  /** How many wakes hold the waker of registration `e`. */
  function Holders(wakes: seq<Wake>, e: nat): nat {
    if wakes == [] then 0 else Holders(wakes[..|wakes| - 1], e) + if wakes[|wakes| - 1].held == Some(e) then 1 else 0
  }

  lemma {:induction false} HoldersWithout(wakes: seq<Wake>, w: nat, e: nat)
    requires w < |wakes|
    ensures Holders(wakes, e) == Holders(wakes[..w] + wakes[w + 1..], e) + if wakes[w].held == Some(e) then 1 else 0
  {
    var n := |wakes| - 1;
    if w == n {
      assert wakes[..w] + wakes[w + 1..] == wakes[..n];
    } else {
      HoldersWithout(wakes[..n], w, e);
      var rest := wakes[..w] + wakes[w + 1..];
      assert rest[..|rest| - 1] == wakes[..n][..w] + wakes[..n][w + 1..];
      assert rest[|rest| - 1] == wakes[n];
    }
  }

  lemma {:induction false} HoldersUpdate(wakes: seq<Wake>, w: nat, wake: Wake, e: nat)
    requires w < |wakes|
    ensures Holders(wakes[w := wake], e) + (if wakes[w].held == Some(e) then 1 else 0)
         == Holders(wakes, e) + if wake.held == Some(e) then 1 else 0
  {
    var n := |wakes| - 1;
    if w == n {
      assert wakes[w := wake][..n] == wakes[..n];
    } else {
      HoldersUpdate(wakes[..n], w, wake, e);
      assert wakes[w := wake][..n] == wakes[..n][w := wake];
    }
  }

  lemma {:induction false} NobodyHolds(wakes: seq<Wake>, e: nat)
    requires forall i :: 0 <= i < |wakes| && wakes[i].held.Some? ==> wakes[i].held.value < e
    ensures Holders(wakes, e) == 0
  {
    if wakes != [] { NobodyHolds(wakes[..|wakes| - 1], e); }
  }

  /** How often the waker of registration `e` can still be invoked. */
  function Chances(s: State, e: nat): nat {
    if e > s.epoch then 1 else Holders(s.wakes, e) + if s.waker && e == s.epoch then 1 else 0
  }

  lemma ChancesStep(s: State, a: Action, e: nat)
    requires Held(s) && Enabled(s, a)
    ensures (if a.Invoke? && s.wakes[a.w].held == Some(e) then 1 else 0) + Chances(Apply(s, a), e) <= Chances(s, e)
  {
    if e > s.epoch { NobodyHolds(s.wakes, e); }
    if IsWake(a) { ChancesWake(s, a, e); } else { ChancesOther(s, a, e); }
    hide Apply, Chances;
  }

  lemma ChancesOther(s: State, a: Action, e: nat)
    requires Enabled(s, a) && !IsWake(a) && (e > s.epoch ==> Holders(s.wakes, e) == 0)
    ensures Chances(Apply(s, a), e) <= Chances(s, e)
  {
    if IsCall(a) { CallFrame(s, a); }
    assert Apply(s, a).wakes == s.wakes;
  }

  lemma ChancesWake(s: State, a: Action, e: nat)
    requires Held(s) && Enabled(s, a) && IsWake(a)
    ensures (if a.Invoke? && s.wakes[a.w].held == Some(e) then 1 else 0) + Chances(Apply(s, a), e) <= Chances(s, e)
  {
    var t := Apply(s, a);
    match a {
      case Notify(_) => assert t.wakes[..|t.wakes| - 1] == s.wakes;
      case Invoke(w) => HoldersUpdate(s.wakes, w, s.wakes[w].(held := None), e);
      case Store(w) => HoldersWithout(s.wakes, w, e);
    }
  }

  lemma {:induction false} InvokedWithin(s: State, run: seq<Action>, e: nat)
    requires Held(s) && Legal(s, run)
    ensures Invocations(s, run, e) + Chances(Run(s, run), e) <= Chances(s, e)
    decreases |run|
  {
    if run != [] {
      ChancesStep(s, run[0], e);
      StepHeld(s, run[0]);
      hide Apply, Chances, Held;
      InvokedWithin(Apply(s, run[0]), run[1..], e);
    }
  }

  /** Over every run, the waker of a registration is invoked at most once. */
  lemma InvokedAtMostOnce(run: seq<Action>, e: nat)
    requires Legal(INIT, run) && e > 0
    ensures Invocations(INIT, run, e) <= 1
  {
    InvokedWithin(INIT, run, e);
  }

  lemma InvokedStep(s: State, a: Action)
    requires Enabled(s, a)
    ensures var t := Apply(s, a);
            && s.epoch <= t.epoch
            && (t.epoch == s.epoch ==>
                  (t.invoked <==> s.invoked || (a.Invoke? && s.wakes[a.w].held == Some(s.epoch))))
            && (t.epoch > s.epoch ==> !t.invoked && a.EndBeat?)
  {
    if IsCall(a) { CallFrame(s, a); }
  }

  lemma {:induction false} InvokedSince(s: State, run: seq<Action>)
    requires Held(s) && Legal(s, run)
    ensures s.epoch <= Run(s, run).epoch
    ensures Run(s, run).invoked <==>
              (Run(s, run).epoch == s.epoch && s.invoked) || Invocations(s, run, Run(s, run).epoch) >= 1
    decreases |run|
  {
    if run != [] {
      var t := Apply(s, run[0]);
      InvokedStep(s, run[0]);
      StepHeld(s, run[0]);
      assert run[0].Invoke? && s.wakes[run[0].w].held.Some? ==> s.wakes[run[0].w].held.value <= s.epoch;
      assert run[0].Invoke? ==> t.epoch == s.epoch;
      hide Apply, Held;
      InvokedSince(t, run[1..]);
    }
  }

  /** `invoked` says what it is meant to: the waker of the current registration has been invoked. */
  lemma InvokedExact(run: seq<Action>)
    requires Legal(INIT, run)
    ensures var s := Run(INIT, run); s.invoked <==> Invocations(INIT, run, s.epoch) >= 1
  {
    InvokedSince(INIT, run);
  }

  /** The straddlers are the targets of the wakes in progress at the last registration: there is one, at
      step `i` of the run, and nobody has registered since. */
  lemma {:induction false} StraddledAt(s: State, run: seq<Action>, id: TaskId) returns (i: nat)
    requires Legal(s, run) && id in Run(s, run).straddlers && (id !in s.straddlers || Run(s, run).epoch > s.epoch)
    ensures i < |run| && run[i] == EndBeat && Legal(s, run[..i])
    ensures var r := Run(s, run[..i]); Under(r.wakes, id) > 0 && Run(s, run).epoch == r.epoch + 1
    decreases |run|
  {
    var t := Apply(s, run[0]);
    StraddlersStep(s, run[0], id);
    EpochGrows(t, run[1..]);
    if id !in t.straddlers || Run(s, run).epoch > t.epoch {
      var j := StraddledAt(t, run[1..], id);
      i := j + 1;
      assert run[..i][0] == run[0] && run[..i][1..] == run[1..][..j];
    } else {
      i := 0;
      assert run[..0] == [];
    }
  }

  lemma {:induction false} EpochGrows(s: State, run: seq<Action>)
    requires Legal(s, run)
    ensures s.epoch <= Run(s, run).epoch
    decreases |run|
  {
    if run != [] {
      InvokedStep(s, run[0]);
      hide Apply;
      EpochGrows(Apply(s, run[0]), run[1..]);
    }
  }

  lemma StraddlersStep(s: State, a: Action, id: TaskId)
    requires Enabled(s, a)
    ensures var t := Apply(s, a);
            && s.epoch <= t.epoch <= s.epoch + 1
            && (t.epoch == s.epoch ==> t.straddlers == s.straddlers)
            && (t.epoch > s.epoch ==> a == EndBeat && (id in t.straddlers ==> Under(s.wakes, id) > 0))
  {
    if IsCall(a) { CallFrame(s, a); }
    if i: nat :| i < |s.wakes| && s.wakes[i].id == id { UnderOne(s.wakes, i); }
  }

  lemma {:induction false} UnderOne(wakes: seq<Wake>, i: nat)
    requires i < |wakes|
    ensures Under(wakes, wakes[i].id) > 0
  {
    if i < |wakes| - 1 { UnderOne(wakes[..|wakes| - 1], i); }
  }

  // ---------------------------------------------------------------- when a poll of the wheel returns

  /** The beats in a row that have polled nobody, and whether the beat in progress has polled somebody. */
  datatype Lull = Lull(idle: nat, polled: bool)

  function LullAfter(l: Lull, a: Action): Lull {
    match a
    case Enter => Lull(0, false)
    case Begin => Lull(l.idle, true)
    case EndBeat => Lull(if l.polled then 0 else l.idle + 1, false)
    case _ => l
  }

  function Lulls(l: Lull, run: seq<Action>): Lull
    decreases |run|
  {
    if run == [] then l else Lulls(LullAfter(l, run[0]), run[1..])
  }

  /** The first beat without a poll registers the waker, the second one ends the poll of the wheel. */
  predicate Fits(l: Lull, pc: Pc) {
    match pc
    case Outside => true
    case Returned(_) => l.idle == 2
    case Beat(second, _, _, polled) => l == Lull(if second then 1 else 0, polled)
    case Chosen(second, _, _) => l.idle == if second then 1 else 0
    case Inside(second, _, _) => l == Lull(if second then 1 else 0, true)
  }

  lemma FitsStep(l: Lull, s: State, a: Action)
    requires Fits(l, s.pc) && Enabled(s, a)
    ensures Fits(LullAfter(l, a), Apply(s, a).pc)
  {
    if IsCall(a) { CallFrame(s, a); }
  }

  lemma {:induction false} FitsRun(l: Lull, s: State, run: seq<Action>)
    requires Fits(l, s.pc) && Legal(s, run)
    ensures Fits(Lulls(l, run), Run(s, run).pc)
    decreases |run|
  {
    if run != [] {
      FitsStep(l, s, run[0]);
      hide Apply, Fits, LullAfter;
      FitsRun(LullAfter(l, run[0]), Apply(s, run[0]), run[1..]);
    }
  }

  /** A poll of the wheel returns exactly when two beats in a row have polled nobody. */
  lemma ReturnsAfterTwoIdleBeats(s: State, run: seq<Action>)
    requires (s.pc.Outside? || s.pc.Returned?) && Legal(Apply(s, Enter), run)
    ensures var pc := Run(Apply(s, Enter), run).pc; var l := Lulls(Lull(0, false), run);
            (pc.Returned? ==> l.idle == 2) && (InBeat(pc) ==> l.idle < 2)
  {
    FitsRun(Lull(0, false), Apply(s, Enter), run);
  }
}
