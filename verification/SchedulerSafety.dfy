/**
 What every run of the scheduler keeps: the counter, the meaning of the result, and wake-ups.
 */
module SchedulerSafety {
  import opened Options
  import opened Scheduler

  predicate IsCall(a: Action) { a.Spawn? || a.Resume? || a.Suspend? || a.Cancel? }

  predicate IsWake(a: Action) { a.Notify? || a.Invoke? || a.Store? }

  /** Wakes touch only the wakes, the waker and the flags. */
  lemma WakeFrame(s: State, a: Action)
    requires Enabled(s, a) && IsWake(a)
    ensures var t := Apply(s, a);
            t == s.(wakes := t.wakes, waker := t.waker, runnable := t.runnable, invoked := t.invoked)
  {
  }

  /** The other steps change no task. */
  predicate IsBook(a: Action) { a.Enter? || a.Begin? || a.EndBeat? }

  lemma BookFrame(s: State, a: Action)
    requires Enabled(s, a) && IsBook(a)
    ensures var t := Apply(s, a);
            && t.tasks == s.tasks && t.capacity == s.capacity && t.suspended == s.suspended
            && t.nextId == s.nextId && t.leaked == s.leaked && t.wakes == s.wakes
            && t.runnable <= s.runnable
  {
  }

  /** `t` has the tasks of `s` under their keys, less some, with other reasons; a new one is fresh. */
  ghost predicate Follows(s: State, t: State) {
    && s.capacity <= t.capacity && s.nextId <= t.nextId
    && (forall k :: k in t.tasks && k in s.tasks ==> t.tasks[k].id == s.tasks[k].id)
    && (forall k :: k in t.tasks && k !in s.tasks ==> k < t.capacity && t.tasks[k].id == s.nextId < t.nextId)
    && (forall k, j :: k in t.tasks && j in t.tasks && k !in s.tasks && j !in s.tasks ==> k == j)
  }

  lemma SpawnFollows(s: State, key: Key, suspended: bool)
    requires Enabled(s, Spawn(key, suspended))
    ensures Follows(s, Apply(s, Spawn(key, suspended)))
  {
  }

  lemma CallFollows(s: State, a: Action)
    requires Enabled(s, a) && IsCall(a)
    ensures Follows(s, Apply(s, a))
  {
    if a.Spawn? { SpawnFollows(s, a.key, a.suspended); }
  }

  lemma ScanFollows(s: State, a: Action)
    requires Enabled(s, a) && (a.Visit? || a.End?)
    ensures Follows(s, Apply(s, a))
  {
  }

  lemma StepFollows(s: State, a: Action)
    requires Enabled(s, a)
    ensures Follows(s, Apply(s, a))
  {
    if IsCall(a) { CallFollows(s, a); }
    else if IsWake(a) { WakeFrame(s, a); }
    else if IsBook(a) { BookFrame(s, a); }
    else { ScanFollows(s, a); }
    hide Apply;
  }

  lemma StepShape(s: State, a: Action)
    requires Shape(s) && Enabled(s, a)
    ensures Shape(Apply(s, a))
  {
    StepFollows(s, a);
    FollowsDistinct(s, Apply(s, a));
    if IsWake(a) { WakeFlags(s, a); } else { OtherFlags(s, a); }
    hide Apply;
    hide Flags;
    hide Distinct;
  }

  lemma FollowsDistinct(s: State, t: State)
    requires InRange(s) && Distinct(s) && Follows(s, t)
    ensures InRange(t) && Distinct(t)
  {
  }

  lemma WakeFlags(s: State, a: Action)
    requires Flags(s) && Enabled(s, a) && IsWake(a)
    ensures Flags(Apply(s, a))
  {
  }

  lemma OtherFlags(s: State, a: Action)
    requires Flags(s) && Enabled(s, a) && !IsWake(a)
    ensures Flags(Apply(s, a))
  {
    var t := Apply(s, a);
    StepFollows(s, a);
    OtherFlagsFrame(s, a);
    hide Apply;
  }

  lemma OtherFlagsFrame(s: State, a: Action)
    requires Enabled(s, a) && !IsWake(a)
    ensures var t := Apply(s, a);
            && t.wakes == s.wakes && (t.straddlers == s.straddlers || t.straddlers == Targets(s.wakes))
            && t.runnable <= s.runnable + {s.nextId} && (t.nextId == s.nextId ==> t.runnable <= s.runnable)
  {
    if IsCall(a) { CallFlagsFrame(s, a); } else { ScanFlagsFrame(s, a); }
    hide Apply;
  }

  lemma CallFlagsFrame(s: State, a: Action)
    requires Enabled(s, a) && IsCall(a)
    ensures var t := Apply(s, a);
            && t.wakes == s.wakes && (t.straddlers == s.straddlers || t.straddlers == Targets(s.wakes))
            && t.runnable <= s.runnable + {s.nextId} && (t.nextId == s.nextId ==> t.runnable <= s.runnable)
  {
    CallFrame(s, a);
  }

  lemma ScanFlagsFrame(s: State, a: Action)
    requires Enabled(s, a) && !IsWake(a) && !IsCall(a)
    ensures var t := Apply(s, a);
            && t.wakes == s.wakes && (t.straddlers == s.straddlers || t.straddlers == Targets(s.wakes))
            && t.runnable <= s.runnable + {s.nextId} && (t.nextId == s.nextId ==> t.runnable <= s.runnable)
  {
  }

  lemma CallPosition(s: State, a: Action)
    requires Position(s) && Enabled(s, a) && IsCall(a)
    ensures Position(Apply(s, a))
  {
  }

  lemma ScanPosition(s: State, a: Action)
    requires Position(s) && Enabled(s, a) && !IsCall(a)
    ensures Position(Apply(s, a))
  {
  }

  // ---------------------------------------------------------------- the suspended counter

  lemma PutKeys(tasks: map<Key, Task>, key: Key, t: Task)
    ensures WithReason(tasks[key := t], Suspended)
         == if t.reason == Suspended then WithReason(tasks, Suspended) + {key} else WithReason(tasks, Suspended) - {key}
  {
  }

  lemma RemoveKeys(tasks: map<Key, Task>, key: Key)
    ensures WithReason(tasks - {key}, Suspended) == WithReason(tasks, Suspended) - {key}
  {
  }

  lemma SpawnCounted(s: State, key: Key, suspended: bool)
    requires Counted(s) && key !in s.tasks
    ensures Counted(DoSpawn(s, key, suspended))
  {
    PutKeys(s.tasks, key, Task(s.nextId, if suspended then Suspended else NotStopped));
  }

  lemma ReasonCounted(s: State, key: Key, r: StopReason)
    requires Counted(s) && key in s.tasks
    ensures var was := s.tasks[key].reason;
            Counted(SetReason(s, key, r).(suspended := s.suspended
              + (if r == Suspended && was != Suspended then 1 else 0)
              - (if r != Suspended && was == Suspended then 1 else 0)))
  {
    PutKeys(s.tasks, key, s.tasks[key].(reason := r));
  }

  lemma CallCounted(s: State, a: Action)
    requires Counted(s) && Enabled(s, a) && IsCall(a)
    ensures Counted(Apply(s, a))
  {
    if a.Spawn? {
      SpawnCounted(s, a.key, a.suspended);
    } else if a.key in s.tasks {
      ReasonCounted(s, a.key, if a.Resume? then NotStopped else if a.Suspend? then Suspended else Cancelled);
    }
    hide WithReason;
  }

  lemma ScanCounted(s: State, a: Action)
    requires Counted(s) && Enabled(s, a) && !IsCall(a)
    ensures Counted(Apply(s, a))
  {
    if a.Visit? { VisitCounted(s); }
    else if a.End? { EndCounted(s, a.outcome); }
    else if IsWake(a) { WakeFrame(s, a); }
    else { BookFrame(s, a); }
    hide Apply;
    hide WithReason;
  }

  lemma VisitCounted(s: State)
    requires Counted(s) && s.pc.Beat?
    ensures Counted(DoVisit(s))
  {
    RemoveKeys(s.tasks, s.pc.slot);
  }

  lemma EndCounted(s: State, o: Outcome)
    requires Counted(s) && s.pc.Inside?
    ensures Counted(DoEnd(s, o))
  {
    RemoveKeys(s.tasks, s.pc.slot);
  }

  // ---------------------------------------------------------------- sweeping cancelled tasks

  lemma CallSwept(s: State, a: Action)
    requires Enabled(s, a) && (IsCall(a) || a.Begin? || a.End? || a.Enter?)
    ensures Swept(Apply(s, a))
  {
  }

  lemma VisitSwept(s: State)
    requires Position(s) && Swept(s) && Enabled(s, Visit)
    ensures Swept(Apply(s, Visit))
  {
    var t := Apply(s, Visit);
    if t.pc.Beat? {
      forall k: nat | !t.pc.polled && k < t.pc.slot ensures !Is(t, k, Cancelled) {
        assert k < s.pc.slot ==> !Is(s, k, Cancelled);
      }
    }
  }

  lemma EndBeatSwept(s: State)
    requires InRange(s) && Position(s) && Swept(s) && Enabled(s, EndBeat)
    ensures Swept(Apply(s, EndBeat))
  {
    var t := Apply(s, EndBeat);
    forall k: nat | t.pc.Returned? ensures !Is(t, k, Cancelled) {
      assert !Is(s, k, Cancelled);
    }
  }

  lemma StepSwept(s: State, a: Action)
    requires Shape(s) && Position(s) && Swept(s) && Enabled(s, a)
    ensures Swept(Apply(s, a))
  {
    if a.Visit? { VisitSwept(s); }
    else if a.EndBeat? { EndBeatSwept(s); }
    else if IsWake(a) {
      WakeFrame(s, a);
      assert forall k: nat :: Is(Apply(s, a), k, Cancelled) == Is(s, k, Cancelled);
    } else { CallSwept(s, a); }
    hide Apply;
  }

  // ---------------------------------------------------------------- wake-ups

  lemma StepHeld(s: State, a: Action)
    requires Held(s) && Enabled(s, a)
    ensures Held(Apply(s, a))
  {
  }

  /** A wake never takes back a notification. */
  lemma WakeNotifies(s: State, a: Action)
    requires Enabled(s, a) && IsWake(a)
    ensures Notified(s) ==> Notified(Apply(s, a))
    ensures forall id :: Covered(s, id) ==> Covered(Apply(s, a), id)
    ensures a.Notify? && s.waker ==> Notified(Apply(s, a))
  {
    var t := Apply(s, a);
    if a.Notify? && s.waker {
      assert t.wakes[|s.wakes|].held == Some(t.epoch);
    }
    if Notified(s) && !s.invoked {
      var i :| 0 <= i < |s.wakes| && s.wakes[i].held == Some(s.epoch);
      if a.Notify? {
        assert t.wakes[i].held == Some(t.epoch);
      } else if a.Store? {
        assert t.wakes[if i < a.w then i else i - 1].held == Some(t.epoch);
      } else if i != a.w {
        assert t.wakes[i].held == Some(t.epoch);
      }
    }
  }

  lemma WakeListens(s: State, a: Action)
    requires Listens(s) && Enabled(s, a) && IsWake(a)
    ensures Listens(Apply(s, a))
  {
    WakeNotifies(s, a);
    hide Notified;
    var t := Apply(s, a);
    forall i | Listening(t.pc) && 0 <= i < |t.wakes| ensures Covered(t, t.wakes[i].id) {
      if a.Notify? && i == |s.wakes| {
        assert Notified(t);
      } else {
        var j := if a.Store? && i >= a.w then i + 1 else i;
        assert Covered(s, s.wakes[j].id);
        assert t.wakes[i].id == s.wakes[j].id;
      }
    }
  }

  lemma WakeMissed(s: State, a: Action)
    requires Listens(s) && Missed(s) && Enabled(s, a) && IsWake(a)
    ensures Missed(Apply(s, a))
  {
    WakeNotifies(s, a);
    hide Covered;
    var t := Apply(s, a);
    forall k: nat | Passed(t, k) && Is(t, k, NotStopped) && t.tasks[k].id in t.runnable
      ensures Covered(t, t.tasks[k].id)
    {
      assert Passed(s, k) && Is(s, k, NotStopped);
      if s.tasks[k].id !in s.runnable {
        assert Covered(s, s.wakes[a.w].id);
      }
    }
  }

  /** The other steps leave the wakes alone, so whoever was covered stays covered. */
  lemma ScanFrame(s: State, a: Action)
    requires Enabled(s, a) && !IsWake(a) && !a.EndBeat?
    ensures var t := Apply(s, a);
            && t.wakes == s.wakes && t.epoch == s.epoch && t.invoked == s.invoked && t.straddlers == s.straddlers
            && (Listening(t.pc) ==> Listening(s.pc) && t.waker == s.waker)
  {
    if IsCall(a) { CallFrame(s, a); } else { StepsFrame(s, a); }
    hide Apply;
  }

  lemma CallFrame(s: State, a: Action)
    requires Enabled(s, a) && IsCall(a)
    ensures var t := Apply(s, a);
            t == AfterCall(s).(tasks := t.tasks, capacity := t.capacity, suspended := t.suspended,
                               runnable := t.runnable, nextId := t.nextId)
  {
  }

  lemma StepsFrame(s: State, a: Action)
    requires Enabled(s, a) && (a.Enter? || a.Visit? || a.Begin? || a.End?)
    ensures var t := Apply(s, a);
            && t.wakes == s.wakes && t.epoch == s.epoch && t.invoked == s.invoked && t.straddlers == s.straddlers
            && (Listening(t.pc) ==> Listening(s.pc) && t.waker == s.waker)
  {
  }

  lemma SameCover(s: State, t: State)
    requires t.wakes == s.wakes && t.epoch == s.epoch && t.invoked == s.invoked && t.straddlers == s.straddlers
    ensures Notified(t) == Notified(s)
    ensures forall id :: Covered(t, id) == Covered(s, id)
  {
  }

  lemma EndBeatListens(s: State)
    requires Listens(s) && Enabled(s, EndBeat)
    ensures Listens(Apply(s, EndBeat))
    ensures Listening(s.pc) && Listening(Apply(s, EndBeat).pc) ==>
              forall id :: Covered(s, id) ==> Covered(Apply(s, EndBeat), id)
  {
    var t := Apply(s, EndBeat);
    if s.pc.second { SameCover(s, t); }
  }

  lemma ScanListens(s: State, a: Action)
    requires Listens(s) && Enabled(s, a) && !IsWake(a)
    ensures Listens(Apply(s, a))
  {
    if a.EndBeat? {
      EndBeatListens(s);
    } else {
      ScanFrame(s, a);
      SameCover(s, Apply(s, a));
      hide Notified;
    }
    hide Apply;
  }

  lemma VisitMissed(s: State)
    requires Missed(s) && Enabled(s, Visit)
    ensures Missed(Apply(s, Visit))
  {
    var t := Apply(s, Visit);
    SameCover(s, t);
    hide Covered;
    forall k: nat | Passed(t, k) && Is(t, k, NotStopped) && t.tasks[k].id in t.runnable
      ensures Covered(t, t.tasks[k].id)
    {
      assert Passed(s, k) && Is(s, k, NotStopped);
    }
  }

  lemma EndBeatMissed(s: State)
    requires InRange(s) && Position(s) && Listens(s) && Missed(s) && Enabled(s, EndBeat)
    ensures Missed(Apply(s, EndBeat))
  {
    var t := Apply(s, EndBeat);
    EndBeatListens(s);
    hide Covered;
    forall k: nat | Passed(t, k) && Is(t, k, NotStopped) && t.tasks[k].id in t.runnable
      ensures Covered(t, t.tasks[k].id)
    {
      assert Passed(s, k) && Is(s, k, NotStopped);
    }
  }

  lemma ScanMissed(s: State, a: Action)
    requires Shape(s) && Position(s) && Listens(s) && Missed(s) && Enabled(s, a) && !IsWake(a)
    ensures Missed(Apply(s, a))
  {
    if a.Visit? { VisitMissed(s); }
    else if a.EndBeat? { EndBeatMissed(s); }
    else { assert forall k: nat :: !Passed(Apply(s, a), k); }
    hide Apply;
    hide Covered;
  }

  // ---------------------------------------------------------------- runs

  lemma StepInv(s: State, a: Action)
    requires Inv(s) && Enabled(s, a)
    ensures Inv(Apply(s, a))
  {
    StepShape(s, a);
    StepSwept(s, a);
    StepHeld(s, a);
    if IsCall(a) { CallPosition(s, a); CallCounted(s, a); } else { ScanPosition(s, a); ScanCounted(s, a); }
    if IsWake(a) { WakeListens(s, a); WakeMissed(s, a); } else { ScanListens(s, a); ScanMissed(s, a); }
  }

  lemma InitInv()
    ensures Inv(INIT)
  {
    assert WithReason(INIT.tasks, Suspended) == {};
  }

  lemma {:induction false} RunInv(s: State, run: seq<Action>)
    requires Inv(s) && Legal(s, run)
    ensures Inv(Run(s, run))
    decreases |run|
  {
    hide Inv;
    if run != [] {
      StepInv(s, run[0]);
      RunInv(Apply(s, run[0]), run[1..]);
    }
  }

  lemma {:induction false} RunConcat(s: State, a: seq<Action>, b: seq<Action>)
    requires Legal(s, a) && Legal(Run(s, a), b)
    ensures Legal(s, a + b) && Run(s, a + b) == Run(Run(s, a), b)
    decreases |a|
  {
    hide Apply;
    if a == [] {
      assert a + b == b;
    } else {
      assert (a + b)[0] == a[0] && (a + b)[1..] == a[1..] + b;
      RunConcat(Apply(s, a[0]), a[1..], b);
    }
  }

  lemma Then(s: State, run: seq<Action>, a: Action)
    requires Legal(s, run) && Enabled(Run(s, run), a)
    ensures Legal(s, run + [a]) && Run(s, run + [a]) == Apply(Run(s, run), a)
  {
    RunConcat(s, run, [a]);
  }

  /** Exact accounting over every run, re-entrant calls included; the decrements in `resume` and
      `cancel` never underflow, because what they decrement is at least the task they found. */
  lemma SuspendedAccounting(run: seq<Action>)
    requires Legal(INIT, run)
    ensures var s := Run(INIT, run);
            && s.suspended == |WithReason(s.tasks, Suspended)| + s.leaked
            && (forall key :: Is(s, key, Suspended) ==> s.suspended >= 1)
  {
    InitInv();
    RunInv(INIT, run);
    var s := Run(INIT, run);
    forall key | Is(s, key, Suspended) ensures s.suspended >= 1 {
      assert key in WithReason(s.tasks, Suspended);
    }
  }

  // ---------------------------------------------------------------- the result of a poll

  /** What the documentation promises: done, all suspended, or waiting. */
  ghost function Promised(s: State): Poll {
    if s.tasks == map[] then Ready(true)
    else if WithReason(s.tasks, NotStopped) == {} then Ready(false)
    else Pending
  }

  lemma CountTasks(tasks: map<Key, Task>)
    ensures |tasks| == |WithReason(tasks, NotStopped)| + |WithReason(tasks, Suspended)| + |WithReason(tasks, Cancelled)|
  {
    var n, u, c := WithReason(tasks, NotStopped), WithReason(tasks, Suspended), WithReason(tasks, Cancelled);
    assert tasks.Keys == n + u + c;
    assert |n + u + c| == |n + u| + |c|;
    assert |n + u| == |n| + |u|;
    assert |tasks.Keys| == |tasks|;
  }

  /** When `poll_internal` returns, no cancelled task is left, and the result is the promised one
      exactly unless tasks that finished while suspended stand in for the ones still waiting. */
  lemma ResultExact(run: seq<Action>)
    requires Legal(INIT, run) && Run(INIT, run).pc.Returned?
    ensures var s := Run(INIT, run);
            && WithReason(s.tasks, Cancelled) == {}
            && (s.pc.result == Ready(true) <==> s.tasks == map[])
            && (s.pc.result == Promised(s) <==>
                  var waiting := |WithReason(s.tasks, NotStopped)|;
                  s.tasks == map[] || s.leaked == 0 || (waiting != 0 && waiting != s.leaked))
  {
    InitInv();
    RunInv(INIT, run);
    var s := Run(INIT, run);
    hide Heard;
    hide Shape;
    CountTasks(s.tasks);
    assert forall k :: k in s.tasks ==> !Is(s, k, Cancelled);
    assert |s.tasks| == 0 <==> s.tasks == map[];
  }

  /** No poll of this run finishes a task that is suspended at that moment. */
  predicate Tidy(s: State, run: seq<Action>)
    requires Legal(s, run)
    decreases |run|
  {
    run == []
    || ((run[0] == End(Finished) ==> !Is(s, s.pc.slot, Suspended)) && Tidy(Apply(s, run[0]), run[1..]))
  }

  lemma {:induction false} TidyLeaksNothing(s: State, run: seq<Action>)
    requires Legal(s, run) && Tidy(s, run)
    ensures Run(s, run).leaked == s.leaked
    decreases |run|
  {
    if run != [] { TidyLeaksNothing(Apply(s, run[0]), run[1..]); }
  }

  /** In runs without such a poll the result is always the promised one. */
  lemma ResultClassified(run: seq<Action>)
    requires Legal(INIT, run) && Tidy(INIT, run) && Run(INIT, run).pc.Returned?
    ensures Run(INIT, run).pc.result == Promised(Run(INIT, run))
  {
    TidyLeaksNothing(INIT, run);
    ResultExact(run);
  }

  // ---------------------------------------------------------------- wake-ups are not lost

  /** The tasks that outside code can make eligible without a wake, once a poll has ended in `r`:
      those spawned since, and those that were suspended then although their flag was set. */
  ghost predicate Unannounced(r: State, id: TaskId) {
    id >= r.nextId || exists k :: Is(r, k, Suspended) && r.tasks[k].id == id && id in r.runnable
  }

  /** What holds from a Pending result `r` until the wheel is polled again. */
  ghost predicate Asleep(r: State, s: State) {
    && (s.pc.Outside? || s.pc.Returned?) && r.nextId <= s.nextId
    && (s.waker || Notified(s))
    && (forall i :: 0 <= i < |s.wakes| ==> Covered(s, s.wakes[i].id))
    && Announced(r, s)
  }

  ghost predicate Announced(r: State, s: State) {
    forall k :: k in s.tasks && s.tasks[k].id in s.runnable ==>
      Covered(s, s.tasks[k].id) || Unannounced(r, s.tasks[k].id)
  }

  lemma FallsAsleep(r: State)
    requires Inv(r) && r.pc == Returned(Pending)
    ensures Asleep(r, r)
  {
    hide Covered, Notified, Counted;
    forall k | k in r.tasks && r.tasks[k].id in r.runnable
      ensures Covered(r, r.tasks[k].id) || Unannounced(r, r.tasks[k].id)
    {
      assert !Is(r, k, Cancelled);
      assert Passed(r, k);
      assert Is(r, k, NotStopped) || Is(r, k, Suspended);
    }
  }

  lemma CallSleeps(r: State, s: State, a: Action)
    requires Asleep(r, s) && Enabled(s, a) && IsCall(a)
    ensures Asleep(r, Apply(s, a))
  {
    var t := Apply(s, a);
    CallFrame(s, a);
    CallFollows(s, a);
    SameCover(s, t);
    assert forall id :: id in t.runnable ==> id in s.runnable || id == s.nextId;
    hide Apply, Covered, Notified;
  }

  lemma WakeSleeps(r: State, s: State, a: Action)
    requires Asleep(r, s) && Enabled(s, a) && IsWake(a)
    ensures Asleep(r, Apply(s, a))
  {
    var t := Apply(s, a);
    WakeNotifies(s, a);
    WakeFrame(s, a);
    hide Covered, Notified, Unannounced;
    forall i | 0 <= i < |t.wakes| ensures Covered(t, t.wakes[i].id) {
      if a.Notify? && i == |s.wakes| {
        assert Notified(t);
        NotifiedCovers(t, t.wakes[i].id);
      } else {
        var j := if a.Store? && i >= a.w then i + 1 else i;
        assert Covered(s, s.wakes[j].id) && t.wakes[i].id == s.wakes[j].id;
      }
    }
    if a.Store? { assert Covered(s, s.wakes[a.w].id); }
  }

  lemma NotifiedCovers(s: State, id: TaskId)
    requires Notified(s)
    ensures Covered(s, id)
  {
  }

  lemma {:induction false} StaysAsleep(r: State, s: State, more: seq<Action>)
    requires Asleep(r, s) && Legal(s, more) && Enter !in more
    ensures Asleep(r, Run(s, more))
    decreases |more|
  {
    if more != [] {
      assert more[0] in more;
      assert IsCall(more[0]) || IsWake(more[0]);
      if IsCall(more[0]) { CallSleeps(r, s, more[0]); } else { WakeSleeps(r, s, more[0]); }
      hide Asleep, Apply;
      StaysAsleep(r, Apply(s, more[0]), more[1..]);
    }
  }

  /** Wake-up safety. Let `poll_internal` return `Pending`, and let any handle calls and any steps of
      wakes follow, until the wheel is polled again. If at that moment some live task is runnable,
      then the outer waker has been invoked since it was registered, or some wake holds it and is
      about to invoke it, or a wake of that very task had already passed its notify step then; the
      only exceptions are tasks spawned since the return, and tasks that were suspended at the return
      with their flag set. In particular no exception may have been eligible to run at the return. */
  lemma WakeUpSafety(run: seq<Action>, more: seq<Action>, k: Key)
    requires Legal(INIT, run) && Run(INIT, run).pc == Returned(Pending)
    requires Legal(Run(INIT, run), more) && Enter !in more
    requires var s := Run(Run(INIT, run), more); k in s.tasks && s.tasks[k].id in s.runnable
    ensures var r := Run(INIT, run); var s := Run(r, more);
            || s.invoked
            || (exists i :: 0 <= i < |s.wakes| && s.wakes[i].held == Some(s.epoch))
            || s.tasks[k].id in s.straddlers
            || Unannounced(r, s.tasks[k].id)
    ensures var r := Run(INIT, run);
            Is(r, k, NotStopped) && r.tasks[k].id == Run(r, more).tasks[k].id ==> !Unannounced(r, r.tasks[k].id)
  {
    InitInv();
    RunInv(INIT, run);
    var r := Run(INIT, run);
    FallsAsleep(r);
    StaysAsleep(r, r, more);
    hide Run, Legal, Counted, Swept, Heard;
  }

  /** The exceptions are real, and these are all: as long as nobody has been notified and only
      handle calls follow, a runnable task goes unheard if and only if it is one of them. */
  lemma UnheardExactly(run: seq<Action>, calls: seq<Action>, k: Key)
    requires Legal(INIT, run) && Run(INIT, run).pc == Returned(Pending) && !Notified(Run(INIT, run))
    requires Legal(Run(INIT, run), calls) && forall i :: 0 <= i < |calls| ==> IsCall(calls[i])
    requires var s := Run(Run(INIT, run), calls); k in s.tasks && s.tasks[k].id in s.runnable
    ensures var r := Run(INIT, run); var s := Run(r, calls);
            !Covered(s, s.tasks[k].id) <==> Unannounced(r, s.tasks[k].id) && s.tasks[k].id !in r.straddlers
  {
    var r := Run(INIT, run);
    assert Enter !in calls;
    WakeUpSafety(run, calls, k);
    CallsNotifyNobody(r, calls);
    hide Run, Legal, Unannounced;
  }

  lemma {:induction false} CallsNotifyNobody(s: State, calls: seq<Action>)
    requires Legal(s, calls) && forall i :: 0 <= i < |calls| ==> IsCall(calls[i])
    ensures Notified(Run(s, calls)) == Notified(s)
    ensures Run(s, calls).straddlers == s.straddlers
    decreases |calls|
  {
    if calls != [] {
      var t := Apply(s, calls[0]);
      CallFrame(s, calls[0]);
      SameCover(s, t);
      hide Apply, Notified;
      CallsNotifyNobody(t, calls[1..]);
    }
  }

  /** Wakes run to completion between the scheduler's own steps: same thread, or an interrupt. */
  predicate Uninterrupted(s: State, run: seq<Action>)
    requires Legal(s, run)
    decreases |run|
  {
    run == [] || ((IsWake(run[0]) || s.wakes == []) && Uninterrupted(Apply(s, run[0]), run[1..]))
  }

  lemma {:induction false} NoStraddlers(s: State, run: seq<Action>)
    requires Legal(s, run) && Uninterrupted(s, run) && s.straddlers == {}
    ensures Run(s, run).straddlers == {}
    decreases |run|
  {
    if run != [] {
      assert Apply(s, run[0]).straddlers == {};
      NoStraddlers(Apply(s, run[0]), run[1..]);
    }
  }

  lemma {:induction false} SleepKeepsStraddlers(s: State, more: seq<Action>)
    requires Legal(s, more) && (s.pc.Outside? || s.pc.Returned?) && Enter !in more
    ensures Run(s, more).straddlers == s.straddlers
    decreases |more|
  {
    if more != [] {
      assert more[0] in more;
      SleepKeepsStraddlers(Apply(s, more[0]), more[1..]);
    }
  }

  /** Then no wake-up is lost: once the wakes are through, the outer waker has been invoked for
      every task but those that outside code made eligible itself. */
  lemma NoWakeUpLost(run: seq<Action>, more: seq<Action>, k: Key)
    requires Legal(INIT, run) && Uninterrupted(INIT, run) && Run(INIT, run).pc == Returned(Pending)
    requires Legal(Run(INIT, run), more) && Enter !in more
    requires var s := Run(Run(INIT, run), more); s.wakes == [] && k in s.tasks && s.tasks[k].id in s.runnable
    ensures var r := Run(INIT, run); var s := Run(r, more); s.invoked || Unannounced(r, s.tasks[k].id)
  {
    NoStraddlers(INIT, run);
    SleepKeepsStraddlers(Run(INIT, run), more);
    WakeUpSafety(run, more, k);
  }
}
