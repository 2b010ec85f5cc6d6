/**
 Where the scheduler falls short of its documentation: runs that end in a wrong result, and
 wake-ups that are lost.
 */
module SchedulerLimits {
  import opened Options
  import opened Scheduler
  import opened SchedulerSafety
  import opened SchedulerTurns

  function Visits(n: nat): seq<Action> { if n == 0 then [] else [Visit] + Visits(n - 1) }

  /** Nobody in the slots from `slot` on is cancelled or ready to be polled. */
  ghost predicate Quiet(s: State, slot: nat) {
    forall k: nat :: k >= slot && k in s.tasks ==>
      !Is(s, k, Cancelled) && !(Is(s, k, NotStopped) && s.tasks[k].id in s.runnable)
  }

  lemma {:induction false} QuietScan(s: State)
    requires s.pc.Beat? && s.pc.slot <= s.pc.limit && Quiet(s, s.pc.slot)
    ensures var n := s.pc.limit - s.pc.slot;
            && Legal(s, Visits(n))
            && Run(s, Visits(n)) == s.(pc := Beat(s.pc.second, s.pc.limit, s.pc.limit, s.pc.polled))
    decreases s.pc.limit - s.pc.slot
  {
    if s.pc.slot < s.pc.limit {
      var t := Apply(s, Visit);
      assert Quiet(t, t.pc.slot) by {
        forall k: nat | k >= t.pc.slot && k in t.tasks
          ensures !Is(t, k, Cancelled) && !(Is(t, k, NotStopped) && t.tasks[k].id in t.runnable)
        {
          assert k >= s.pc.slot && k in s.tasks;
        }
      }
      QuietScan(t);
      var n := s.pc.limit - s.pc.slot;
      assert Visits(n)[0] == Visit && Visits(n)[1..] == Visits(n - 1);
    }
  }

  /** From every state in which the first scan has just found nothing and a wake of a waiting task
      is past its notify step, the scheduler can go to sleep on that task: it returns `Pending`, the
      task becomes runnable, and nobody has the outer waker to invoke. */
  lemma StraddlingWakeIsLost(s: State, w: nat, k: Key) returns (run: seq<Action>)
    requires Inv(s) && s.pc.Beat? && !s.pc.second && s.pc.slot == s.pc.limit && !s.pc.polled
    requires Quiet(s, 0) && s.suspended != |s.tasks|
    requires w < |s.wakes| && s.wakes[w].held == None
    requires k in s.tasks && s.tasks[k] == Task(s.wakes[w].id, NotStopped)
    ensures Legal(s, run)
    ensures var t := Run(s, run);
            && t.pc == Returned(Pending)
            && t.tasks == s.tasks && s.tasks[k].id in t.runnable
            && t.wakes == s.wakes[..w] + s.wakes[w + 1..]
            && !Notified(t)
  {
    var s1 := Apply(s, EndBeat);
    assert Legal(s, [EndBeat]) && Run(s, [EndBeat]) == s1;
    assert Quiet(s1, 0) by {
      forall j: nat | j in s1.tasks
        ensures !Is(s1, j, Cancelled) && !(Is(s1, j, NotStopped) && s1.tasks[j].id in s1.runnable)
      { assert j >= 0 && j in s.tasks; }
    }
    QuietScan(s1);
    run := [EndBeat] + Visits(s1.pc.limit);
    RunConcat(s, [EndBeat], Visits(s1.pc.limit));
    var s2 := Run(s, run);
    assert |s2.tasks| > 0;
    Then(s, run, EndBeat);
    run := run + [EndBeat];
    Then(s, run, Store(w));
    run := run + [Store(w)];
  }

  /** Finishes the current scan, which finds nobody else, and takes one more step. */
  lemma FinishScan(run: seq<Action>, a: Action) returns (longer: seq<Action>)
    requires Legal(INIT, run)
    requires var s := Run(INIT, run); s.pc.Beat? && s.pc.slot <= s.pc.limit && Quiet(s, s.pc.slot)
    requires a.EndBeat? || (a.Notify? && a.id < Run(INIT, run).nextId)
    ensures Legal(INIT, longer)
    ensures var s := Run(INIT, run); var t := s.(pc := Beat(s.pc.second, s.pc.limit, s.pc.limit, s.pc.polled));
            Run(INIT, longer) == Apply(t, a)
  {
    var s := Run(INIT, run);
    QuietScan(s);
    var n := s.pc.limit - s.pc.slot;
    RunConcat(INIT, run, Visits(n));
    Then(INIT, run + Visits(n), a);
    longer := run + Visits(n) + [a];
  }

  /** The next slot's task is polled, its user code makes the given call, and it ends. */
  lemma PollNext(run: seq<Action>, call: Action, o: Outcome) returns (longer: seq<Action>)
    requires Legal(INIT, run) && IsCall(call) && !call.Spawn?
    requires var s := Run(INIT, run);
             s.pc.Beat? && s.pc.slot < s.pc.limit && Is(s, s.pc.slot, NotStopped) && s.tasks[s.pc.slot].id in s.runnable
    ensures Legal(INIT, longer)
    ensures Run(INIT, longer) == DoEnd(Apply(DoBegin(DoVisit(Run(INIT, run))), call), o)
  {
    Then(INIT, run, Visit);
    longer := run + [Visit];
    Then(INIT, longer, Begin);
    longer := longer + [Begin];
    Then(INIT, longer, call);
    longer := longer + [call];
    Then(INIT, longer, End(o));
    longer := longer + [End(o)];
  }

  const TWO := State(map[0 := Task(0, NotStopped), 1 := Task(1, NotStopped)], 16, 0, None, false,
                     {0, 1}, {}, Beat(false, 0, 16, false), [], 2, 0, 0, false, {})

  lemma SpawnTwo() returns (run: seq<Action>)
    ensures Legal(INIT, run)
    ensures Run(INIT, run) == TWO
  {
    Then(INIT, [], Spawn(0, false));
    Then(INIT, [] + [Spawn(0, false)], Spawn(1, false));
    Then(INIT, [] + [Spawn(0, false)] + [Spawn(1, false)], Enter);
    run := [] + [Spawn(0, false)] + [Spawn(1, false)] + [Enter];
  }

  /** One task is left, and waits; `leak` tasks finished while suspended. */
  function OneWaiting(leak: nat, pc: Pc): State {
    State(map[1 := Task(1, NotStopped)], 16, leak, None, false, {}, {}, pc, [], 2, leak, 0, false, {})
  }

  /** The first task finishes, suspending itself before that if `leak` is 1... */
  lemma FirstPoll(leak: nat) returns (run: seq<Action>)
    requires leak <= 1
    ensures Legal(INIT, run)
    ensures Run(INIT, run) == OneWaiting(leak, Beat(false, 1, 16, true)).(runnable := {1})
  {
    var two := SpawnTwo();
    run := PollNext(two, Suspend(if leak == 1 then 0 else 7), Finished);
    hide Run;
    hide Legal;
    assert TWO.tasks - {0} == map[1 := Task(1, NotStopped)];
  }

  /** ...and the second one waits. */
  lemma ReachOneWaiting(leak: nat) returns (run: seq<Action>)
    requires leak <= 1
    ensures Legal(INIT, run) && Run(INIT, run) == OneWaiting(leak, Beat(false, 2, 16, true))
  {
    var first := FirstPoll(leak);
    run := PollNext(first, Suspend(7), Yielded);
    hide Run;
    hide Legal;
  }

  lemma ReachSecondScan(leak: nat) returns (run: seq<Action>)
    requires leak <= 1
    ensures Legal(INIT, run) && Run(INIT, run) == OneWaiting(leak, Beat(false, 0, 16, false))
  {
    run := ReachOneWaiting(leak);
    run := FinishScan(run, EndBeat);
  }

  /** The first task suspends itself and finishes in the same poll, the second one waits: the
      scheduler reports that all tasks are suspended, although none is. */
  lemma WrongSuspendError() returns (run: seq<Action>)
    ensures Legal(INIT, run)
    ensures var s := Run(INIT, run);
            && s.pc == Returned(Ready(false))
            && Is(s, 1, NotStopped) && WithReason(s.tasks, Suspended) == {}
  {
    run := ReachSecondScan(1);
    run := FinishScan(run, EndBeat);
    run := FinishScan(run, EndBeat);
  }

  /** One task is left, and is suspended, but two are counted. */
  function OneSuspended(pc: Pc): State {
    State(map[1 := Task(1, Suspended)], 16, 2, None, false, {}, {}, pc, [], 2, 1, 0, false, {})
  }

  lemma ReachOneSuspended() returns (run: seq<Action>)
    ensures Legal(INIT, run) && Run(INIT, run) == OneSuspended(Beat(false, 2, 16, true))
  {
    run := FirstPoll(1);
    run := PollNext(run, Suspend(1), Yielded);
    hide Run;
    hide Legal;
  }

  lemma ReachSuspendedScan() returns (run: seq<Action>)
    ensures Legal(INIT, run) && Run(INIT, run) == OneSuspended(Beat(false, 0, 16, false))
  {
    run := ReachOneSuspended();
    run := FinishScan(run, EndBeat);
    hide Run;
    hide Legal;
  }

  /** The first task leaks a count, and the second one suspends itself: all that is left is suspended,
      but the scheduler reports that it waits, and nobody is going to wake it. */
  lemma WrongPending() returns (run: seq<Action>)
    ensures Legal(INIT, run)
    ensures var s := Run(INIT, run);
            && s.pc == Returned(Pending) && !Notified(s) && s.wakes == []
            && s.tasks != map[] && WithReason(s.tasks, Suspended) == s.tasks.Keys
  {
    run := ReachSuspendedScan();
    run := FinishScan(run, EndBeat);
    run := FinishScan(run, EndBeat);
    hide Run;
    hide Legal;
  }

  const DROWSY := OneWaiting(0, Beat(false, 16, 16, false)).(wakes := [Wake(1, None)])

  /** A wake of the waiting task begins while no waker is registered. */
  lemma ReachDrowsy() returns (run: seq<Action>)
    ensures Legal(INIT, run) && Run(INIT, run) == DROWSY
  {
    run := ReachSecondScan(0);
    run := FinishScan(run, Notify(1));
  }

  /** That wake ends after the scheduler has gone to sleep, and nobody wakes the scheduler. */
  lemma LostWakeUp() returns (run: seq<Action>)
    ensures Legal(INIT, run)
    ensures var s := Run(INIT, run);
            && s.pc == Returned(Pending) && s.wakes == []
            && Is(s, 1, NotStopped) && s.tasks[1].id in s.runnable
            && !Notified(s)
  {
    var start := ReachDrowsy();
    InitInv();
    RunInv(INIT, start);
    var rest := StraddlingWakeIsLost(DROWSY, 0, 1);
    RunConcat(INIT, start, rest);
    run := start + rest;
  }

  // ---------------------------------------------------------------- calls from outside are not heard

  /** One task waits, nobody else is there, and the wheel sleeps. */
  const SLEEPING := OneWaiting(0, Returned(Pending)).(waker := true, epoch := 1)

  lemma ReachSleeping() returns (run: seq<Action>)
    ensures Legal(INIT, run) && Run(INIT, run) == SLEEPING
  {
    run := ReachSecondScan(0);
    run := FinishScan(run, EndBeat);
    run := FinishScan(run, EndBeat);
    hide Run, Legal;
    assert Targets([]) == {};
  }

  /** Spawning while the wheel sleeps never notifies the outer waker: from every Pending result that
      nobody has answered, the new task is runnable and nobody is going to poll it. */
  lemma SpawnIsUnheard(r: State, key: Key)
    requires Inv(r) && r.pc == Returned(Pending) && !Notified(r) && Enabled(r, Spawn(key, false))
    ensures var s := Apply(r, Spawn(key, false));
            Is(s, key, NotStopped) && s.tasks[key].id in s.runnable && !Covered(s, s.tasks[key].id)
  {
    SameCover(r, Apply(r, Spawn(key, false)));
  }

  /** Nor does resuming a task whose flag is set. */
  lemma ResumeIsUnheard(r: State, key: Key)
    requires Inv(r) && r.pc == Returned(Pending) && !Notified(r)
    requires Is(r, key, Suspended) && r.tasks[key].id in r.runnable && r.tasks[key].id !in r.straddlers
    ensures var s := Apply(r, Resume(key));
            Is(s, key, NotStopped) && s.tasks[key].id in s.runnable && !Covered(s, s.tasks[key].id)
  {
    SameCover(r, Apply(r, Resume(key)));
  }

  /** From the empty wheel: a task is spawned while the wheel sleeps... */
  lemma UnheardSpawn() returns (run: seq<Action>)
    ensures Legal(INIT, run)
    ensures var s := Run(INIT, run);
            && s.waker && s.wakes == []
            && Is(s, 0, NotStopped) && s.tasks[0].id in s.runnable && !Covered(s, s.tasks[0].id)
  {
    run := ReachSleeping();
    Then(INIT, run, Spawn(0, false));
    run := run + [Spawn(0, false)];
    hide Run;
    hide Legal;
  }

  function OneAside(pc: Pc): State {
    State(map[1 := Task(1, NotStopped), 0 := Task(2, Suspended)], 16, 1, None, false,
          {2}, {}, pc, [], 3, 0, 1, false, {})
  }

  lemma ReachOneAside() returns (run: seq<Action>)
    ensures Legal(INIT, run) && Run(INIT, run) == OneAside(Beat(false, 0, 16, false))
  {
    run := ReachSleeping();
    Then(INIT, run, Spawn(0, true));
    run := run + [Spawn(0, true)];
    Then(INIT, run, Enter);
    run := run + [Enter];
    hide Run;
    hide Legal;
  }

  lemma ReachAsleepAside() returns (run: seq<Action>)
    ensures Legal(INIT, run) && Run(INIT, run) == OneAside(Returned(Pending)).(waker := true, epoch := 2)
  {
    run := ReachOneAside();
    run := FinishScan(run, EndBeat);
    run := FinishScan(run, EndBeat);
    hide Run;
    hide Legal;
    assert Targets([]) == {};
  }

  /** ...or a fresh task that was spawned suspended is resumed, and nobody hears of it. */
  lemma UnheardResume() returns (run: seq<Action>)
    ensures Legal(INIT, run)
    ensures var s := Run(INIT, run);
            && s.waker && s.wakes == []
            && Is(s, 0, NotStopped) && s.tasks[0].id in s.runnable && !Covered(s, s.tasks[0].id)
  {
    run := ReachAsleepAside();
    Then(INIT, run, Resume(0));
    run := run + [Resume(0)];
    hide Run;
    hide Legal;
  }

  // ---------------------------------------------------------------- panics break the round robin

  lemma Cons(s: State, a: Action, run: seq<Action>)
    requires Enabled(s, a) && Legal(Apply(s, a), run)
    ensures Legal(s, [a] + run) && Run(s, [a] + run) == Run(Apply(s, a), run)
    ensures forall j: nat :: VisitCount(s, [a] + run, j)
              == (if a.Visit? && s.pc.slot == j then 1 else 0) + VisitCount(Apply(s, a), run, j)
  {
    hide Apply;
    assert ([a] + run)[0] == a && ([a] + run)[1..] == run;
  }

  /** A wheel between two polls, whose first task may run, is runnable, and is task 0. */
  ghost predicate Ripe(s: State) {
    && s.pc == Outside && 0 < s.capacity && Is(s, 0, NotStopped) && s.tasks[0].id == 0 && 0 in s.runnable
    && s.wakes == [] && s.nextId > 0 && s.current == None && s.polling == {} && !s.waker
  }

  const CRASH: seq<Action> := [Enter] + ([Visit] + ([Begin] + ([Notify(0)] + ([Store(0)] + ([End(Panicked)] + [])))))

  /** One poll of such a wheel in which that task wakes itself and panics: the scan ends at slot 0,
      and the wheel is as before. */
  lemma CrashOnce(s: State)
    requires Ripe(s)
    ensures Legal(s, CRASH) && Run(s, CRASH) == s
    ensures Panics(CRASH) == 1
    ensures forall j: nat :: VisitCount(s, CRASH, j) == if j == 0 then 1 else 0
  {
    PanicsConcat([Enter], [Visit] + ([Begin] + ([Notify(0)] + ([Store(0)] + ([End(Panicked)] + [])))));
    PanicsConcat([Visit], [Begin] + ([Notify(0)] + ([Store(0)] + ([End(Panicked)] + []))));
    PanicsConcat([Begin], [Notify(0)] + ([Store(0)] + ([End(Panicked)] + [])));
    PanicsConcat([Notify(0)], [Store(0)] + ([End(Panicked)] + []));
    PanicsConcat([Store(0)], [End(Panicked)] + []);
    var s1 := Apply(s, Enter);
    var s2 := Apply(s1, Visit);
    assert s2 == s.(pc := Chosen(false, 0, s.capacity), current := Some(0));
    CrashInside(s, s2);
    var rest := [Begin] + ([Notify(0)] + ([Store(0)] + ([End(Panicked)] + [])));
    Cons(s1, Visit, rest);
    Cons(s, Enter, [Visit] + rest);
  }

  lemma CrashInside(s: State, s2: State)
    requires Ripe(s) && s2 == s.(pc := Chosen(false, 0, s.capacity), current := Some(0))
    ensures var rest := [Begin] + ([Notify(0)] + ([Store(0)] + ([End(Panicked)] + [])));
            && Legal(s2, rest) && Run(s2, rest) == s
            && forall j: nat :: VisitCount(s2, rest, j) == 0
  {
    var s3 := Apply(s2, Begin);
    var s4 := Apply(s3, Notify(0));
    var s5 := Apply(s4, Store(0));
    var s6 := Apply(s5, End(Panicked));
    assert s5.runnable == s.runnable && s5.wakes == [];
    assert s6 == s;
    Cons(s5, End(Panicked), []);
    Cons(s4, Store(0), [End(Panicked)] + []);
    Cons(s3, Notify(0), [Store(0)] + ([End(Panicked)] + []));
    Cons(s2, Begin, [Notify(0)] + ([Store(0)] + ([End(Panicked)] + [])));
  }

  lemma {:induction false} PanicsConcat(a: seq<Action>, b: seq<Action>)
    ensures Panics(a + b) == Panics(a) + Panics(b)
    decreases |a|
  {
    if a == [] {
      assert a + b == b;
    } else {
      assert (a + b)[0] == a[0] && (a + b)[1..] == a[1..] + b;
      PanicsConcat(a[1..], b);
    }
  }

  lemma {:induction false} VisitConcat(s: State, a: seq<Action>, b: seq<Action>, j: nat)
    requires Legal(s, a) && Legal(Run(s, a), b) && Legal(s, a + b)
    ensures VisitCount(s, a + b, j) == VisitCount(s, a, j) + VisitCount(Run(s, a), b, j)
    decreases |a|
  {
    hide Apply;
    if a == [] {
      assert a + b == b;
    } else {
      assert (a + b)[0] == a[0] && (a + b)[1..] == a[1..] + b;
      VisitConcat(Apply(s, a[0]), a[1..], b, j);
    }
  }

  lemma {:induction false} CrashLoop(s: State, n: nat) returns (run: seq<Action>)
    requires Ripe(s)
    ensures Legal(s, run) && Run(s, run) == s
    ensures VisitCount(s, run, 0) == Panics(run) == n && forall j: nat :: j > 0 ==> VisitCount(s, run, j) == 0
  {
    run := [];
    if n > 0 {
      var rest := CrashLoop(s, n - 1);
      CrashOnce(s);
      RunConcat(s, CRASH, rest);
      run := CRASH + rest;
      PanicsConcat(CRASH, rest);
      hide Apply;
      forall j: nat ensures VisitCount(s, run, j) == VisitCount(s, CRASH, j) + VisitCount(s, rest, j) {
        VisitConcat(s, CRASH, rest, j);
      }
    }
  }

  /** A wheel with one fresh task is such a wheel. */
  lemma RipeIsReachable()
    ensures Legal(INIT, [Spawn(0, false)]) && Ripe(Run(INIT, [Spawn(0, false)]))
  {
    Cons(INIT, Spawn(0, false), []);
    assert [Spawn(0, false)] + [] == [Spawn(0, false)];
  }

  /** A task that panics whenever it is polled keeps the tasks behind it from being looked at, for as
      many polls of the wheel as one likes. The bound of `Bypass` is reached: between two polls it
      allows one visit of slot 0 before any slot behind it, and one more for each panic. */
  lemma PanicsStarve(s: State, n: nat) returns (run: seq<Action>)
    requires Ripe(s)
    ensures Legal(s, run) && Panics(run) == n
    ensures VisitCount(s, run, 0) == n + 1 && forall j: nat :: j > 0 ==> VisitCount(s, run, j) == 0
  {
    var loop := CrashLoop(s, n);
    var t := Apply(s, Enter);
    Cons(t, Visit, []);
    Cons(s, Enter, [Visit] + []);
    var last := [Enter] + ([Visit] + []);
    assert last[0] == Enter && last[1..] == [Visit] && [Visit][1..] == [];
    assert Panics([Visit]) == 0;
    RunConcat(s, loop, last);
    run := loop + last;
    PanicsConcat(loop, last);
    hide Apply;
    forall j: nat ensures VisitCount(s, run, j) == VisitCount(s, loop, j) + VisitCount(s, last, j) {
      VisitConcat(s, loop, last, j);
    }
  }
}
