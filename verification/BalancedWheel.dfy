/**
 The stack put together: a wheel some of whose tasks are wrapped for one balancing group.

 A wrapper whose gate is closed wakes itself and yields. That wake gives it a turn in the next beat,
 so every beat offers the gate to every member, somebody passes it, and the group gets fair.
 */
module BalancedWheel {
  import opened Scheduler
  import opened SchedulerSafety
  import opened SchedulerTurns
  import T = TimingModel
  import SlabModel

  /** `woken` says whether the flag of the task being polled was set since its poll began. */
  datatype Stack = Stack(wheel: State, group: T.Group, woken: bool)

  /** A step of the wheel; if it ends the poll of a wrapped task, the inner future took time `d`. */
  datatype Move = Move(a: Action, d: nat)

  /** Which tasks are wrapped, and the keys of their entries. */
  type Wrapping = map<TaskId, nat>

  predicate InWrapper(s: State, w: Wrapping) {
    s.pc.Inside? && s.pc.slot in s.tasks && s.tasks[s.pc.slot].id in w
  }

  function OwnEntry(s: State, w: Wrapping): nat
    requires InWrapper(s, w)
  {
    w[s.tasks[s.pc.slot].id]
  }

  /** A cancelled wrapper is about to be swept. */
  predicate Sweeps(s: State, a: Action, w: Wrapping) {
    a.Visit? && s.pc.Beat? && Is(s, s.pc.slot, Cancelled) && s.tasks[s.pc.slot].id in w
  }

  function SweptEntry(s: State, a: Action, w: Wrapping): nat
    requires Sweeps(s, a, w)
  {
    w[s.tasks[s.pc.slot].id]
  }

  /** What a wrapper whose gate is closed does: it calls nothing, wakes itself and yields. Inside an
      open gate the inner future does what it likes. */
  predicate Allowed(c: Stack, m: Move, w: Wrapping) {
    && Enabled(c.wheel, m.a)
    && (InWrapper(c.wheel, w) && T.HeldBack(c.group, OwnEntry(c.wheel, w)) ==>
          !IsCall(m.a) && (m.a.End? ==> m.a.outcome == Yielded && c.woken))
  }

  /** What the move does to the group: a poll that ends is gated and charged, unless it panics, and a
      wrapper that is dropped leaves. */
  function MoveOps(c: Stack, m: Move, w: Wrapping): seq<T.Op>
    requires Allowed(c, m, w)
  {
    if InWrapper(c.wheel, w) && m.a.End? then
      var key := OwnEntry(c.wheel, w);
      match m.a.outcome
      case Yielded => [T.Poll(key, m.d)]
      case Finished => [T.Poll(key, m.d), T.Leave(key)]
      case Panicked => []
    else if Sweeps(c.wheel, m.a, w) then [T.Leave(SweptEntry(c.wheel, m.a, w))]
    else []
  }

  function Advance(c: Stack, m: Move, w: Wrapping): Stack
    requires Allowed(c, m, w)
  {
    var s := c.wheel;
    Stack(Apply(s, m.a),
          T.Run(c.group, MoveOps(c, m, w)),
          if m.a.Begin? then false
          else if m.a.Store? && InWrapper(s, w) && s.wakes[m.a.w].id == s.tasks[s.pc.slot].id then true
          else c.woken)
  }

  // ---------------------------------------------------------------- runs

  /** What the tasks do for their part: nobody suspends a wrapped task, an inner future takes between 1
      and `D`, does not panic, and wakes itself before it yields. */
  predicate Cooperative(c: Stack, m: Move, w: Wrapping, D: nat)
    requires Allowed(c, m, w)
  {
    && 1 <= m.d <= D
    && (m.a.Suspend? && m.a.key in c.wheel.tasks ==> c.wheel.tasks[m.a.key].id !in w)
    && (InWrapper(c.wheel, w) && !T.HeldBack(c.group, OwnEntry(c.wheel, w)) && m.a.End? ==>
          m.a.outcome != Panicked && (m.a.outcome == Yielded ==> c.woken))
  }

  predicate Cooperates(c: Stack, run: seq<Move>, w: Wrapping, D: nat)
    decreases |run|
  {
    run == [] ||
    (Allowed(c, run[0], w) && Cooperative(c, run[0], w, D) && Cooperates(Advance(c, run[0], w), run[1..], w, D))
  }

  function After(c: Stack, run: seq<Move>, w: Wrapping, D: nat): Stack
    requires Cooperates(c, run, w, D)
    decreases |run|
  {
    if run == [] then c else After(Advance(c, run[0], w), run[1..], w, D)
  }

  function Ops(c: Stack, run: seq<Move>, w: Wrapping, D: nat): seq<T.Op>
    requires Cooperates(c, run, w, D)
    decreases |run|
  {
    if run == [] then [] else MoveOps(c, run[0], w) + Ops(Advance(c, run[0], w), run[1..], w, D)
  }

  function Steps(run: seq<Move>): seq<Action> {
    if run == [] then [] else [run[0].a] + Steps(run[1..])
  }

  /** The wheel's part is a legal run of the wheel. */
  lemma {:induction false} WheelRuns(c: Stack, run: seq<Move>, w: Wrapping, D: nat)
    requires Cooperates(c, run, w, D)
    ensures Legal(c.wheel, Steps(run)) && Run(c.wheel, Steps(run)) == After(c, run, w, D).wheel
    decreases |run|
  {
    hide Apply, Allowed, Cooperative, MoveOps;
    if run != [] {
      WheelRuns(Advance(c, run[0], w), run[1..], w, D);
      assert Steps(run)[0] == run[0].a && Steps(run)[1..] == Steps(run[1..]);
      assert Allowed(c, run[0], w) ==> Enabled(c.wheel, run[0].a) by { AllowedIsEnabled(c, run[0], w); }
    }
  }

  lemma AllowedIsEnabled(c: Stack, m: Move, w: Wrapping)
    ensures Allowed(c, m, w) ==> Enabled(c.wheel, m.a)
  {
  }

  /** The group's part is a gated run of the group. */
  lemma {:induction false} GroupRuns(c: Stack, run: seq<Move>, w: Wrapping, D: nat)
    requires Cooperates(c, run, w, D)
    ensures T.Run(c.group, Ops(c, run, w, D)) == After(c, run, w, D).group
    ensures T.Moves(Ops(c, run, w, D), D)
    decreases |run|
  {
    if run != [] {
      var n := Advance(c, run[0], w);
      GroupRuns(n, run[1..], w, D);
      MoveMoves(c, run[0], w, D);
      hide MoveOps, Allowed, Cooperative;
      T.RunConcat(c.group, MoveOps(c, run[0], w), Ops(n, run[1..], w, D));
    }
  }

  lemma MoveMoves(c: Stack, m: Move, w: Wrapping, D: nat)
    requires Allowed(c, m, w) && Cooperative(c, m, w, D)
    ensures T.Moves(MoveOps(c, m, w), D)
  {
  }

  // ---------------------------------------------------------------- every member has a wrapper that gets its turns

  /** The task in slot `k` wraps entry `e`, and is runnable, being polled, or about to be swept. */
  ghost predicate Wraps(s: State, w: Wrapping, k: Key, e: nat) {
    && k in s.tasks && s.tasks[k].id in w && w[s.tasks[k].id] == e
    && (s.tasks[k].reason == Cancelled || Eligible(s, k, s.tasks[k].id) || Running(s, k, s.tasks[k].id))
  }

  ghost predicate Manned(c: Stack, w: Wrapping) {
    forall e :: e in T.Entries(c.group) ==> exists k :: Wraps(c.wheel, w, k, e)
  }

  ghost predicate StackInv(c: Stack, w: Wrapping) {
    && Inv(c.wheel) && T.Valid(c.group) && Manned(c, w) && Flagged(c, w)
    && (forall i, j :: i in w && j in w && w[i] == w[j] ==> i == j)
  }

  ghost predicate Flagged(c: Stack, w: Wrapping) {
    InWrapper(c.wheel, w) && c.woken ==> c.wheel.tasks[c.wheel.pc.slot].id in c.wheel.runnable
  }

  lemma StepFlagged(c: Stack, m: Move, w: Wrapping)
    requires Flagged(c, w) && Allowed(c, m, w)
    ensures Flagged(Advance(c, m, w), w)
  {
    hide T.Run, MoveOps;
    var s, t := c.wheel, Apply(c.wheel, m.a);
    if InWrapper(t, w) && !m.a.Begin? { InsideBefore(s, m.a); }
  }

  lemma InsideBefore(s: State, a: Action)
    requires Enabled(s, a) && Apply(s, a).pc.Inside? && !a.Begin?
    ensures var t := Apply(s, a);
            && s.pc == t.pc && s.runnable <= t.runnable
            && (s.pc.slot in s.tasks ==> s.pc.slot in t.tasks && t.tasks[s.pc.slot].id == s.tasks[s.pc.slot].id)
            && (s.pc.slot !in s.tasks && s.pc.slot in t.tasks ==> a.Spawn?)
  {
  }

  /** The move ends the poll of the wrapper of `e` for good, or sweeps it. */
  predicate Removes(c: Stack, m: Move, w: Wrapping, e: nat) {
    || (m.a == End(Finished) && InWrapper(c.wheel, w) && OwnEntry(c.wheel, w) == e)
    || (Sweeps(c.wheel, m.a, w) && SweptEntry(c.wheel, m.a, w) == e)
  }

  lemma CancelledKept(s: State, a: Action, k: Key)
    requires Is(s, k, Cancelled) && Enabled(s, a)
    requires !((a.Visit? || a == End(Finished)) && s.pc.slot == k)
    ensures k in Apply(s, a).tasks && Apply(s, a).tasks[k] == s.tasks[k]
  {
    if IsCall(a) { CancelledCall(s, a, k); }
    else if IsWake(a) { WakeFrame(s, a); }
    else if IsBook(a) { BookFrame(s, a); }
  }

  lemma CancelCancels(s: State, k: Key)
    requires Enabled(s, Cancel(k)) && k in s.tasks
    ensures Is(Apply(s, Cancel(k)), k, Cancelled) && Apply(s, Cancel(k)).tasks[k].id == s.tasks[k].id
  {
  }

  /** A wrapper keeps its turns, or stays cancelled, as long as its entry is there. */
  lemma StepWraps(c: Stack, m: Move, w: Wrapping, D: nat, k: Key, e: nat)
    requires Inv(c.wheel) && Flagged(c, w) && Allowed(c, m, w) && Cooperative(c, m, w, D)
    requires Wraps(c.wheel, w, k, e) && !Removes(c, m, w, e)
    ensures Wraps(Apply(c.wheel, m.a), w, k, e)
    ensures Apply(c.wheel, m.a).tasks[k].id == c.wheel.tasks[k].id
  {
    var s, a := c.wheel, m.a;
    var id := s.tasks[k].id;
    assert a != Suspend(k);
    assert a == End(Finished) && s.pc.slot == k ==> InWrapper(s, w);
    assert a.Visit? && s.pc.slot == k ==> !Is(s, k, Cancelled);
    hide T.HeldBack, MoveOps;
    if Is(s, k, Cancelled) {
      CancelledKept(s, a, k);
    } else if a == Cancel(k) {
      CancelCancels(s, k);
    } else {
      StepRuns(c, m, w, D, k, id);
    }
  }

  lemma StepRuns(c: Stack, m: Move, w: Wrapping, D: nat, k: Key, id: TaskId)
    requires Inv(c.wheel) && Flagged(c, w) && Allowed(c, m, w) && Cooperative(c, m, w, D) && id in w
    requires Eligible(c.wheel, k, id) || Running(c.wheel, k, id)
    requires m.a != Suspend(k) && m.a != Cancel(k) && !(m.a == End(Finished) && c.wheel.pc.slot == k)
    ensures var t := Apply(c.wheel, m.a); Eligible(t, k, id) || Running(t, k, id)
  {
    var s, a := c.wheel, m.a;
    if s.pc.Inside? && s.pc.slot == k {
      if !a.End? {
        hide T.HeldBack;
        RunningStep(s, a, k, id);
      }
    } else if a.Begin? && s.pc.slot == k {
      assert Running(Apply(s, a), k, id);
    } else {
      hide T.HeldBack;
      EligibleStep(s, a, k, id);
    }
  }

  /** The entries that a move removes. */
  lemma StepEntries(c: Stack, m: Move, w: Wrapping)
    requires T.Valid(c.group) && Allowed(c, m, w)
    ensures var g := Advance(c, m, w).group; var s := c.wheel;
            && T.Valid(g) && T.Entries(g).Keys <= T.Entries(c.group).Keys
            && forall e :: Removes(c, m, w, e) ==> e !in T.Entries(g)
  {
    var ops, s := MoveOps(c, m, w), c.wheel;
    MoveIsShort(c, m, w);
    hide T.Valid, T.Run, T.Step, MoveOps, Apply;
    T.RunValid(c.group, ops);
    T.MovesShrink(c.group, ops);
    if m.a == End(Finished) && InWrapper(s, w) {
      var key := OwnEntry(s, w);
      T.RunTwo(c.group, T.Poll(key, m.d), T.Leave(key));
      T.LeaveEntries(T.Step(c.group, T.Poll(key, m.d)), key);
    } else if Sweeps(s, m.a, w) {
      var key := SweptEntry(s, m.a, w);
      T.RunOne(c.group, T.Leave(key));
      T.LeaveEntries(c.group, key);
    }
  }

  lemma MoveIsShort(c: Stack, m: Move, w: Wrapping)
    requires Allowed(c, m, w)
    ensures var ops := MoveOps(c, m, w); var s := c.wheel;
            && (forall i :: 0 <= i < |ops| ==> ops[i].Leave? || ops[i].Poll?)
            && (InWrapper(s, w) && m.a.End? ==> var key := OwnEntry(s, w);
                  && (m.a.outcome == Finished ==> ops == [T.Poll(key, m.d), T.Leave(key)])
                  && (m.a.outcome == Yielded ==> ops == [T.Poll(key, m.d)]))
            && (Sweeps(s, m.a, w) ==> ops == [T.Leave(SweptEntry(s, m.a, w))])
            && (!(InWrapper(s, w) && m.a.End?) && !Sweeps(s, m.a, w) ==> ops == [])
  {
  }

  lemma StepInvStack(c: Stack, m: Move, w: Wrapping, D: nat)
    requires StackInv(c, w) && Allowed(c, m, w) && Cooperative(c, m, w, D)
    ensures StackInv(Advance(c, m, w), w)
  {
    var n := Advance(c, m, w);
    StepInv(c.wheel, m.a);
    StepFlagged(c, m, w);
    StepEntries(c, m, w);
    forall e | e in T.Entries(n.group) ensures exists k :: Wraps(n.wheel, w, k, e) {
      var k :| Wraps(c.wheel, w, k, e);
      StepWraps(c, m, w, D, k, e);
    }
  }

  /** It holds of the empty wheel with the empty group... */
  lemma EmptyStack()
    ensures StackInv(Stack(INIT, T.EMPTY, false), map[])
  {
    InitInv();
    T.EmptyIsValid();
    assert forall e :: e !in T.Entries(T.EMPTY);
  }

  /** The wrapping with one more task; whoever had that key before is gone. */
  function Adopted(w: Wrapping, id: TaskId, e: nat): Wrapping { (map i | i in w && w[i] != e :: w[i])[id := e] }

  /** ...and whenever somebody joins the group and is spawned: between two polls of the wheel, or by a
      task outside the group. (A member that lets somebody join while it is polled itself changes its own
      group under its own measurement.) */
  lemma Adopts(c: Stack, w: Wrapping, key: Key, slots: nat) returns (e: nat, v: Wrapping)
    requires StackInv(c, w) && Enabled(c.wheel, Spawn(key, false)) && !InWrapper(c.wheel, w)
    requires c.group.info.len < SlabModel.USIZE.count && slots > 0
    ensures var d := Stack(Apply(c.wheel, Spawn(key, false)), T.Step(c.group, T.Join(slots)), c.woken);
            && StackInv(d, v)
            && T.Entries(d.group) == T.Entries(c.group)[e := T.TimeEntry(0, slots)] && Wraps(d.wheel, v, key, e)
  {
    e := T.JoinEntries(c.group, slots);
    v := Adopted(w, c.wheel.nextId, e);
    StepInv(c.wheel, Spawn(key, false));
    T.StepValid(c.group, T.Join(slots));
    SpawnFlagged(c, w, v, key, T.Step(c.group, T.Join(slots)));
    SpawnedWraps(c.wheel, v, key, e);
    AdoptManned(c, w, key, T.Step(c.group, T.Join(slots)), e);
    hide T.Valid, T.Step, T.Entries, Inv, Manned, Flagged, Wraps, Apply, Enabled;
  }

  lemma AdoptManned(c: Stack, w: Wrapping, key: Key, g: T.Group, e: nat)
    requires InRange(c.wheel) && Manned(c, w) && Enabled(c.wheel, Spawn(key, false))
    requires T.Entries(g).Keys == T.Entries(c.group).Keys + {e}
    ensures Manned(Stack(Apply(c.wheel, Spawn(key, false)), g, c.woken), Adopted(w, c.wheel.nextId, e))
  {
    var s, v := c.wheel, Adopted(w, c.wheel.nextId, e);
    var t := Apply(s, Spawn(key, false));
    SpawnedWraps(s, v, key, e);
    hide Apply, Wraps, T.Entries;
    forall f | f in T.Entries(g) ensures exists k :: Wraps(t, v, k, f) {
      if f != e {
        var k :| Wraps(s, w, k, f);
        SpawnWraps(s, w, v, key, k, f);
      }
    }
  }

  lemma SpawnedWraps(s: State, v: Wrapping, key: Key, e: nat)
    requires Enabled(s, Spawn(key, false)) && s.nextId in v && v[s.nextId] == e
    ensures Wraps(Apply(s, Spawn(key, false)), v, key, e)
  {
  }

  lemma SpawnFlagged(c: Stack, w: Wrapping, v: Wrapping, key: Key, g: T.Group)
    requires InRange(c.wheel) && Position(c.wheel) && Flagged(c, w) && Enabled(c.wheel, Spawn(key, false))
    requires forall i :: i in v ==> i in w || i == c.wheel.nextId
    ensures Flagged(Stack(Apply(c.wheel, Spawn(key, false)), g, c.woken), v)
  {
  }

  lemma SpawnWraps(s: State, w: Wrapping, v: Wrapping, key: Key, k: Key, f: nat)
    requires InRange(s) && Wraps(s, w, k, f) && Enabled(s, Spawn(key, false))
    requires forall i :: i in w && i != s.nextId && w[i] == f ==> i in v && v[i] == f
    ensures Wraps(Apply(s, Spawn(key, false)), v, k, f)
  {
  }

  // ---------------------------------------------------------------- every beat executes somebody

  /** Slot `k` is still to be visited before the beat ends, or its task is being polled, or the next beat
      has not started. */
  predicate Coming(s: State, k: Key) {
    || !InBeat(s.pc)
    || Next(s.pc) <= k < s.pc.limit
    || ((s.pc.Chosen? || s.pc.Inside?) && s.pc.slot == k)
  }

  /** A scan is about to start, or nobody is polling the wheel. */
  predicate AtStart(pc: Pc) { !InBeat(pc) || (pc.Beat? && pc.slot == 0 && !pc.polled) }

  lemma ComingAtStart(s: State, k: Key)
    requires Inv(s) && k in s.tasks && AtStart(s.pc)
    ensures Coming(s, k)
  {
  }

  /** Until then, the beat does not end. */
  lemma StepComing(s: State, a: Action, k: Key)
    requires InRange(s) && Position(s) && Enabled(s, a) && k in s.tasks && Coming(s, k)
    requires !(s.pc.Inside? && s.pc.slot == k && a.End?)
    requires a.Visit? && s.pc.slot == k ==> Is(s, k, NotStopped) && s.tasks[k].id in s.runnable
    ensures Coming(Apply(s, a), k) && !a.EndBeat?
  {
    if InBeat(s.pc) && a != End(Panicked) && a != EndBeat { BeatGoesOn(s, a); }
  }

  /** Somebody is executed, or the neediest member is swept. */
  ghost predicate Gaining(c: Stack, m: Move, w: Wrapping)
    requires Allowed(c, m, w)
  {
    || T.Executed(c.group, MoveOps(c, m, w)) > 0
    || (Sweeps(c.wheel, m.a, w) && T.IsLeast(c.group, SweptEntry(c.wheel, m.a, w)))
  }

  /** A move without gain leaves the neediest member the neediest... */
  lemma StepLeast(c: Stack, m: Move, w: Wrapping, D: nat, k: Key, e: nat)
    requires StackInv(c, w) && Allowed(c, m, w) && Cooperative(c, m, w, D)
    requires Wraps(c.wheel, w, k, e) && T.IsLeast(c.group, e) && !Gaining(c, m, w)
    ensures T.IsLeast(Advance(c, m, w).group, e) && !Removes(c, m, w, e)
    ensures !(c.wheel.pc.Inside? && c.wheel.pc.slot == k && m.a.End?)
  {
    var s := c.wheel;
    T.LeastMayRun(c.group, e);
    MoveIsShort(c, m, w);
    if InWrapper(s, w) && m.a.End? && m.a.outcome != Panicked {
      var key := OwnEntry(s, w);
      T.RunOne(c.group, T.Poll(key, m.d));
      T.RunTwo(c.group, T.Poll(key, m.d), T.Leave(key));
      assert T.HeldBack(c.group, key);
    } else if Sweeps(s, m.a, w) {
      SweepLeast(c, m, w, e);
    }
  }

  lemma SweepLeast(c: Stack, m: Move, w: Wrapping, e: nat)
    requires Allowed(c, m, w) && T.IsLeast(c.group, e)
    requires Sweeps(c.wheel, m.a, w) && SweptEntry(c.wheel, m.a, w) != e
    ensures T.IsLeast(Advance(c, m, w).group, e)
  {
    var other := SweptEntry(c.wheel, m.a, w);
    MoveIsShort(c, m, w);
    hide T.Valid, T.Step, T.Run, MoveOps, Apply, T.PerSlot;
    T.RunOne(c.group, T.Leave(other));
    T.LeaveEntries(c.group, other);
  }

  /** ...and its turn still to come. */
  lemma StepWaits(c: Stack, m: Move, w: Wrapping, D: nat, k: Key, e: nat)
    requires StackInv(c, w) && Allowed(c, m, w) && Cooperative(c, m, w, D)
    requires Wraps(c.wheel, w, k, e) && Coming(c.wheel, k) && T.IsLeast(c.group, e) && !Gaining(c, m, w)
    ensures var n := Advance(c, m, w); Wraps(n.wheel, w, k, e) && Coming(n.wheel, k) && T.IsLeast(n.group, e)
    ensures !m.a.EndBeat?
  {
    StepLeast(c, m, w, D, k, e);
    StepWraps(c, m, w, D, k, e);
    VisitChooses(c, m, w, k, e);
    hide T.Valid, Wraps, T.IsLeast, MoveOps, Apply, T.Run, Removes, Gaining, Allowed;
    StepComing(c.wheel, m.a, k);
  }

  lemma VisitChooses(c: Stack, m: Move, w: Wrapping, k: Key, e: nat)
    requires Allowed(c, m, w) && Wraps(c.wheel, w, k, e) && !Removes(c, m, w, e)
    ensures m.a.Visit? && c.wheel.pc.slot == k ==> Is(c.wheel, k, NotStopped) && c.wheel.tasks[k].id in c.wheel.runnable
    ensures Enabled(c.wheel, m.a) && k in c.wheel.tasks
  {
  }

  ghost function Gains(c: Stack, run: seq<Move>, w: Wrapping, D: nat): nat
    requires Cooperates(c, run, w, D)
    decreases |run|
  {
    if run == [] then 0
    else (if Gaining(c, run[0], w) then 1 else 0) + Gains(Advance(c, run[0], w), run[1..], w, D)
  }

  lemma UnfoldRun(c: Stack, run: seq<Move>, w: Wrapping, D: nat)
    requires Cooperates(c, run, w, D) && run != []
    ensures Allowed(c, run[0], w) && Cooperative(c, run[0], w, D)
    ensures var n := Advance(c, run[0], w);
            && Cooperates(n, run[1..], w, D) && After(n, run[1..], w, D) == After(c, run, w, D)
            && Gains(c, run, w, D) == (if Gaining(c, run[0], w) then 1 else 0) + Gains(n, run[1..], w, D)
            && Beats(Steps(run)) == (if run[0].a.EndBeat? then 1 else 0) + Beats(Steps(run[1..]))
  {
    hide Allowed, Cooperative, MoveOps, Apply, T.Run, Gaining;
    assert Steps(run)[0] == run[0].a && Steps(run)[1..] == Steps(run[1..]);
  }

  /** With the turn of the neediest member still to come, every beat that ends brings a gain... */
  lemma {:induction false} BeatsGain(c: Stack, run: seq<Move>, w: Wrapping, D: nat, k: Key, e: nat)
    requires StackInv(c, w) && Cooperates(c, run, w, D) && T.Entries(After(c, run, w, D).group) != map[]
    requires Wraps(c.wheel, w, k, e) && Coming(c.wheel, k) && T.IsLeast(c.group, e)
    ensures Gains(c, run, w, D) >= Beats(Steps(run))
    decreases |run|, 0
  {
    if run != [] {
      var n := Advance(c, run[0], w);
      UnfoldRun(c, run, w, D);
      StepInvStack(c, run[0], w, D);
      if Gaining(c, run[0], w) {
        GainsInBeat(c, run[0], w);
        hide *;
        SomeGain(n, run[1..], w, D);
      } else {
        StepWaits(c, run[0], w, D, k, e);
        hide *;
        BeatsGain(n, run[1..], w, D, k, e);
      }
    }
  }

  lemma GainsInBeat(c: Stack, m: Move, w: Wrapping)
    requires Allowed(c, m, w) && Gaining(c, m, w)
    ensures !m.a.EndBeat?
  {
    MoveIsShort(c, m, w);
  }

  /** ...and from any moment on, all but the first one do. */
  lemma {:induction false} SomeGain(c: Stack, run: seq<Move>, w: Wrapping, D: nat)
    requires StackInv(c, w) && Cooperates(c, run, w, D) && T.Entries(After(c, run, w, D).group) != map[]
    ensures Gains(c, run, w, D) + 1 >= Beats(Steps(run))
    decreases |run|, 0
  {
    if run != [] {
      var n := Advance(c, run[0], w);
      UnfoldRun(c, run, w, D);
      StepInvStack(c, run[0], w, D);
      hide *;
      if run[0].a.EndBeat? {
        EndBeatIsStart(c, run[0], w);
        StartGains(n, run[1..], w, D);
      } else {
        SomeGain(n, run[1..], w, D);
      }
    }
  }

  lemma EndBeatIsStart(c: Stack, m: Move, w: Wrapping)
    requires Allowed(c, m, w) && m.a.EndBeat?
    ensures AtStart(Advance(c, m, w).wheel.pc)
  {
  }

  /** From the start of a beat, every beat does. */
  lemma StartGains(c: Stack, run: seq<Move>, w: Wrapping, D: nat)
    requires StackInv(c, w) && Cooperates(c, run, w, D) && T.Entries(After(c, run, w, D).group) != map[]
    requires AtStart(c.wheel.pc)
    ensures Gains(c, run, w, D) >= Beats(Steps(run))
    decreases |run|, 1
  {
    GroupRuns(c, run, w, D);
    if T.Entries(c.group) == map[] {
      T.MovesShrink(c.group, Ops(c, run, w, D));
    } else {
      var e := T.Least(c.group);
      var k :| Wraps(c.wheel, w, k, e);
      ComingAtStart(c.wheel, k);
      BeatsGain(c, run, w, D, k, e);
    }
  }

  // ---------------------------------------------------------------- what a gain is worth

  /** Every gain is progress of the group. */
  lemma {:induction false} GainsAreProgress(c: Stack, run: seq<Move>, w: Wrapping, D: nat)
    requires Cooperates(c, run, w, D)
    ensures Gains(c, run, w, D) <= T.Progress(c.group, Ops(c, run, w, D))
    decreases |run|
  {
    if run != [] {
      var n, ops := Advance(c, run[0], w), MoveOps(c, run[0], w);
      GainsAreProgress(n, run[1..], w, D);
      GainIsProgress(c, run[0], w);
      hide Allowed, Cooperative, MoveOps, Apply, T.Run, T.Progress, Gaining;
      T.RunConcat(c.group, ops, Ops(n, run[1..], w, D));
    }
  }

  lemma GainIsProgress(c: Stack, m: Move, w: Wrapping)
    requires Allowed(c, m, w)
    ensures Gaining(c, m, w) ==> T.Progress(c.group, MoveOps(c, m, w)) > 0
  {
    T.ExecutedIsProgress(c.group, MoveOps(c, m, w));
    MoveIsShort(c, m, w);
    if Sweeps(c.wheel, m.a, w) {
      var op := T.Leave(SweptEntry(c.wheel, m.a, w));
      assert [op][0] == op;
    }
  }

  /** How many wrappers a run sweeps, and how many it cancels. */
  function Sweepings(c: Stack, run: seq<Move>, w: Wrapping, D: nat): nat
    requires Cooperates(c, run, w, D)
    decreases |run|
  {
    if run == [] then 0
    else (if Sweeps(c.wheel, run[0].a, w) then 1 else 0) + Sweepings(Advance(c, run[0], w), run[1..], w, D)
  }

  function Cancels(c: Stack, run: seq<Move>, w: Wrapping, D: nat): nat
    requires Cooperates(c, run, w, D)
    decreases |run|
  {
    if run == [] then 0
    else (if CancelsMember(c.wheel, run[0].a, w) then 1 else 0) + Cancels(Advance(c, run[0], w), run[1..], w, D)
  }

  predicate CancelsMember(s: State, a: Action, w: Wrapping) {
    a.Cancel? && a.key in s.tasks && s.tasks[a.key].reason != Cancelled && s.tasks[a.key].id in w
  }

  /** The wrappers that are cancelled and not yet swept. */
  function Doomed(s: State, w: Wrapping): set<Key> { set k | k in s.tasks && Is(s, k, Cancelled) && s.tasks[k].id in w }

  lemma {:induction false} GainsAreExecuted(c: Stack, run: seq<Move>, w: Wrapping, D: nat)
    requires Cooperates(c, run, w, D)
    ensures Gains(c, run, w, D) <= T.Executed(c.group, Ops(c, run, w, D)) + Sweepings(c, run, w, D)
    decreases |run|
  {
    if run != [] {
      var n, ops := Advance(c, run[0], w), MoveOps(c, run[0], w);
      GainsAreExecuted(n, run[1..], w, D);
      assert Gaining(c, run[0], w) ==> T.Executed(c.group, ops) > 0 || Sweeps(c.wheel, run[0].a, w);
      hide Allowed, Cooperative, MoveOps, Apply, T.Run, T.Executed, Gaining, Sweeps;
      T.RunConcat(c.group, ops, Ops(n, run[1..], w, D));
    }
  }

  lemma {:induction false} SweepsNeedCancels(c: Stack, run: seq<Move>, w: Wrapping, D: nat)
    requires Cooperates(c, run, w, D)
    ensures Sweepings(c, run, w, D) <= Cancels(c, run, w, D) + |Doomed(c.wheel, w)|
    decreases |run|
  {
    if run != [] {
      DoomedStep(c.wheel, run[0].a, w);
      hide Cooperative, MoveOps, Apply, T.Run, Sweeps, CancelsMember, Doomed;
      SweepsNeedCancels(Advance(c, run[0], w), run[1..], w, D);
    }
  }

  lemma DoomedStep(s: State, a: Action, w: Wrapping)
    requires Enabled(s, a)
    ensures |Doomed(Apply(s, a), w)| + (if Sweeps(s, a, w) then 1 else 0)
         <= |Doomed(s, w)| + (if CancelsMember(s, a, w) then 1 else 0)
  {
    var t := Apply(s, a);
    if Sweeps(s, a, w) {
      assert Doomed(t, w) == Doomed(s, w) - {s.pc.slot};
    } else if CancelsMember(s, a, w) {
      CancelDooms(s, a.key, w);
    } else {
      NobodyDoomed(s, a, w);
      SubsetSize(Doomed(t, w), Doomed(s, w));
    }
  }

  lemma CancelDooms(s: State, k: Key, w: Wrapping)
    requires Enabled(s, Cancel(k)) && CancelsMember(s, Cancel(k), w)
    ensures Doomed(Apply(s, Cancel(k)), w) == Doomed(s, w) + {k}
  {
  }

  lemma NobodyDoomed(s: State, a: Action, w: Wrapping)
    requires Enabled(s, a) && !CancelsMember(s, a, w)
    ensures Doomed(Apply(s, a), w) <= Doomed(s, w)
  {
    if IsCall(a) { CallDooms(s, a, w); }
    else if IsWake(a) { WakeFrame(s, a); }
    else if IsBook(a) { BookFrame(s, a); }
  }

  lemma CallDooms(s: State, a: Action, w: Wrapping)
    requires Enabled(s, a) && IsCall(a) && !CancelsMember(s, a, w)
    ensures Doomed(Apply(s, a), w) <= Doomed(s, w)
  {
  }

  lemma {:induction false} SubsetSize(a: set<Key>, b: set<Key>)
    requires a <= b
    ensures |a| <= |b|
  {
    if x :| x in a { SubsetSize(a - {x}, b - {x}); }
  }

  // ---------------------------------------------------------------- a beat is a round

  /** A member whose slot is still to be visited is polled exactly once in the beat, or is cancelled and
      out of the group at its end. */
  lemma {:induction false} TurnOrGone(c: Stack, run: seq<Move>, w: Wrapping, D: nat, k: Key, e: nat)
    requires StackInv(c, w) && Cooperates(c, run, w, D) && Legal(c.wheel, Steps(run)) && OneBeat(Steps(run))
    requires Wraps(c.wheel, w, k, e) && InBeat(c.wheel.pc) && Coming(c.wheel, k)
    requires !(c.wheel.pc.Inside? && c.wheel.pc.slot == k)
    requires var pc := After(c, run, w, D).wheel.pc; pc.Beat? && pc.slot >= pc.limit
    ensures PollCount(c.wheel, Steps(run), c.wheel.tasks[k].id) == 1 || e !in T.Entries(After(c, run, w, D).group)
    decreases |run|
  {
    if run != [] {
      var m := run[0];
      var n := Advance(c, m, w);
      assert Steps(run)[0] == m.a && Steps(run)[1..] == Steps(run[1..]) && m.a in Steps(run);
      UnfoldRun(c, run, w, D);
      StepInvStack(c, m, w, D);
      if m.a.Begin? && c.wheel.pc.slot == k {
        BegunOnce(c.wheel, Steps(run), k);
      } else if Removes(c, m, w, e) {
        StepEntries(c, m, w);
        GoneFromGroup(n, run[1..], w, D, e);
      } else {
        TurnStep(c, m, w, D, k, e);
        hide *;
        TurnOrGone(n, run[1..], w, D, k, e);
      }
    }
  }

  lemma TurnStep(c: Stack, m: Move, w: Wrapping, D: nat, k: Key, e: nat)
    requires StackInv(c, w) && Allowed(c, m, w) && Cooperative(c, m, w, D)
    requires Wraps(c.wheel, w, k, e) && InBeat(c.wheel.pc) && Coming(c.wheel, k) && !Removes(c, m, w, e)
    requires !(c.wheel.pc.Inside? && c.wheel.pc.slot == k) && !(m.a.Begin? && c.wheel.pc.slot == k)
    requires m.a != EndBeat && m.a != End(Panicked)
    ensures var t := Advance(c, m, w).wheel;
            && Wraps(t, w, k, e) && InBeat(t.pc) && Coming(t, k) && !(t.pc.Inside? && t.pc.slot == k)
            && t.tasks[k].id == c.wheel.tasks[k].id
    ensures m.a.Begin? && c.wheel.pc.slot in c.wheel.tasks ==>
              c.wheel.tasks[c.wheel.pc.slot].id != c.wheel.tasks[k].id
  {
    StepWraps(c, m, w, D, k, e);
    VisitChooses(c, m, w, k, e);
    hide T.Valid, Wraps, MoveOps, T.Run, Removes, Allowed;
    StepComing(c.wheel, m.a, k);
    BeatGoesOn(c.wheel, m.a);
  }

  lemma BegunOnce(s: State, run: seq<Action>, k: Key)
    requires Inv(s) && Legal(s, run) && OneBeat(run) && s.pc.Chosen? && s.pc.slot == k
    requires run != [] && run[0] == Begin
    ensures k in s.tasks && PollCount(s, run, s.tasks[k].id) == 1
  {
    DueBegins(s, k);
    StepInv(s, Begin);
    assert OneBeat(run[1..]);
    hide Inv;
    NotPolledAgain(Apply(s, Begin), run[1..], s.tasks[k].id);
  }

  lemma GoneFromGroup(c: Stack, run: seq<Move>, w: Wrapping, D: nat, e: nat)
    requires T.Valid(c.group) && Cooperates(c, run, w, D) && e !in T.Entries(c.group)
    ensures e !in T.Entries(After(c, run, w, D).group)
  {
    GroupRuns(c, run, w, D);
    T.MovesShrink(c.group, Ops(c, run, w, D));
  }

  /** In a full beat the wrapper of every member is polled exactly once, unless it is cancelled; then the
      member is out of the group when the beat ends. */
  lemma BeatIsRound(c: Stack, run: seq<Move>, w: Wrapping, D: nat, e: nat) returns (id: TaskId)
    requires StackInv(c, w) && Cooperates(c, run, w, D) && e in T.Entries(c.group)
    requires c.wheel.pc.Beat? && AtStart(c.wheel.pc) && OneBeat(Steps(run))
    requires var pc := After(c, run, w, D).wheel.pc; pc.Beat? && pc.slot >= pc.limit
    ensures id in w && w[id] == e && Legal(c.wheel, Steps(run))
    ensures PollCount(c.wheel, Steps(run), id) == 1 || e !in T.Entries(After(c, run, w, D).group)
  {
    var k :| Wraps(c.wheel, w, k, e);
    id := c.wheel.tasks[k].id;
    WheelRuns(c, run, w, D);
    ComingAtStart(c.wheel, k);
    TurnOrGone(c, run, w, D, k, e);
  }

  // ---------------------------------------------------------------- fairness

  /** However unbalanced the group was, for instance because a member just joined, and whatever else
      happens on the wheel (members finish or are cancelled, other tasks spawn, panic, sleep and wake, the
      wheel is polled again and again): as long as members are left, every beat executes one of them,
      less one beat for each member that is cancelled; and after more beats than the backlog, cancelled
      members or not, the wheel has made the group fair. If the run starts in the middle of a beat, that
      beat does not count. */
  lemma BeatsRestoreFairness(c: Stack, run: seq<Move>, w: Wrapping, D: nat)
    requires StackInv(c, w) && Cooperates(c, run, w, D)
    ensures var h := After(c, run, w, D).group; var first := if AtStart(c.wheel.pc) then 0 else 1;
            && (T.Entries(h) != map[] ==>
                  T.Executed(c.group, Ops(c, run, w, D)) + Cancels(c, run, w, D) + |Doomed(c.wheel, w)| + first
                  >= Beats(Steps(run)))
            && (Beats(Steps(run)) > T.Backlog(c.group.info.cells, T.MinBound(c.group.max)) + first ==>
                  T.Fair(h, D))
  {
    var h := After(c, run, w, D).group;
    GroupRuns(c, run, w, D);
    if T.Entries(h) != map[] {
      if AtStart(c.wheel.pc) { StartGains(c, run, w, D); } else { SomeGain(c, run, w, D); }
    }
    GainsAreExecuted(c, run, w, D);
    SweepsNeedCancels(c, run, w, D);
    GainsAreProgress(c, run, w, D);
    hide T.Valid, Inv;
    T.Recovers(c.group, Ops(c, run, w, D), D);
  }
}
