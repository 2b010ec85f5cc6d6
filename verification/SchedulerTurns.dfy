/**
 Whose turn it is: round robin, exactly one poll per beat, the finality of cancelling, and the
 bound on the beats of one `poll_internal`.
 */
module SchedulerTurns {
  import opened Options
  import opened Scheduler
  import opened SchedulerSafety

  predicate InBeat(pc: Pc) { pc.Beat? || pc.Chosen? || pc.Inside? }

  /** The slot that the scan looks at next. */
  function Next(pc: Pc): nat
    requires InBeat(pc)
  {
    if pc.Beat? then pc.slot else pc.slot + 1
  }

  /** How often a run looks at slot `j`. */
  function VisitCount(s: State, run: seq<Action>, j: nat): nat
    requires Legal(s, run)
    decreases |run|
  {
    if run == [] then 0
    else (if run[0].Visit? && s.pc.slot == j then 1 else 0) + VisitCount(Apply(s, run[0]), run[1..], j)
  }

  /** How often a run polls the task `id`. */
  function PollCount(s: State, run: seq<Action>, id: TaskId): nat
    requires Legal(s, run)
    decreases |run|
  {
    if run == [] then 0
    else
      (if run[0].Begin? && s.pc.slot in s.tasks && s.tasks[s.pc.slot].id == id then 1 else 0)
      + PollCount(Apply(s, run[0]), run[1..], id)
  }

  /** How many polls of a run panic. */
  function Panics(run: seq<Action>): nat {
    if run == [] then 0 else (if run[0] == End(Panicked) then 1 else 0) + Panics(run[1..])
  }

  // ---------------------------------------------------------------- round robin

  /** How often slot `j` may still be looked at before slot `k` is. */
  function Allowance(pc: Pc, k: nat, j: nat): nat {
    if !InBeat(pc) then if j < k then 1 else 0
    else if Next(pc) > k then if j >= Next(pc) || j < k then 1 else 0
    else if Next(pc) <= j < k then 1 else 0
  }

  lemma AllowanceStep(s: State, a: Action, k: nat, j: nat)
    requires Enabled(s, a) && k < s.capacity && j != k
    requires InBeat(s.pc) ==> Next(s.pc) > k || k < s.pc.limit
    requires a.Visit? ==> s.pc.slot != k
    ensures var t := Apply(s, a);
            && k < t.capacity
            && (InBeat(t.pc) ==> Next(t.pc) > k || k < t.pc.limit)
            && (if a.Visit? && s.pc.slot == j then 1 else 0) + Allowance(t.pc, k, j)
               <= Allowance(s.pc, k, j) + if a == End(Panicked) then 1 else 0
  {
    StepFollows(s, a);
    if a == End(Panicked) { assert !InBeat(Apply(s, a).pc); hide Apply; }
    else if InBeat(s.pc) && a != EndBeat { BeatGoesOn(s, a); hide Apply; }
    else if IsCall(a) { assert !InBeat(Apply(s, a).pc); hide Apply; }
    else if IsWake(a) { WakeFrame(s, a); hide Apply; }
  }

  lemma {:induction false} Bypass(s: State, run: seq<Action>, k: nat, j: nat)
    requires Legal(s, run) && k < s.capacity && j != k
    requires InBeat(s.pc) ==> Next(s.pc) > k || k < s.pc.limit
    requires VisitCount(s, run, k) == 0
    ensures VisitCount(s, run, j) <= Allowance(s.pc, k, j) + Panics(run)
    decreases |run|
  {
    if run != [] {
      AllowanceStep(s, run[0], k, j);
      hide Apply;
      hide Allowance;
      Bypass(Apply(s, run[0]), run[1..], k, j);
    }
  }

  /** Bounded bypass: from one visit of a slot until the next one, no slot is visited twice, however
      tasks finish, free their slots and spawn others into them, and across polls of the wheel. A
      poll that panics ends its beat early, and costs one more visit. */
  lemma RoundRobin(s: State, run: seq<Action>, j: nat)
    requires Position(s) && Legal(s, run)
    requires run != [] && run[0] == Visit
    requires VisitCount(Apply(s, Visit), run[1..], s.pc.slot) == 0
    ensures VisitCount(s, run, j) <= 1 + Panics(run)
  {
    var k := s.pc.slot;
    if j != k {
      AfterVisit(s);
      Bypass(Apply(s, Visit), run[1..], k, j);
    }
  }

  lemma AfterVisit(s: State)
    requires Position(s) && Enabled(s, Visit)
    ensures var t := Apply(s, Visit); InBeat(t.pc) && Next(t.pc) == s.pc.slot + 1 && s.pc.slot < t.capacity
  {
  }

  // ---------------------------------------------------------------- tasks that are gone

  /** `id` has been a task and is one no longer. */
  ghost predicate Gone(s: State, id: TaskId) {
    id < s.nextId && forall k :: k in s.tasks ==> s.tasks[k].id != id
  }

  lemma GoneStays(s: State, a: Action, id: TaskId)
    requires Enabled(s, a) && Gone(s, id)
    ensures Gone(Apply(s, a), id)
  {
    StepFollows(s, a);
    hide Apply;
  }

  lemma {:induction false} GoneForever(s: State, run: seq<Action>, id: TaskId)
    requires Legal(s, run) && Gone(s, id)
    ensures Gone(Run(s, run), id) && PollCount(s, run, id) == 0
    decreases |run|
  {
    if run != [] {
      GoneStays(s, run[0], id);
      hide Apply;
      GoneForever(Apply(s, run[0]), run[1..], id);
    }
  }

  // ---------------------------------------------------------------- cancelling is final

  lemma CancelledStays(s: State, a: Action, k: Key)
    requires Distinct(s) && InRange(s) && Position(s) && Is(s, k, Cancelled) && Enabled(s, a)
    ensures var t := Apply(s, a);
            || (k in t.tasks && t.tasks[k] == s.tasks[k])
            || Gone(t, s.tasks[k].id)
  {
    if IsCall(a) { CancelledCall(s, a, k); }
    else if IsWake(a) { WakeFrame(s, a); }
    else if IsBook(a) { BookFrame(s, a); }
    else { CancelledScan(s, a, k); }
    hide Apply;
  }

  lemma CancelledCall(s: State, a: Action, k: Key)
    requires Is(s, k, Cancelled) && Enabled(s, a) && IsCall(a)
    ensures k in Apply(s, a).tasks && Apply(s, a).tasks[k] == s.tasks[k]
  {
  }

  lemma CancelledScan(s: State, a: Action, k: Key)
    requires Distinct(s) && InRange(s) && Is(s, k, Cancelled) && Enabled(s, a) && (a.Visit? || a.End?)
    ensures var t := Apply(s, a);
            (k in t.tasks && t.tasks[k] == s.tasks[k]) || Gone(t, s.tasks[k].id)
  {
  }

  /** Once cancelled, a task is never polled again: it keeps its key and its state, whatever handle
      calls follow, until it is gone for good. */
  lemma {:induction false} CancelIsFinal(s: State, run: seq<Action>, k: Key)
    requires Inv(s) && Legal(s, run) && Is(s, k, Cancelled)
    ensures var t := Run(s, run);
            && PollCount(s, run, s.tasks[k].id) == 0
            && ((k in t.tasks && t.tasks[k] == s.tasks[k]) || Gone(t, s.tasks[k].id))
    decreases |run|
  {
    if run != [] {
      var t := Apply(s, run[0]);
      CancelledStays(s, run[0], k);
      StepInv(s, run[0]);
      if run[0].Begin? { NotBegun(s, run[0], k); }
      hide Apply;
      hide Heard;
      if k in t.tasks && t.tasks[k] == s.tasks[k] {
        CancelIsFinal(t, run[1..], k);
      } else {
        GoneForever(t, run[1..], s.tasks[k].id);
      }
    }
  }

  lemma NotBegun(s: State, a: Action, k: Key)
    requires Distinct(s) && Position(s) && Is(s, k, Cancelled) && Enabled(s, a) && a.Begin?
    ensures s.pc.slot in s.tasks && s.tasks[s.pc.slot].id != s.tasks[k].id
  {
  }

  // ---------------------------------------------------------------- one beat

  /** The run stays inside one beat. */
  predicate OneBeat(run: seq<Action>) { EndBeat !in run && End(Panicked) !in run }

  lemma BeatGoesOn(s: State, a: Action)
    requires InBeat(s.pc) && Enabled(s, a) && a != EndBeat && a != End(Panicked)
    ensures var t := Apply(s, a);
            && InBeat(t.pc) && t.pc.limit == s.pc.limit
            && Next(t.pc) == (if a.Visit? then Next(s.pc) + 1 else Next(s.pc))
            && (t.pc.Chosen? && !s.pc.Chosen? ==> a.Visit? && t.pc.slot == s.pc.slot)
  {
  }

  lemma VisitSweeps(s: State)
    requires Distinct(s) && InRange(s) && Enabled(s, Visit) && Is(s, s.pc.slot, Cancelled)
    ensures Gone(Apply(s, Visit), s.tasks[s.pc.slot].id)
  {
  }

  /** A cancelled task is gone as soon as the scan has passed its slot, hence by the end of the
      next full beat. */
  lemma {:induction false} CancelledIsSwept(s: State, run: seq<Action>, k: Key)
    requires Inv(s) && Legal(s, run) && OneBeat(run) && Is(s, k, Cancelled)
    requires InBeat(s.pc) && Next(s.pc) <= k
    requires InBeat(Run(s, run).pc) && Next(Run(s, run).pc) > k
    ensures Gone(Run(s, run), s.tasks[k].id)
    decreases |run|
  {
    hide Heard;
    if run != [] {
      var t := Apply(s, run[0]);
      assert run[0] in run;
      BeatGoesOn(s, run[0]);
      if run[0].Visit? && s.pc.slot == k {
        VisitSweeps(s);
        GoneForever(t, run[1..], s.tasks[k].id);
      } else {
        CancelledStays(s, run[0], k);
        StepInv(s, run[0]);
        hide Apply;
        if k in t.tasks && t.tasks[k] == s.tasks[k] {
          CancelledIsSwept(t, run[1..], k);
        } else {
          GoneForever(t, run[1..], s.tasks[k].id);
        }
      }
    }
  }

  /** The scan has passed `id`: no slot from here on holds it, and it is not about to be polled. */
  ghost predicate Behind(s: State, id: TaskId) {
    && InBeat(s.pc) && id < s.nextId
    && (forall k :: k in s.tasks && s.tasks[k].id == id ==> k < Next(s.pc))
    && (s.pc.Chosen? && s.pc.slot in s.tasks ==> s.tasks[s.pc.slot].id != id)
  }

  lemma BehindStays(s: State, a: Action, id: TaskId)
    requires InRange(s) && Position(s) && Behind(s, id) && Enabled(s, a) && a != EndBeat && a != End(Panicked)
    ensures Behind(Apply(s, a), id)
  {
    StepFollows(s, a);
    BeatGoesOn(s, a);
    hide Apply;
  }

  lemma {:induction false} NotPolledAgain(s: State, run: seq<Action>, id: TaskId)
    requires Inv(s) && Behind(s, id) && Legal(s, run) && OneBeat(run)
    ensures PollCount(s, run, id) == 0
    decreases |run|
  {
    hide Heard;
    if run != [] {
      assert run[0] in run;
      BehindStays(s, run[0], id);
      StepInv(s, run[0]);
      hide Apply;
      NotPolledAgain(Apply(s, run[0]), run[1..], id);
    }
  }

  /** Task `k` may run, is runnable, and its turn is still to come in this beat. */
  ghost predicate Due(s: State, k: Key) {
    && InBeat(s.pc) && Is(s, k, NotStopped)
    && ((Next(s.pc) <= k < s.pc.limit && s.tasks[k].id in s.runnable)
        || (s.pc.Chosen? && s.pc.slot == k))
  }

  /** Until the scan reaches slot `k`, nobody suspends or cancels its task. */
  predicate Untouched(s: State, run: seq<Action>, k: Key)
    requires Legal(s, run)
    decreases |run|
  {
    run == [] || (InBeat(s.pc) && Next(s.pc) > k) ||
    (run[0] != Suspend(k) && run[0] != Cancel(k) && Untouched(Apply(s, run[0]), run[1..], k))
  }

  lemma DueStep(s: State, a: Action, k: Key)
    requires Distinct(s) && InRange(s) && Position(s) && Due(s, k) && Enabled(s, a)
    requires a != EndBeat && a != End(Panicked) && !(a.Begin? && s.pc.slot == k)
    requires Next(s.pc) <= k ==> a != Suspend(k) && a != Cancel(k)
    ensures Due(Apply(s, a), k) && Apply(s, a).tasks[k].id == s.tasks[k].id
    ensures a.Begin? ==> s.pc.slot in s.tasks && s.tasks[s.pc.slot].id != s.tasks[k].id
  {
    if IsCall(a) { DueCall(s, a, k); }
    else if IsWake(a) { DueWake(s, a, k); }
    else { DueScan(s, a, k); }
  }

  lemma DueCall(s: State, a: Action, k: Key)
    requires Due(s, k) && Enabled(s, a) && IsCall(a)
    requires Next(s.pc) <= k ==> a != Suspend(k) && a != Cancel(k)
    ensures Due(Apply(s, a), k) && Apply(s, a).tasks[k].id == s.tasks[k].id
  {
  }

  lemma DueWake(s: State, a: Action, k: Key)
    requires Due(s, k) && Enabled(s, a) && IsWake(a)
    ensures Due(Apply(s, a), k) && Apply(s, a).tasks[k].id == s.tasks[k].id
  {
  }

  lemma DueScan(s: State, a: Action, k: Key)
    requires Distinct(s) && Position(s) && Due(s, k) && Enabled(s, a) && !IsCall(a) && !IsWake(a)
    requires a != EndBeat && a != End(Panicked) && !(a.Begin? && s.pc.slot == k)
    ensures Due(Apply(s, a), k) && Apply(s, a).tasks[k].id == s.tasks[k].id
    ensures a.Begin? ==> s.pc.slot in s.tasks && s.tasks[s.pc.slot].id != s.tasks[k].id
  {
  }

  lemma DueBegins(s: State, k: Key)
    requires Distinct(s) && InRange(s) && Position(s) && Due(s, k) && s.pc.Chosen? && s.pc.slot == k
    ensures Behind(Apply(s, Begin), s.tasks[k].id)
  {
  }

  /** A task that may run and is runnable when its turn is still to come, and that nobody suspends
      or cancels before its turn, is polled exactly once before the beat is over. */
  lemma {:induction false} PolledExactlyOnce(s: State, run: seq<Action>, k: Key)
    requires Inv(s) && Legal(s, run) && OneBeat(run) && Due(s, k) && Untouched(s, run, k)
    requires var pc := Run(s, run).pc; pc.Beat? && pc.slot >= pc.limit
    ensures PollCount(s, run, s.tasks[k].id) == 1
    decreases |run|
  {
    hide Heard;
    if run != [] {
      var t := Apply(s, run[0]);
      assert run[0] in run;
      StepInv(s, run[0]);
      if run[0].Begin? && s.pc.slot == k {
        DueBegins(s, k);
        NotPolledAgain(t, run[1..], s.tasks[k].id);
      } else {
        DueStep(s, run[0], k);
        UntouchedTail(s, run, k);
        PolledExactlyOnce(t, run[1..], k);
      }
    }
  }

  lemma UntouchedTail(s: State, run: seq<Action>, k: Key)
    requires Legal(s, run) && run != [] && run[0] != EndBeat && run[0] != End(Panicked)
    requires InBeat(s.pc) && Untouched(s, run, k)
    ensures Untouched(Apply(s, run[0]), run[1..], k)
  {
    BeatGoesOn(s, run[0]);
  }

  // ---------------------------------------------------------------- a task that wakes itself

  /** The task `id` sits in slot `k`, may run, and its flag is set. */
  ghost predicate Eligible(s: State, k: Key, id: TaskId) {
    Is(s, k, NotStopped) && s.tasks[k].id == id && id in s.runnable
  }

  /** The step neither stops the task in slot `k`, nor begins its poll, nor finishes it. */
  predicate LeavesAlone(s: State, a: Action, k: Key)
    requires Enabled(s, a)
  {
    && a != Suspend(k) && a != Cancel(k)
    && !(a.Begin? && s.pc.slot == k) && !(a == End(Finished) && s.pc.slot == k)
  }

  lemma EligibleStep(s: State, a: Action, k: Key, id: TaskId)
    requires Distinct(s) && Eligible(s, k, id) && Enabled(s, a) && LeavesAlone(s, a, k)
    ensures Eligible(Apply(s, a), k, id)
  {
    if IsWake(a) { WakeEligible(s, a, k, id); }
    else if IsCall(a) { CallEligible(s, a, k, id); }
    else { ScanEligible(s, a, k, id); }
  }

  lemma WakeEligible(s: State, a: Action, k: Key, id: TaskId)
    requires Eligible(s, k, id) && Enabled(s, a) && IsWake(a)
    ensures Eligible(Apply(s, a), k, id)
  {
  }

  lemma CallEligible(s: State, a: Action, k: Key, id: TaskId)
    requires Eligible(s, k, id) && Enabled(s, a) && IsCall(a) && a != Suspend(k) && a != Cancel(k)
    ensures Eligible(Apply(s, a), k, id)
  {
  }

  lemma ScanEligible(s: State, a: Action, k: Key, id: TaskId)
    requires Distinct(s) && Eligible(s, k, id) && Enabled(s, a) && !IsWake(a) && !IsCall(a) && LeavesAlone(s, a, k)
    ensures Eligible(Apply(s, a), k, id)
  {
  }

  /** User code of the task in slot `k` is running, and nobody has stopped the task. */
  ghost predicate Running(s: State, k: Key, id: TaskId) {
    s.pc.Inside? && s.pc.slot == k && Is(s, k, NotStopped) && s.tasks[k].id == id
  }

  lemma RunningStep(s: State, a: Action, k: Key, id: TaskId)
    requires Running(s, k, id) && Enabled(s, a) && !a.End? && a != Suspend(k) && a != Cancel(k)
    ensures Running(Apply(s, a), k, id)
    ensures id in s.runnable || (a.Store? && s.wakes[a.w].id == id) ==> id in Apply(s, a).runnable
  {
  }

  /** A flag that is set while user code runs is still set when it ends. */
  lemma {:induction false} WokenInside(s: State, inner: seq<Action>, k: Key, id: TaskId)
    requires Running(s, k, id) && Legal(s, inner) && forall i :: 0 <= i < |inner| ==> !inner[i].End?
    requires Suspend(k) !in inner && Cancel(k) !in inner
    ensures Running(Run(s, inner), k, id)
    ensures id in s.runnable || WakeCount(s, inner, id) >= 1 ==> id in Run(s, inner).runnable
    decreases |inner|
  {
    if inner != [] {
      assert inner[0] in inner;
      RunningStep(s, inner[0], k, id);
      hide Apply, Running;
      WokenInside(Apply(s, inner[0]), inner[1..], k, id);
    }
  }

  lemma {:induction false} EligibleStays(s: State, run: seq<Action>, k: Key, id: TaskId)
    requires Inv(s) && Eligible(s, k, id) && !(s.pc.Inside? && s.pc.slot == k) && Legal(s, run)
    requires PollCount(s, run, id) == 0 && Suspend(k) !in run && Cancel(k) !in run
    ensures Inv(Run(s, run)) && Eligible(Run(s, run), k, id)
    decreases |run|
  {
    if run != [] {
      var t := Apply(s, run[0]);
      assert run[0] in run;
      EligibleStep(s, run[0], k, id);
      StepInv(s, run[0]);
      assert !(t.pc.Inside? && t.pc.slot == k);
      hide Apply, Inv, Eligible;
      EligibleStays(t, run[1..], k, id);
    }
  }

  /** A task that is woken while it is polled (its wake's last step falls between `Begin` and `End`),
      that yields, and that nobody suspends or cancels, has its turn in the next beat: whenever a scan
      starts and the task has not been polled again, it is due. */
  lemma SelfWakeIsDue(s: State, inner: seq<Action>, rest: seq<Action>, k: Key)
    requires Inv(s) && s.pc.Chosen? && s.pc.slot == k && k in s.tasks
    requires Legal(Apply(s, Begin), inner) && forall i :: 0 <= i < |inner| ==> !inner[i].End?
    requires WakeCount(Apply(s, Begin), inner, s.tasks[k].id) >= 1
    requires var i := Run(Apply(s, Begin), inner);
             && Enabled(i, End(Yielded)) && Legal(Apply(i, End(Yielded)), rest)
             && PollCount(Apply(i, End(Yielded)), rest, s.tasks[k].id) == 0
             && var pc := Run(Apply(i, End(Yielded)), rest).pc; pc.Beat? && pc.slot == 0 && !pc.polled
    requires Suspend(k) !in inner + rest && Cancel(k) !in inner + rest
    ensures var t := Run(Apply(Run(Apply(s, Begin), inner), End(Yielded)), rest);
            Due(t, k) && t.tasks[k].id == s.tasks[k].id
  {
    var id := s.tasks[k].id;
    var b := Apply(s, Begin);
    assert Running(b, k, id);
    WokenInside(b, inner, k, id);
    var i := Run(b, inner);
    StepInv(s, Begin);
    RunInv(b, inner);
    StepInv(i, End(Yielded));
    var e := Apply(i, End(Yielded));
    assert Eligible(e, k, id);
    EligibleStays(e, rest, k, id);
    EligibleIsDue(Run(e, rest), k, id);
  }

  lemma EligibleIsDue(s: State, k: Key, id: TaskId)
    requires Inv(s) && Eligible(s, k, id) && s.pc.Beat? && s.pc.slot == 0 && !s.pc.polled
    ensures Due(s, k)
  {
  }

  // ---------------------------------------------------------------- termination

  function Polls(run: seq<Action>): nat {
    if run == [] then 0 else (if run[0].Begin? then 1 else 0) + Polls(run[1..])
  }

  function Beats(run: seq<Action>): nat {
    if run == [] then 0 else (if run[0].EndBeat? then 1 else 0) + Beats(run[1..])
  }

  /** The run stays inside one `poll_internal`. */
  predicate StaysInside(s: State, run: seq<Action>)
    requires Legal(s, run)
    decreases |run|
  {
    InBeat(s.pc) && (run == [] || StaysInside(Apply(s, run[0]), run[1..]))
  }

  /** Beats that can still end without another poll. */
  function Slack(pc: Pc): nat {
    match pc
    case Beat(second, _, _, polled) => if polled then 2 else if second then 0 else 1
    case Inside(_, _, _) => 2
    case _ => 0
  }

  lemma SlackStep(s: State, a: Action)
    requires Enabled(s, a) && InBeat(s.pc) && InBeat(Apply(s, a).pc)
    ensures (if a.EndBeat? then 1 else 0) + Slack(Apply(s, a).pc) <= (if a.Begin? then 2 else 0) + Slack(s.pc)
  {
  }

  /** Every pass of the loop in `poll_internal` that does not return polled somebody: `p` polls pay
      for at most `2 * p + 1` completed beats. */
  lemma {:induction false} BeatsNeedPolls(s: State, run: seq<Action>)
    requires Legal(s, run) && StaysInside(s, run)
    ensures Beats(run) <= 2 * Polls(run) + Slack(s.pc)
    decreases |run|
  {
    if run != [] {
      SlackStep(s, run[0]);
      hide Apply;
      BeatsNeedPolls(Apply(s, run[0]), run[1..]);
    }
  }

  /** How many polls each task still needs; a task that is not listed needs none. */
  type Needs = map<TaskId, nat>

  function Need(needs: Needs, id: TaskId): nat { if id in needs then needs[id] else 0 }

  function NeedBelow(tasks: map<Key, Task>, needs: Needs, n: nat): nat {
    if n == 0 then 0
    else NeedBelow(tasks, needs, n - 1) + if n - 1 in tasks then Need(needs, tasks[n - 1].id) else 0
  }

  /** What all live tasks need together. */
  function Remaining(s: State, needs: Needs): nat { NeedBelow(s.tasks, needs, s.capacity) }

  lemma {:induction false} FewerNeed(was: map<Key, Task>, tasks: map<Key, Task>, needs: Needs, n: nat)
    requires forall k :: k in tasks ==> k in was && tasks[k].id == was[k].id
    ensures NeedBelow(tasks, needs, n) <= NeedBelow(was, needs, n)
  {
    if n > 0 { FewerNeed(was, tasks, needs, n - 1); }
  }

  /** Visits, sweeps, wakes and the ends of beats never raise what the live tasks need. */
  lemma OutsidePolls(s: State, a: Action, needs: Needs)
    requires Enabled(s, a) && InBeat(s.pc) && !s.pc.Inside?
    ensures Remaining(Apply(s, a), needs) <= Remaining(s, needs)
  {
    var t := Apply(s, a);
    assert t.capacity == s.capacity;
    if IsWake(a) { WakeFrame(s, a); }
    FewerNeed(s.tasks, t.tasks, needs, s.capacity);
  }

  /** `ledger[i]` is what the tasks need before step `i`. It changes only while user code runs, and
      each poll, together with the tasks it spawns and whatever else it does, has lowered what the live
      tasks need when it ends: below `due`, what they needed when it began. */
  ghost predicate Pays(s: State, run: seq<Action>, ledger: seq<Needs>, due: nat)
    requires Legal(s, run)
    decreases |run|
  {
    |ledger| == |run| + 1 &&
    (run == [] ||
     var t := Apply(s, run[0]);
     && (!s.pc.Inside? ==> ledger[1] == ledger[0])
     && (run[0].End? ==> Remaining(t, ledger[1]) < due)
     && Pays(t, run[1..], ledger[1..], if run[0].Begin? then Remaining(s, ledger[0]) else due))
  }

  /** How many polls of a run have ended. */
  function Ends(run: seq<Action>): nat {
    if run == [] then 0 else (if run[0].End? then 1 else 0) + Ends(run[1..])
  }

  /** Each poll is paid for out of what the live tasks needed at first. */
  lemma {:induction false} PollsArePaid(s: State, run: seq<Action>, ledger: seq<Needs>, due: nat)
    requires Legal(s, run) && StaysInside(s, run) && Pays(s, run, ledger, due)
    ensures Ends(run) <= if s.pc.Inside? then due else Remaining(s, ledger[0])
    decreases |run|
  {
    if run != [] {
      var t := Apply(s, run[0]);
      if !s.pc.Inside? { OutsidePolls(s, run[0], ledger[0]); }
      InsideStep(s, run[0]);
      hide Apply, Remaining;
      PollsArePaid(t, run[1..], ledger[1..], if run[0].Begin? then Remaining(s, ledger[0]) else due);
    }
  }

  lemma InsideStep(s: State, a: Action)
    requires Enabled(s, a) && InBeat(s.pc) && InBeat(Apply(s, a).pc)
    ensures a.End? ==> s.pc.Inside? && !Apply(s, a).pc.Inside?
    ensures a.Begin? ==> !s.pc.Inside? && Apply(s, a).pc.Inside?
    ensures !a.Begin? && !a.End? ==> Apply(s, a).pc.Inside? == s.pc.Inside?
  {
  }

  /** Beats that can still end without another poll ending. */
  function EndSlack(pc: Pc): nat {
    match pc
    case Beat(second, _, _, polled) => if polled then 2 else if second then 0 else 1
    case _ => 0
  }

  lemma EndSlackStep(s: State, a: Action)
    requires Enabled(s, a) && InBeat(s.pc) && InBeat(Apply(s, a).pc)
    ensures (if a.EndBeat? then 1 else 0) + EndSlack(Apply(s, a).pc) <= (if a.End? then 2 else 0) + EndSlack(s.pc)
  {
  }

  lemma {:induction false} BeatsNeedEnds(s: State, run: seq<Action>)
    requires Legal(s, run) && StaysInside(s, run)
    ensures Beats(run) <= 2 * Ends(run) + EndSlack(s.pc)
    decreases |run|
  {
    if run != [] {
      EndSlackStep(s, run[0]);
      hide Apply;
      BeatsNeedEnds(Apply(s, run[0]), run[1..]);
    }
  }

  /** Hence `poll_internal` returns: if every poll lowers what the live tasks need, it polls at most as
      often as they needed when it was called, and nobody stays inside it for more than twice as many
      beats, and one. */
  lemma PollReturns(s: State, run: seq<Action>, ledger: seq<Needs>)
    requires (s.pc.Outside? || s.pc.Returned?) && Legal(Apply(s, Enter), run)
    requires Pays(Apply(s, Enter), run, ledger, 0)
    ensures StaysInside(Apply(s, Enter), run) ==>
              Ends(run) <= Remaining(s, ledger[0]) && Beats(run) <= 2 * Remaining(s, ledger[0]) + 1
  {
    var t := Apply(s, Enter);
    assert Remaining(t, ledger[0]) == Remaining(s, ledger[0]);
    if StaysInside(t, run) {
      PollsArePaid(t, run, ledger, 0);
      BeatsNeedEnds(t, run);
    }
  }

  // ---------------------------------------------------------------- polls are paid for by wakes

  /** How often a run sets the flag of task `id`. */
  function WakeCount(s: State, run: seq<Action>, id: TaskId): nat
    requires Legal(s, run)
    decreases |run|
  {
    if run == [] then 0
    else
      (if run[0].Store? && s.wakes[run[0].w].id == id then 1 else 0) + WakeCount(Apply(s, run[0]), run[1..], id)
  }

  function Flag(s: State, id: TaskId): nat { if id in s.runnable then 1 else 0 }

  lemma FlagStep(s: State, a: Action, id: TaskId)
    requires Position(s) && Enabled(s, a) && id < s.nextId
    ensures (if a.Begin? && s.pc.slot in s.tasks && s.tasks[s.pc.slot].id == id then 1 else 0) + Flag(Apply(s, a), id)
         <= (if a.Store? && s.wakes[a.w].id == id then 1 else 0) + Flag(s, id)
  {
  }

  /** A task is polled at most once for each time its flag was set, and once for the flag it had:
      the scheduler never polls a waiting task. */
  lemma {:induction false} PollsNeedWakes(s: State, run: seq<Action>, id: TaskId)
    requires Inv(s) && Legal(s, run) && id < s.nextId
    ensures PollCount(s, run, id) + Flag(Run(s, run), id) <= WakeCount(s, run, id) + Flag(s, id)
    decreases |run|
  {
    hide Heard, Shape, Counted, Swept;
    if run != [] {
      FlagStep(s, run[0], id);
      StepFollows(s, run[0]);
      StepInv(s, run[0]);
      hide Apply, Flag, Position;
      PollsNeedWakes(Apply(s, run[0]), run[1..], id);
    }
  }

  // ---------------------------------------------------------------- finished, suspended, spawned

  /** A task that returned Ready is gone, and is never polled again. */
  lemma FinishedIsFinal(s: State, run: seq<Action>)
    requires Inv(s) && s.pc.Inside? && Legal(Apply(s, End(Finished)), run)
    ensures s.pc.slot in s.tasks
    ensures var t := Apply(s, End(Finished)); var id := s.tasks[s.pc.slot].id;
            PollCount(t, run, id) == 0 && Gone(Run(t, run), id)
  {
    var id := s.tasks[s.pc.slot].id;
    assert Gone(Apply(s, End(Finished)), id);
    GoneForever(Apply(s, End(Finished)), run, id);
  }

  /** The task is still there and suspended, or cancelled, or gone. */
  ghost predicate StillStopped(s: State, t: State, k: Key)
    requires k in s.tasks
  {
    || ((Is(t, k, Suspended) || Is(t, k, Cancelled)) && t.tasks[k].id == s.tasks[k].id)
    || Gone(t, s.tasks[k].id)
  }

  lemma SuspendedCall(s: State, a: Action, k: Key)
    requires Is(s, k, Suspended) && Enabled(s, a) && IsCall(a) && a != Resume(k)
    ensures StillStopped(s, Apply(s, a), k)
  {
  }

  lemma SuspendedScan(s: State, a: Action, k: Key)
    requires Distinct(s) && InRange(s) && Is(s, k, Suspended) && Enabled(s, a) && (a.Visit? || a.End?)
    ensures StillStopped(s, Apply(s, a), k)
  {
  }

  lemma SuspendedStays(s: State, a: Action, k: Key)
    requires Distinct(s) && InRange(s) && Position(s) && Is(s, k, Suspended) && Enabled(s, a) && a != Resume(k)
    ensures StillStopped(s, Apply(s, a), k)
    ensures a.Begin? ==> s.pc.slot in s.tasks && s.tasks[s.pc.slot].id != s.tasks[k].id
  {
    if IsCall(a) { SuspendedCall(s, a, k); }
    else if IsWake(a) { WakeFrame(s, a); }
    else if IsBook(a) { BookFrame(s, a); }
    else { SuspendedScan(s, a, k); }
    hide Apply;
  }

  /** A suspended task is not polled before it is resumed. */
  lemma {:induction false} SuspendedIsNotPolled(s: State, run: seq<Action>, k: Key)
    requires Inv(s) && Legal(s, run) && Is(s, k, Suspended) && Resume(k) !in run
    ensures PollCount(s, run, s.tasks[k].id) == 0
    decreases |run|
  {
    hide Heard, Counted, Swept;
    if run != [] {
      var t := Apply(s, run[0]);
      assert run[0] in run;
      SuspendedStays(s, run[0], k);
      StepInv(s, run[0]);
      hide Apply;
      if Is(t, k, Suspended) && t.tasks[k].id == s.tasks[k].id {
        SuspendedIsNotPolled(t, run[1..], k);
      } else if Is(t, k, Cancelled) && t.tasks[k].id == s.tasks[k].id {
        CancelIsFinal(t, run[1..], k);
      } else {
        GoneForever(t, run[1..], s.tasks[k].id);
      }
    }
  }

  lemma DueOnEnter(s: State, k: Key)
    requires Inv(s) && Enabled(s, Enter) && Is(s, k, NotStopped) && s.tasks[k].id in s.runnable
    ensures Due(Apply(s, Enter), k)
  {
  }

  /** Whatever may run and is runnable when the wheel is polled, for instance because it was woken
      while the wheel slept, is polled exactly once in the first beat. */
  lemma RunnableIsPolled(s: State, run: seq<Action>, k: Key)
    requires Inv(s) && Enabled(s, Enter) && Is(s, k, NotStopped) && s.tasks[k].id in s.runnable
    requires var t := Apply(s, Enter);
             && Legal(t, run) && OneBeat(run) && Untouched(t, run, k)
             && var pc := Run(t, run).pc; pc.Beat? && pc.slot >= pc.limit
    ensures PollCount(Apply(s, Enter), run, s.tasks[k].id) == 1
  {
    DueOnEnter(s, k);
    StepInv(s, Enter);
    hide Inv;
    PolledExactlyOnce(Apply(s, Enter), run, k);
  }

  /** So is a task that was just spawned, and it was not polled before. */
  lemma SpawnedIsPolled(s: State, run: seq<Action>, k: Key)
    requires Inv(s) && (s.pc.Outside? || s.pc.Returned?) && Enabled(s, Spawn(k, false))
    requires var t := Apply(Apply(s, Spawn(k, false)), Enter);
             && Legal(t, run) && OneBeat(run) && Untouched(t, run, k)
             && var pc := Run(t, run).pc; pc.Beat? && pc.slot >= pc.limit
    ensures PollCount(Apply(Apply(s, Spawn(k, false)), Enter), run, s.nextId) == 1
  {
    StepInv(s, Spawn(k, false));
    hide Inv;
    RunnableIsPolled(Apply(s, Spawn(k, false)), run, k);
  }

  // ---------------------------------------------------------------- the outer waker

  /** The first beats and a Ready result have no waker registered: nobody wakes a wheel that runs
      or has finished. */
  ghost predicate Deaf(s: State) {
    (InBeat(s.pc) && !s.pc.second) || (s.pc.Returned? && s.pc.result.Ready?) ==> !s.waker
  }

  lemma DeafStep(s: State, a: Action)
    requires Deaf(s) && Enabled(s, a)
    ensures Deaf(Apply(s, a))
  {
    if IsWake(a) { WakeFrame(s, a); }
  }

  lemma {:induction false} WakerOnlyWhileListening(s: State, run: seq<Action>)
    requires Deaf(s) && Legal(s, run)
    ensures Deaf(Run(s, run))
    decreases |run|
  {
    if run != [] {
      DeafStep(s, run[0]);
      hide Apply, Deaf;
      WakerOnlyWhileListening(Apply(s, run[0]), run[1..]);
    }
  }
}
