/**
 The lock-free cell: any number of threads, one transition per access to shared memory, under
 sequential consistency.
 */
module AtomicCells {
  import opened Options

  /** `Apply`'s function may panic, which is `None`. */
  datatype Op<!T> = Swap(value: T) | Apply(f: T -> Option<T>)

  /** A call in progress; `from` is how many operations had taken effect when it began. */
  datatype Call<!T> = Call(op: Op<T>, retry: bool, from: nat)

  datatype Pc<!T> =
    | Idle
    | Trying(call: Call<T>)                       // before the compare-exchange
    | Locked(call: Call<T>)                       // after it, before the read
    | HasRead(call: Call<T>, first: T)
    | Releasing(call: Call<T>, result: Option<T>) // after the write; `None` if the function panicked

  /** `owned` are the values in the thread's own variables. */
  datatype Thread<!T> = Thread(pc: Pc<T>, owned: multiset<T>)

  /** An operation that took effect. */
  datatype Effect<!T> = Effect(tid: nat, call: Call<T>, before: T, after: T)

  /** An operation that returned, and the value its caller got. */
  datatype Return<!T> = Return(tid: nat, call: Call<T>, result: T)

  datatype State<!T> = State(
    mark: bool,
    cell: T,
    threads: seq<Thread<T>>,
    log: seq<Effect<T>>,          // history: effects in order
    results: seq<Return<T>>)      // history: successful returns in order

  datatype Action<!T> =
    | Begin(t: nat, op: Op<T>, retry: bool)
    | TryLock(t: nat)             // the exchange succeeds iff the mark is clear
    | Spurious(t: nat)            // the weak exchange fails although the mark is clear
    | Read(t: nat)
    | Write(t: nat)               // runs the function of an `Apply`, and writes
    | Release(t: nat)

  /** What the operation leaves in the cell; `None` if its function panics. */
  function Outcome<T>(op: Op<T>, before: T): Option<T> {
    match op
    case Swap(v) => Some(v)
    case Apply(f) => f(before)
  }

  predicate Enabled<T(==)>(s: State<T>, a: Action<T>) {
    a.t < |s.threads| &&
    var pc := s.threads[a.t].pc;
    match a
    case Begin(t, op, _) => pc.Idle? && (op.Swap? ==> op.value in s.threads[t].owned)
    case TryLock(_) => pc.Trying?
    case Spurious(_) => pc.Trying? && !s.mark
    case Read(_) => pc.Locked?
    case Write(_) => pc.HasRead?
    case Release(_) => pc.Releasing?
  }

  function Put<T>(s: State<T>, t: nat, th: Thread<T>): State<T>
    requires t < |s.threads|
  {
    s.(threads := s.threads[t := th])
  }

  function At<T>(s: State<T>, t: nat, pc: Pc<T>): State<T>
    requires t < |s.threads|
  {
    Put(s, t, s.threads[t].(pc := pc))
  }

  function Arg<T>(op: Op<T>): multiset<T> { if op.Swap? then multiset{op.value} else multiset{} }

  function Next<T(==)>(s: State<T>, a: Action<T>): State<T>
    requires Enabled(s, a)
  {
    var t := a.t;
    var th := s.threads[t];
    match a
    case Begin(_, op, retry) =>
      Put(s, t, Thread(Trying(Call(op, retry, |s.log|)), th.owned - Arg(op)))
    case TryLock(_) =>
      if !s.mark then At(s, t, Locked(th.pc.call)).(mark := true)
      else if th.pc.call.retry then s                                      // spin
      else Put(s, t, Thread(Idle, th.owned + Arg(th.pc.call.op)))          // Err gives the argument back
    case Spurious(_) => At(s, t, Locked(th.pc.call))
    case Read(_) => At(s, t, HasRead(th.pc.call, s.cell))
    case Write(_) =>
      var call, first := th.pc.call, th.pc.first;
      var out := Outcome(call.op, first);
      if out.None? then At(s, t, Releasing(call, None))
      else
        At(s, t, Releasing(call, Some(first))).(
          cell := out.value, log := s.log + [Effect(t, call, first, out.value)])
    case Release(_) =>
      var call, result := th.pc.call, th.pc.result;
      var gain := if call.op.Swap? && result.Some? then multiset{result.value} else multiset{};
      var done := if result.Some? then [Return(t, call, result.value)] else [];
      Put(s, t, Thread(Idle, th.owned + gain)).(mark := false, results := s.results + done)
  }

  predicate Legal<T(==)>(s: State<T>, run: seq<Action<T>>)
    decreases |run|
  {
    run == [] || (Enabled(s, run[0]) && Legal(Next(s, run[0]), run[1..]))
  }

  function Run<T(==)>(s: State<T>, run: seq<Action<T>>): State<T>
    requires Legal(s, run)
    decreases |run|
  {
    if run == [] then s else Run(Next(s, run[0]), run[1..])
  }

  predicate Initial<T>(s: State<T>) {
    && !s.mark && s.log == [] && s.results == []
    && forall t :: 0 <= t < |s.threads| ==> s.threads[t].pc == Idle
  }

  /** The exchange never fails spuriously. */
  predicate Strong<T>(run: seq<Action<T>>) { forall i :: 0 <= i < |run| ==> !run[i].Spurious? }

  /** The threads with a call in progress. */
  function Busy<T>(s: State<T>): set<nat> { set t: nat | t < |s.threads| && !s.threads[t].pc.Idle? }

  /** At most `n` calls are in progress at any time: what the callers can arrange among themselves. */
  predicate AtMost<T(==)>(s: State<T>, run: seq<Action<T>>, n: nat)
    requires Legal(s, run)
    decreases |run|
  {
    |Busy(s)| <= n && (run == [] || AtMost(Next(s, run[0]), run[1..], n))
  }

  /** The exchange does not fail spuriously, or calls do not overlap. */
  predicate Disciplined<T(==)>(s: State<T>, run: seq<Action<T>>)
    requires Legal(s, run)
  {
    Strong(run) || AtMost(s, run, 1)
  }

  // ---------------------------------------------------------------- the invariant

  predicate Critical<T>(pc: Pc<T>) { pc.Locked? || pc.HasRead? || pc.Releasing? }

  /** At most one thread is past the exchange. */
  ghost predicate Exclusive<T>(s: State<T>) {
    forall t, u :: 0 <= t < u < |s.threads| ==> !(Critical(s.threads[t].pc) && Critical(s.threads[u].pc))
  }

  /** Whoever is past the exchange has set the mark. */
  ghost predicate Guarded<T>(s: State<T>) {
    forall t :: 0 <= t < |s.threads| && Critical(s.threads[t].pc) ==> s.mark
  }

  ghost predicate Occupied<T>(s: State<T>) {
    s.mark ==> exists t :: 0 <= t < |s.threads| && Critical(s.threads[t].pc)
  }

  /** What the cell holds after the first `n` effects. */
  function Value<T>(init: T, log: seq<Effect<T>>, n: nat): T
    requires n <= |log|
  {
    if n == 0 then init else log[n - 1].after
  }

  /** The effects are a sequential history: each operation starts from what its predecessor left,
      and was called before it took effect. */
  ghost predicate Sequential<T>(init: T, log: seq<Effect<T>>) {
    forall i :: 0 <= i < |log| ==>
      && log[i].before == Value(init, log, i)
      && Outcome(log[i].call.op, log[i].before) == Some(log[i].after)
      && log[i].call.from <= i
  }

  /** The thread that has taken effect and not yet returned. */
  ghost predicate Returning<T>(s: State<T>, t: nat) {
    t < |s.threads| && s.threads[t].pc.Releasing? && s.threads[t].pc.result.Some?
  }

  ghost predicate Local<T>(s: State<T>, t: nat)
    requires t < |s.threads|
  {
    var pc := s.threads[t].pc;
    && (!pc.Idle? ==> pc.call.from <= |s.log|)
    && (pc.HasRead? ==> pc.first == s.cell)
    && (pc.Releasing? && pc.result.Some? ==>
          && |s.log| > 0
          && s.log[|s.log| - 1].tid == t && s.log[|s.log| - 1].call == pc.call
          && s.log[|s.log| - 1].before == pc.result.value)
  }

  /** Returns happen in the order of effects, each with the value its effect found. */
  ghost predicate Matched<T>(s: State<T>) {
    && |s.results| <= |s.log| <= |s.results| + 1
    && (|s.log| == |s.results| + 1 <==> exists t :: Returning(s, t))
    && (forall i :: 0 <= i < |s.results| ==>
          s.results[i] == Return(s.log[i].tid, s.log[i].call, s.log[i].before))
  }

  ghost predicate Inv<T>(init: T, s: State<T>) {
    && Exclusive(s) && Occupied(s)
    && Sequential(init, s.log)
    && s.cell == Value(init, s.log, |s.log|)
    && (forall t :: 0 <= t < |s.threads| ==> Local(s, t))
    && Matched(s)
  }

  lemma StepExclusive<T>(s: State<T>, a: Action<T>)
    requires Exclusive(s) && Guarded(s) && Enabled(s, a) && !a.Spurious?
    ensures Exclusive(Next(s, a)) && Guarded(Next(s, a))
  {
  }

  lemma StepOccupied<T>(s: State<T>, a: Action<T>)
    requires Occupied(s) && Enabled(s, a)
    ensures Occupied(Next(s, a))
  {
    var n := Next(s, a);
    if n.mark {
      if s.mark {
        var t :| 0 <= t < |s.threads| && Critical(s.threads[t].pc);
        assert Critical(n.threads[t].pc);
      } else {
        assert Critical(n.threads[a.t].pc);
      }
    }
  }

  lemma OnlyWrites<T>(s: State<T>, a: Action<T>)
    requires Enabled(s, a) && !a.Write?
    ensures Next(s, a).log == s.log && Next(s, a).cell == s.cell
  {
  }

  lemma WriteSequential<T>(init: T, s: State<T>, a: Action<T>)
    requires Sequential(init, s.log) && s.cell == Value(init, s.log, |s.log|) && Enabled(s, a) && a.Write?
    requires Local(s, a.t)
    ensures var n := Next(s, a); Sequential(init, n.log) && n.cell == Value(init, n.log, |n.log|)
  {
    var n := Next(s, a);
    forall i | 0 <= i < |n.log|
      ensures n.log[i].before == Value(init, n.log, i)
              && Outcome(n.log[i].call.op, n.log[i].before) == Some(n.log[i].after) && n.log[i].call.from <= i
    {
      if i < |s.log| { assert n.log[i] == s.log[i] && Value(init, n.log, i) == Value(init, s.log, i); }
    }
  }

  lemma StepSequential<T>(init: T, s: State<T>, a: Action<T>)
    requires Sequential(init, s.log) && s.cell == Value(init, s.log, |s.log|) && Enabled(s, a)
    requires Local(s, a.t)
    ensures var n := Next(s, a); Sequential(init, n.log) && n.cell == Value(init, n.log, |n.log|)
  {
    hide Next;
    if a.Write? { WriteSequential(init, s, a); } else { OnlyWrites(s, a); }
  }

  lemma StepLocal<T>(s: State<T>, a: Action<T>)
    requires Exclusive(s) && Enabled(s, a)
    requires forall t :: 0 <= t < |s.threads| ==> Local(s, t)
    ensures forall t :: 0 <= t < |s.threads| ==> Local(Next(s, a), t)
  {
    var n := Next(s, a);
    forall t | 0 <= t < |s.threads| ensures Local(n, t) {
      assert Local(s, t);
    }
  }

  lemma StepMatched<T>(s: State<T>, a: Action<T>)
    requires Exclusive(s) && Matched(s) && Enabled(s, a) && Local(s, a.t)
    ensures Matched(Next(s, a))
  {
    var n := Next(s, a);
    forall u: nat | u != a.t ensures Returning(n, u) == Returning(s, u) { }
    if a.Write? {
      assert forall u :: !Returning(s, u);
      assert Returning(n, a.t) <==> |n.log| > |s.log|;
    } else if a.Release? {
      assert forall u :: u != a.t ==> !Returning(s, u);
      assert !Returning(n, a.t);
      assert Returning(s, a.t) <==> s.threads[a.t].pc.result.Some?;
    } else {
      assert !Returning(s, a.t) && !Returning(n, a.t);
    }
  }

  /** Whatever keeps the threads apart keeps the invariant. */
  lemma StepInv<T>(init: T, s: State<T>, a: Action<T>)
    requires Inv(init, s) && Enabled(s, a) && Exclusive(Next(s, a))
    ensures Inv(init, Next(s, a))
  {
    StepOccupied(s, a);
    StepSequential(init, s, a);
    StepLocal(s, a);
    StepMatched(s, a);
    hide Next;
  }

  /** No two threads are past the exchange, in any state of the run. */
  ghost predicate Apart<T>(s: State<T>, run: seq<Action<T>>)
    requires Legal(s, run)
    decreases |run|
  {
    Exclusive(s) && (run == [] || Apart(Next(s, run[0]), run[1..]))
  }

  lemma {:induction false} StrongIsApart<T>(s: State<T>, run: seq<Action<T>>)
    requires Exclusive(s) && Guarded(s) && Legal(s, run) && Strong(run)
    ensures Apart(s, run) && Guarded(Run(s, run))
    decreases |run|
  {
    if run != [] {
      StepExclusive(s, run[0]);
      hide Exclusive, Guarded, Next;
      StrongIsApart(Next(s, run[0]), run[1..]);
    }
  }

  lemma {:induction false} OneAtATimeIsApart<T>(s: State<T>, run: seq<Action<T>>)
    requires Legal(s, run) && AtMost(s, run, 1)
    ensures Apart(s, run)
    decreases |run|
  {
    OneBusy(s);
    hide Busy, Exclusive;
    if run != [] { OneAtATimeIsApart(Next(s, run[0]), run[1..]); }
  }

  lemma OneBusy<T>(s: State<T>)
    requires |Busy(s)| <= 1
    ensures Exclusive(s)
  {
    forall t, u | 0 <= t < u < |s.threads| ensures !(Critical(s.threads[t].pc) && Critical(s.threads[u].pc)) {
      if !s.threads[t].pc.Idle? && !s.threads[u].pc.Idle? {
        assert {t, u} <= Busy(s);
        SubsetSize({t, u}, Busy(s));
      }
    }
  }

  lemma {:induction false} SubsetSize(a: set<nat>, b: set<nat>)
    requires a <= b
    ensures |a| <= |b|
  {
    if x :| x in a { SubsetSize(a - {x}, b - {x}); }
  }

  lemma InitialInv<T>(s: State<T>)
    requires Initial(s)
    ensures Inv(s.cell, s) && Guarded(s)
  {
  }

  lemma DisciplineIsApart<T>(s: State<T>, run: seq<Action<T>>)
    requires Initial(s) && Legal(s, run) && Disciplined(s, run)
    ensures Apart(s, run)
  {
    InitialInv(s);
    hide Initial, Busy, Legal;
    if Strong(run) { StrongIsApart(s, run); } else { OneAtATimeIsApart(s, run); }
  }

  lemma {:induction false} RunInv<T>(init: T, s: State<T>, run: seq<Action<T>>)
    requires Inv(init, s) && Legal(s, run) && Apart(s, run)
    ensures Inv(init, Run(s, run))
    decreases |run|
  {
    hide Inv, Exclusive;
    if run != [] {
      var n := Next(s, run[0]);
      assert Exclusive(n);
      StepInv(init, s, run[0]);
      RunInv(init, n, run[1..]);
    }
  }

  lemma ReachedInv<T>(s: State<T>, run: seq<Action<T>>)
    requires Initial(s) && Legal(s, run) && Disciplined(s, run)
    ensures Inv(s.cell, Run(s, run))
  {
    InitialInv(s);
    DisciplineIsApart(s, run);
    RunInv(s.cell, s, run);
  }

  /** Linearizability. The operations that took effect form one total order, in which each starts
      from what its predecessor left; whoever returns got the value its predecessor left; and the
      order respects real time, because an operation takes its place after it was called (the
      `from` of its call) and before it returns (when its place is still the last). */
  lemma Linearizable<T>(s: State<T>, run: seq<Action<T>>)
    requires Initial(s) && Legal(s, run) && Disciplined(s, run)
    ensures var e := Run(s, run);
            && Sequential(s.cell, e.log)
            && e.cell == Value(s.cell, e.log, |e.log|)
            && |e.results| <= |e.log| <= |e.results| + 1
            && forall i :: 0 <= i < |e.results| ==>
                 e.results[i] == Return(e.log[i].tid, e.log[i].call, Value(s.cell, e.log, i))
  {
    ReachedInv(s, run);
  }

  lemma Cons<T>(s: State<T>, a: Action<T>, run: seq<Action<T>>)
    requires Enabled(s, a) && Legal(Next(s, a), run)
    ensures Legal(s, [a] + run) && Run(s, [a] + run) == Run(Next(s, a), run)
  {
    assert ([a] + run)[0] == a && ([a] + run)[1..] == run;
  }

  lemma {:induction false} RunConcat<T>(s: State<T>, a: seq<Action<T>>, b: seq<Action<T>>)
    requires Legal(s, a) && Legal(Run(s, a), b)
    ensures Legal(s, a + b) && Run(s, a + b) == Run(Run(s, a), b)
    decreases |a|
  {
    hide Next;
    if a == [] {
      assert a + b == b;
    } else {
      assert (a + b)[0] == a[0] && (a + b)[1..] == a[1..] + b;
      RunConcat(Next(s, a[0]), a[1..], b);
    }
  }

  lemma {:induction false} ResultsGrow<T>(s: State<T>, run: seq<Action<T>>)
    requires Legal(s, run)
    ensures |s.results| <= |Run(s, run).results|
    ensures forall i :: 0 <= i < |s.results| ==> Run(s, run).results[i] == s.results[i]
    decreases |run|
  {
    if run != [] {
      var n := Next(s, run[0]);
      assert |s.results| <= |n.results| && forall i :: 0 <= i < |s.results| ==> n.results[i] == s.results[i];
      hide Next;
      ResultsGrow(n, run[1..]);
    }
  }

  /** Real time: if operation `i` has returned before a call begins, then `i` comes before whatever
      place `j` that call takes in the order. */
  lemma RealTimeOrder<T>(s: State<T>, before: seq<Action<T>>, begin: Action<T>, after: seq<Action<T>>, i: nat, j: nat)
    requires Initial(s) && Legal(s, before) && begin.Begin? && Enabled(Run(s, before), begin)
    requires Legal(Next(Run(s, before), begin), after)
    requires Legal(s, before + ([begin] + after)) && Disciplined(s, before + ([begin] + after))
    requires i < |Run(s, before).results|
    requires var m := Run(s, before); var e := Run(Next(m, begin), after);
             j < |e.log| && e.log[j].tid == begin.t && e.log[j].call == Call(begin.op, begin.retry, |m.log|)
    ensures var e := Run(Next(Run(s, before), begin), after);
            && i < j && i < |e.results| && e.results[i] == Run(s, before).results[i]
            && e.results[i] == Return(e.log[i].tid, e.log[i].call, e.log[i].before)
  {
    var m := Run(s, before);
    Cons(m, begin, after);
    RunConcat(s, before, [begin] + after);
    ResultsGrow(m, [begin] + after);
    ReachedInv(s, before + ([begin] + after));
    DisciplineIsApart(s, before + ([begin] + after));
    ApartPrefix(s, before, [begin] + after);
    InitialInv(s);
    RunInv(s.cell, s, before);
    hide Next, Legal, Apart;
  }

  lemma {:induction false} ApartPrefix<T>(s: State<T>, a: seq<Action<T>>, b: seq<Action<T>>)
    requires Legal(s, a) && Legal(s, a + b) && Apart(s, a + b)
    ensures Apart(s, a)
    decreases |a|
  {
    hide Next, Exclusive;
    if a != [] {
      assert (a + b)[0] == a[0] && (a + b)[1..] == a[1..] + b;
      ApartPrefix(Next(s, a[0]), a[1..], b);
    }
  }

  /** At most one thread is inside the cell, in every state reached. The mark is never set when nobody
      is inside, so whoever tries then gets in; and with the strong exchange it is set exactly while
      one is. */
  lemma MutualExclusion<T>(s: State<T>, run: seq<Action<T>>, t: nat, u: nat)
    requires Initial(s) && Legal(s, run) && Disciplined(s, run)
    requires t < |Run(s, run).threads| && u < |Run(s, run).threads|
    ensures var e := Run(s, run);
            && (Critical(e.threads[t].pc) && Critical(e.threads[u].pc) ==> t == u)
            && (e.mark ==> exists v :: 0 <= v < |e.threads| && Critical(e.threads[v].pc))
            && (Strong(run) && Critical(e.threads[t].pc) ==> e.mark)
  {
    ReachedInv(s, run);
    InitialInv(s);
    if Strong(run) { StrongIsApart(s, run); }
  }

  // ---------------------------------------------------------------- how a call begins and ends

  /** A call starts with the operation it was given, at the exchange, and remembers how many operations
      have taken effect; the value to swap in leaves the caller's variables. */
  lemma CallBegins<T>(s: State<T>, t: nat, op: Op<T>, retry: bool)
    requires Enabled(s, Begin(t, op, retry))
    ensures var n := Next(s, Begin(t, op, retry)); var th := n.threads[t];
            && n == s.(threads := s.threads[t := th])
            && th.pc.Trying? && th.pc.call.op == op && th.pc.call.retry == retry && th.pc.call.from == |s.log|
            && th.owned + Arg(op) == s.threads[t].owned
  {
    if op.Swap? { assert s.threads[t].owned - Arg(op) + Arg(op) == s.threads[t].owned; }
  }

  /** Whether a step ends the call of its thread. */
  predicate EndsCall<T>(s: State<T>, a: Action<T>)
    requires Enabled(s, a)
  {
    !s.threads[a.t].pc.Idle? && Next(s, a).threads[a.t].pc.Idle?
  }

  /** `try_swap` and `try_apply` fail only at the exchange, because the mark is set, and then hand the
      argument back; `swap` and `apply` try again. Whatever else ends a call is the release, after the
      operation: it clears the mark, and the caller gets what the cell held, and nothing else changes. */
  lemma CallEnds<T>(s: State<T>, a: Action<T>)
    requires Enabled(s, a) && EndsCall(s, a)
    ensures var n := Next(s, a); var pc := s.threads[a.t].pc;
            if a.Release? then !n.mark && n.cell == s.cell && n.log == s.log
            else
              && a.TryLock? && s.mark && !pc.call.retry
              && n == s.(threads := n.threads)
              && n.threads[a.t].owned == s.threads[a.t].owned + Arg(pc.call.op)
  {
  }

  /** At the exchange: if the mark is clear the thread gets in; if it is set nobody gets in, and a call
      that retries is left exactly as it was. */
  lemma TryMeans<T>(s: State<T>, t: nat)
    requires Enabled(s, TryLock(t))
    ensures var n := Next(s, TryLock(t)); var call := s.threads[t].pc.call;
            && (!s.mark ==> n.mark && n.threads[t].pc == Locked(call))
            && (s.mark && call.retry ==> n == s)
            && (s.mark && !call.retry ==> n.threads[t].pc == Idle && n.mark)
  {
  }

  /** Hence a `swap` or an `apply` ends only through its release, over every run. */
  lemma {:induction false} RetriesUntilReleased<T>(s: State<T>, run: seq<Action<T>>, t: nat)
    requires Legal(s, run) && t < |s.threads| && !s.threads[t].pc.Idle? && s.threads[t].pc.call.retry
    requires Release(t) !in run
    ensures t < |Run(s, run).threads| && !Run(s, run).threads[t].pc.Idle?
    ensures Run(s, run).threads[t].pc.call == s.threads[t].pc.call
    decreases |run|
  {
    if run != [] {
      assert run[0] in run;
      StillCalling(s, run[0], t);
      hide Next;
      RetriesUntilReleased(Next(s, run[0]), run[1..], t);
    }
  }

  lemma StillCalling<T>(s: State<T>, a: Action<T>, t: nat)
    requires Enabled(s, a) && t < |s.threads| && !s.threads[t].pc.Idle? && s.threads[t].pc.call.retry && a != Release(t)
    ensures var n := Next(s, a);
            t < |n.threads| && !n.threads[t].pc.Idle? && n.threads[t].pc.call == s.threads[t].pc.call
  {
  }

  // ---------------------------------------------------------------- conservation

  /** The values that a thread holds, in its variables or in a call in progress. */
  function Held<T>(th: Thread<T>): multiset<T> {
    th.owned +
    match th.pc
    case Idle => multiset{}
    case Trying(c) => Arg(c.op)
    case Locked(c) => Arg(c.op)
    case HasRead(c, _) => Arg(c.op)
    case Releasing(c, r) => if c.op.Swap? && r.Some? then multiset{r.value} else multiset{}
  }

  function HeldBy<T>(ths: seq<Thread<T>>): multiset<T> {
    if ths == [] then multiset{} else HeldBy(ths[..|ths| - 1]) + Held(ths[|ths| - 1])
  }

  /** Everything there is. */
  function Total<T>(s: State<T>): multiset<T> { HeldBy(s.threads) + multiset{s.cell} }

  lemma {:induction false} HeldUpdate<T>(ths: seq<Thread<T>>, t: nat, th: Thread<T>)
    requires t < |ths|
    ensures HeldBy(ths[t := th]) + Held(ths[t]) == HeldBy(ths) + Held(th)
  {
    hide Held;
    var n := |ths| - 1;
    if t == n {
      assert ths[t := th][..n] == ths[..n];
    } else {
      HeldUpdate(ths[..n], t, th);
      assert ths[t := th][..n] == ths[..n][t := th];
      Balance(HeldBy(ths[..n][t := th]), HeldBy(ths[..n]), Held(ths[t]), Held(th), Held(ths[n]));
    }
  }

  lemma Balance<T>(a: multiset<T>, b: multiset<T>, h: multiset<T>, k: multiset<T>, c: multiset<T>)
    requires a + h == b + k
    ensures (a + c) + h == (b + c) + k
  {
    assert (a + c) + h == (a + h) + c;
    assert (b + c) + k == (b + k) + c;
  }

  lemma Exchange<T>(a: multiset<T>, b: multiset<T>, h: multiset<T>, k: multiset<T>, c: multiset<T>, d: multiset<T>)
    requires a + h == b + k && k + c == h + d
    ensures a + c == b + d
  {
    forall x: T ensures (a + c)[x] == (b + d)[x] {
      assert (a + h)[x] == (b + k)[x] && (k + c)[x] == (h + d)[x];
    }
  }

  predicate OnlySwaps<T>(s: State<T>) {
    forall t :: 0 <= t < |s.threads| && !s.threads[t].pc.Idle? ==> s.threads[t].pc.call.op.Swap?
  }

  /** What the thread has read is still there. */
  predicate Fresh<T(==)>(s: State<T>, t: nat)
    requires t < |s.threads|
  {
    s.threads[t].pc.HasRead? ==> s.threads[t].pc.first == s.cell
  }

  lemma StepConserves<T>(s: State<T>, a: Action<T>)
    requires Enabled(s, a) && Fresh(s, a.t) && OnlySwaps(s) && (a.Begin? ==> a.op.Swap?)
    ensures Total(Next(s, a)) == Total(s) && OnlySwaps(Next(s, a))
  {
    var n := Next(s, a);
    HeldUpdate(s.threads, a.t, n.threads[a.t]);
    assert n.threads == s.threads[a.t := n.threads[a.t]];
    HeldStep(s, a);
    Exchange(HeldBy(n.threads), HeldBy(s.threads), Held(s.threads[a.t]), Held(n.threads[a.t]),
            multiset{n.cell}, multiset{s.cell});
  }

  lemma HeldStep<T>(s: State<T>, a: Action<T>)
    requires Enabled(s, a) && Fresh(s, a.t) && OnlySwaps(s) && (a.Begin? ==> a.op.Swap?)
    ensures var n := Next(s, a); Held(n.threads[a.t]) + multiset{n.cell} == Held(s.threads[a.t]) + multiset{s.cell}
    ensures OnlySwaps(Next(s, a))
  {
    assert !s.threads[a.t].pc.Idle? ==> s.threads[a.t].pc.call.op.Swap?;
    if a.Begin? { HeldBegin(s, a); } else if a.Write? { HeldWrite(s, a); } else { HeldOther(s, a); }
    StepSwaps(s, a);
    hide *;
  }

  lemma HeldBegin<T>(s: State<T>, a: Action<T>)
    requires Enabled(s, a) && a.Begin? && a.op.Swap?
    ensures var n := Next(s, a); n.cell == s.cell && Held(n.threads[a.t]) == Held(s.threads[a.t])
  {
    var own := s.threads[a.t].owned;
    assert own - multiset{a.op.value} + multiset{a.op.value} == own;
  }

  lemma HeldWrite<T>(s: State<T>, a: Action<T>)
    requires Enabled(s, a) && Fresh(s, a.t) && a.Write? && s.threads[a.t].pc.call.op.Swap?
    ensures var n := Next(s, a); Held(n.threads[a.t]) + multiset{n.cell} == Held(s.threads[a.t]) + multiset{s.cell}
  {
    var v, own := s.threads[a.t].pc.call.op.value, s.threads[a.t].owned;
    assert (own + multiset{s.cell}) + multiset{v} == (own + multiset{v}) + multiset{s.cell};
  }

  lemma HeldOther<T>(s: State<T>, a: Action<T>)
    requires Enabled(s, a) && !a.Write? && !a.Begin?
    ensures var n := Next(s, a); n.cell == s.cell && Held(n.threads[a.t]) == Held(s.threads[a.t])
  {
    var th := s.threads[a.t];
    match a
    case TryLock(_) => assert Held(Next(s, a).threads[a.t]) == th.owned + Arg(th.pc.call.op);
    case Spurious(_) =>
    case Read(_) =>
    case Release(_) =>
  }

  lemma StepSwaps<T>(s: State<T>, a: Action<T>)
    requires Enabled(s, a) && OnlySwaps(s) && (a.Begin? ==> a.op.Swap?)
    ensures OnlySwaps(Next(s, a))
  {
    var n := Next(s, a);
    forall t | 0 <= t < |n.threads| && !n.threads[t].pc.Idle? ensures n.threads[t].pc.call.op.Swap? {
      assert !s.threads[t].pc.Idle? ==> s.threads[t].pc.call.op.Swap?;
    }
  }

  predicate SwapRun<T>(run: seq<Action<T>>) { forall i :: 0 <= i < |run| && run[i].Begin? ==> run[i].op.Swap? }

  lemma {:induction false} RunConserves<T>(init: T, s: State<T>, run: seq<Action<T>>)
    requires Inv(init, s) && OnlySwaps(s) && Legal(s, run) && Apart(s, run) && SwapRun(run)
    ensures Total(Run(s, run)) == Total(s)
    decreases |run|
  {
    if run != [] {
      var n := Next(s, run[0]);
      assert Exclusive(n) && Apart(n, run[1..]) by { hide Exclusive, Next; }
      StepInv(init, s, run[0]);
      assert Local(s, run[0].t);
      StepConserves(s, run[0]);
      hide *;
      RunConserves(init, n, run[1..]);
    }
  }

  /** Swaps lose and duplicate nothing, whatever the threads do. */
  lemma Conservation<T>(s: State<T>, run: seq<Action<T>>)
    requires Initial(s) && Legal(s, run) && Disciplined(s, run) && SwapRun(run)
    ensures Total(Run(s, run)) == Total(s)
  {
    InitialInv(s);
    DisciplineIsApart(s, run);
    RunConserves(s.cell, s, run);
  }
}
