/**
 The cell as it is compiled where the weak compare-exchange can fail spuriously: the code takes such
 a failure for success. What the cell promises then holds exactly if calls do not overlap.
 */
module WeakCells {
  import opened Options
  import opened AtomicCells

  // ---------------------------------------------------------------- what callers may observe

  /** Performed in this order, the operations return these results. */
  predicate Explained<T(==)>(v: T, order: seq<Return<T>>)
    decreases |order|
  {
    order == [] ||
    (order[0].result == v &&
     var out := Outcome(order[0].call.op, v);
     out.Some? && Explained(out.value, order[1..]))
  }

  /** Some order of the operations explains their results. */
  ghost predicate Linear<T(!new)>(init: T, results: seq<Return<T>>) {
    exists order: seq<Return<T>> :: multiset(order) == multiset(results) && Explained(init, order)
  }

  lemma {:induction false} LogExplains<T>(init: T, log: seq<Effect<T>>, results: seq<Return<T>>, i: nat)
    requires Sequential(init, log) && i <= |results| <= |log|
    requires forall k :: 0 <= k < |results| ==> results[k] == Return(log[k].tid, log[k].call, log[k].before)
    ensures Explained(Value(init, log, i), results[i..])
    decreases |results| - i
  {
    if i < |results| {
      LogExplains(init, log, results, i + 1);
      assert results[i..][1..] == results[i + 1..];
    }
  }

  /** In disciplined runs the order of the returns explains the results. */
  lemma DisciplineExplains<T>(s: State<T>, run: seq<Action<T>>)
    requires Initial(s) && Legal(s, run) && Disciplined(s, run)
    ensures Explained(s.cell, Run(s, run).results)
  {
    ReachedInv(s, run);
    var e := Run(s, run);
    LogExplains(s.cell, e.log, e.results, 0);
    assert e.results[0..] == e.results;
  }

  // ---------------------------------------------------------------- two calls at a time

  /** Two calls that are both past the exchange and have both read the cell. */
  lemma BothInside<T>(s: State<T>, a: nat, b: nat, c: Call<T>, d: Call<T>)
    requires a < |s.threads| && b < |s.threads| && a != b && !s.mark
    requires s.threads[a].pc == Trying(c) && s.threads[b].pc == Trying(d)
    ensures var run := [Spurious(b)] + ([TryLock(a)] + ([Read(a)] + ([Read(b)] + [])));
            && Legal(s, run)
            && Run(s, run) == At(At(s, b, HasRead(d, s.cell)), a, HasRead(c, s.cell)).(mark := true)
  {
    var s1 := Next(s, Spurious(b));
    var s2 := Next(s1, TryLock(a));
    var s3 := Next(s2, Read(a));
    var s4 := Next(s3, Read(b));
    Cons(s3, Read(b), []);
    Cons(s2, Read(a), [Read(b)] + []);
    Cons(s1, TryLock(a), [Read(a)] + ([Read(b)] + []));
    Cons(s, Spurious(b), [TryLock(a)] + ([Read(a)] + ([Read(b)] + [])));
    assert s4.threads == At(At(s, b, HasRead(d, s.cell)), a, HasRead(c, s.cell)).threads;
  }

  /** What a call that returns `v` adds to its caller's values. */
  function Gain<T>(c: Call<T>, v: T): multiset<T> { if c.op.Swap? then multiset{v} else multiset{} }

  lemma BothLeave<T>(s: State<T>, a: nat, b: nat, c: Call<T>, d: Call<T>, first: T)
    requires a < |s.threads| && b < |s.threads| && a != b
    requires Outcome(c.op, first).Some? && Outcome(d.op, first).Some?
    requires s.threads[a].pc == HasRead(c, first) && s.threads[b].pc == HasRead(d, first)
    ensures var run := [Write(a)] + ([Write(b)] + ([Release(a)] + ([Release(b)] + [])));
            && Legal(s, run)
            && var e := Run(s, run);
               && Some(e.cell) == Outcome(d.op, first)
               && e.threads == s.threads[a := Thread(Idle, s.threads[a].owned + Gain(c, first))]
                                        [b := Thread(Idle, s.threads[b].owned + Gain(d, first))]
               && e.results == s.results + [Return(a, c, first)] + [Return(b, d, first)]
  {
    var s1 := Next(s, Write(a));
    var s2 := Next(s1, Write(b));
    var s3 := Next(s2, Release(a));
    var s4 := Next(s3, Release(b));
    assert s2.threads == s.threads[a := Thread(Releasing(c, Some(first)), s.threads[a].owned)]
                                  [b := Thread(Releasing(d, Some(first)), s.threads[b].owned)];
    Cons(s3, Release(b), []);
    Cons(s2, Release(a), [Release(b)] + []);
    Cons(s1, Write(b), [Release(a)] + ([Release(b)] + []));
    Cons(s, Write(a), [Write(b)] + ([Release(a)] + ([Release(b)] + [])));
    assert s4.threads == s.threads[a := Thread(Idle, s.threads[a].owned + Gain(c, first))]
                                  [b := Thread(Idle, s.threads[b].owned + Gain(d, first))];
  }

  /** The actions of these two threads only. */
  predicate OnlyOf<T>(run: seq<Action<T>>, a: nat, b: nat) {
    forall i :: 0 <= i < |run| ==> run[i].t == a || run[i].t == b
  }

  /** Whenever the mark is clear and two threads are about to enter, one spurious failure lets both
      in, and both return the old value. */
  lemma BothReturnOld<T>(s: State<T>, a: nat, b: nat, c: Call<T>, d: Call<T>) returns (run: seq<Action<T>>)
    requires a < |s.threads| && b < |s.threads| && a != b && !s.mark
    requires Outcome(c.op, s.cell).Some? && Outcome(d.op, s.cell).Some?
    requires s.threads[a].pc == Trying(c) && s.threads[b].pc == Trying(d)
    ensures Legal(s, run) && OnlyOf(run, a, b) && SwapRun(run)
    ensures var e := Run(s, run);
            && Some(e.cell) == Outcome(d.op, s.cell)
            && e.results == s.results + [Return(a, c, s.cell)] + [Return(b, d, s.cell)]
            && e.threads == s.threads[a := Thread(Idle, s.threads[a].owned + Gain(c, s.cell))]
                                     [b := Thread(Idle, s.threads[b].owned + Gain(d, s.cell))]
  {
    BothInside(s, a, b, c, d);
    var enter := [Spurious(b)] + ([TryLock(a)] + ([Read(a)] + ([Read(b)] + [])));
    var m := Run(s, enter);
    BothLeave(m, a, b, c, d, s.cell);
    var leave := [Write(a)] + ([Write(b)] + ([Release(a)] + ([Release(b)] + [])));
    RunConcat(s, enter, leave);
    run := enter + leave;
    var e := Run(s, run);
    hide Run, Legal;
    assert e.threads == s.threads[a := Thread(Idle, s.threads[a].owned + Gain(c, s.cell))]
                                 [b := Thread(Idle, s.threads[b].owned + Gain(d, s.cell))];
  }

  /** For swaps: the first one's argument is lost and the old value is there twice, so the total is
      kept only if the two are equal. */
  lemma SpuriousFailureLosesValue<T>(s: State<T>, a: nat, b: nat, c: Call<T>, d: Call<T>) returns (run: seq<Action<T>>)
    requires a < |s.threads| && b < |s.threads| && a != b && !s.mark && c.op.Swap? && d.op.Swap?
    requires s.threads[a].pc == Trying(c) && s.threads[b].pc == Trying(d)
    ensures Legal(s, run) && OnlyOf(run, a, b) && SwapRun(run)
    ensures var e := Run(s, run);
            && e.results == s.results + [Return(a, c, s.cell)] + [Return(b, d, s.cell)]
            && Total(e) + multiset{c.op.value} == Total(s) + multiset{s.cell}
            && (Total(e) == Total(s) <==> c.op.value == s.cell)
  {
    run := BothReturnOld(s, a, b, c, d);
    TwoUpdates(s, Run(s, run), a, b, c, d);
  }

  lemma TwoUpdates<T>(s: State<T>, e: State<T>, a: nat, b: nat, c: Call<T>, d: Call<T>)
    requires a < |s.threads| && b < |s.threads| && a != b && c.op.Swap? && d.op.Swap?
    requires s.threads[a].pc == Trying(c) && s.threads[b].pc == Trying(d)
    requires e.cell == d.op.value
    requires e.threads == s.threads[a := Thread(Idle, s.threads[a].owned + multiset{s.cell})]
                                   [b := Thread(Idle, s.threads[b].owned + multiset{s.cell})]
    ensures Total(e) + multiset{c.op.value} == Total(s) + multiset{s.cell}
    ensures Total(e) == Total(s) <==> c.op.value == s.cell
  {
    var mid := s.threads[a := Thread(Idle, s.threads[a].owned + multiset{s.cell})];
    Replaced(s.threads, a, c, s.cell);
    Replaced(mid, b, d, s.cell);
    Sums(HeldBy(e.threads), HeldBy(mid), HeldBy(s.threads), c.op.value, d.op.value, s.cell);
  }

  /** A thread that gave its argument and got `z` back. */
  lemma Replaced<T>(ths: seq<Thread<T>>, t: nat, c: Call<T>, z: T)
    requires t < |ths| && c.op.Swap? && ths[t].pc == Trying(c)
    ensures HeldBy(ths[t := Thread(Idle, ths[t].owned + multiset{z})]) + multiset{c.op.value}
         == HeldBy(ths) + multiset{z}
  {
    var th := Thread(Idle, ths[t].owned + multiset{z});
    HeldUpdate(ths, t, th);
    var (a, b, own) := (HeldBy(ths[t := th]), HeldBy(ths), ths[t].owned);
    assert Held(th) == own + multiset{z};
    forall v: T ensures (a + multiset{c.op.value})[v] == (b + multiset{z})[v] {
      assert (a + Held(ths[t]))[v] == (b + Held(th))[v];
    }
  }

  lemma Sums<T>(e: multiset<T>, m: multiset<T>, s: multiset<T>, x: T, y: T, z: T)
    requires m + multiset{x} == s + multiset{z}
    requires e + multiset{y} == m + multiset{z}
    ensures (e + multiset{y}) + multiset{x} == (s + multiset{z}) + multiset{z}
    ensures e + multiset{y} == s + multiset{z} <==> x == z
  {
    assert (m + multiset{z}) + multiset{x} == (m + multiset{x}) + multiset{z};
    if e + multiset{y} == s + multiset{z} {
      assert (m + multiset{z})[z] == (m + multiset{x})[z];
    }
  }

  // ---------------------------------------------------------------- exactly when the cell keeps its promise

  /** Where two threads call at the same time. */
  lemma BeginBoth<T>(s: State<T>, a: nat, b: nat, f: Op<T>, g: Op<T>)
    requires Initial(s) && a < |s.threads| && b < |s.threads| && a != b
    requires (f.Swap? ==> f.value in s.threads[a].owned) && (g.Swap? ==> g.value in s.threads[b].owned)
    ensures var run := [Begin(a, f, true)] + ([Begin(b, g, true)] + []);
            && Legal(s, run) && OnlyOf(run, a, b) && (f.Swap? && g.Swap? ==> SwapRun(run))
            && var m := Run(s, run);
               && |m.threads| == |s.threads| && m.cell == s.cell && !m.mark && m.results == []
               && m.threads[a].pc == Trying(Call(f, true, 0)) && m.threads[b].pc == Trying(Call(g, true, 0))
  {
    var s1 := Next(s, Begin(a, f, true));
    Cons(s1, Begin(b, g, true), []);
    Cons(s, Begin(a, f, true), [Begin(b, g, true)] + []);
  }

  lemma {:induction false} TwoBusy<T>(s: State<T>, run: seq<Action<T>>, a: nat, b: nat, n: nat)
    requires Legal(s, run) && OnlyOf(run, a, b) && n >= 2 && Busy(s) <= {a, b}
    ensures AtMost(s, run, n)
    decreases |run|
  {
    SubsetSize(Busy(s), {a, b});
    assert |{a, b}| <= 2;
    if run != [] {
      assert run[0].t == a || run[0].t == b;
      assert Busy(Next(s, run[0])) <= Busy(s) + {run[0].t};
      hide Busy, Next;
      TwoBusy(Next(s, run[0]), run[1..], a, b, n);
    }
  }

  lemma OnlyOfConcat<T>(x: seq<Action<T>>, y: seq<Action<T>>, a: nat, b: nat)
    requires OnlyOf(x, a, b) && OnlyOf(y, a, b)
    ensures OnlyOf(x + y, a, b)
  {
  }

  lemma {:induction false} OneThread<T>(s: State<T>, run: seq<Action<T>>)
    requires Legal(s, run) && |s.threads| <= 1
    ensures AtMost(s, run, 1)
    decreases |run|
  {
    SubsetSize(Busy(s), {0});
    hide Busy;
    if run != [] { OneThread(Next(s, run[0]), run[1..]); }
  }

  lemma {:induction false} FewerCalls<T>(s: State<T>, run: seq<Action<T>>, n: nat)
    requires Legal(s, run) && n <= 1 && AtMost(s, run, n)
    ensures AtMost(s, run, 1)
    decreases |run|
  {
    hide Next, Busy;
    if run != [] { FewerCalls(Next(s, run[0]), run[1..], n); }
  }

  /** A run in which calls do not overlap, or cannot. */
  lemma NoOverlap<T>(s: State<T>, run: seq<Action<T>>, n: nat)
    requires Legal(s, run) && AtMost(s, run, n) && (n <= 1 || |s.threads| <= 1)
    ensures Disciplined(s, run)
  {
    hide Legal, AtMost;
    if n <= 1 { FewerCalls(s, run, n); } else { OneThread(s, run); }
  }

  /** Two threads write another value at the same time, and neither sees the other's. */
  lemma LostUpdate<T(!new)>(s: State<T>, n: nat, x: T) returns (run: seq<Action<T>>)
    requires Initial(s) && n >= 2 && |s.threads| >= 2 && x != s.cell
    ensures Legal(s, run) && AtMost(s, run, n) && !Linear(s.cell, Run(s, run).results)
  {
    var f := Apply((v: T) => Some(x));
    BeginBoth(s, 0, 1, f, f);
    var begin := [Begin(0, f, true)] + ([Begin(1, f, true)] + []);
    var c := Call(f, true, 0);
    var rest := BothReturnOld(Run(s, begin), 0, 1, c, c);
    RunConcat(s, begin, rest);
    run := begin + rest;
    OnlyOfConcat(begin, rest, 0, 1);
    assert Busy(s) == {};
    TwoBusy(s, run, 0, 1, n);
    NotLinear(s.cell, x, Return(0, c, s.cell), Return(1, c, s.cell));
    hide Run, Legal, AtMost;
    assert [] + [Return(0, c, s.cell)] + [Return(1, c, s.cell)] == [Return(0, c, s.cell), Return(1, c, s.cell)];
  }

  lemma NotLinear<T(!new)>(z: T, x: T, p: Return<T>, q: Return<T>)
    requires x != z && p.result == q.result == z
    requires Outcome(p.call.op, z) == Outcome(q.call.op, z) == Some(x)
    ensures !Linear(z, [p, q])
  {
    forall order: seq<Return<T>> | multiset(order) == multiset([p, q]) ensures !Explained(z, order) {
      assert |multiset(order)| == |order| && |multiset([p, q])| == 2;
      assert order[0] in multiset(order) && order[1] in multiset(order);
      assert order[0] == p || order[0] == q;
      assert order[1] == p || order[1] == q;
    }
  }

  /** Linearizability under the weak exchange: whatever the calls, some order explains all results, if
      and only if no two calls overlap, because at most one is in progress at a time or only one thread
      uses the cell. (If there were no value but the cell's, there would be nothing to observe.) */
  lemma LinearExactly<T(!new)>(s: State<T>, n: nat, x: T)
    requires Initial(s) && x != s.cell
    ensures (forall run :: Legal(s, run) && AtMost(s, run, n) ==> Linear(s.cell, Run(s, run).results))
            <==> n <= 1 || |s.threads| <= 1
  {
    if n <= 1 || |s.threads| <= 1 {
      forall run | Legal(s, run) && AtMost(s, run, n) ensures Linear(s.cell, Run(s, run).results) {
        NoOverlap(s, run, n);
        DisciplineExplains(s, run);
      }
    } else {
      var run := LostUpdate(s, n, x);
    }
  }

  /** Mutual exclusion under the weak exchange: exactly then, too. */
  lemma ExclusiveExactly<T(!new)>(s: State<T>, n: nat)
    requires Initial(s)
    ensures (forall run :: Legal(s, run) && AtMost(s, run, n) ==> Exclusive(Run(s, run)))
            <==> n <= 1 || |s.threads| <= 1
  {
    if n <= 1 || |s.threads| <= 1 {
      forall run | Legal(s, run) && AtMost(s, run, n) ensures Exclusive(Run(s, run)) {
        NoOverlap(s, run, n);
        ReachedInv(s, run);
      }
    } else {
      var run := TwoInside(s, n);
    }
  }

  lemma TwoInside<T>(s: State<T>, n: nat) returns (run: seq<Action<T>>)
    requires Initial(s) && n >= 2 && |s.threads| >= 2
    ensures Legal(s, run) && AtMost(s, run, n) && !Exclusive(Run(s, run))
  {
    var f := Apply((v: T) => Some(v));
    BeginBoth(s, 0, 1, f, f);
    var begin := [Begin(0, f, true)] + ([Begin(1, f, true)] + []);
    var c := Call(f, true, 0);
    var m := Run(s, begin);
    BothInside(m, 0, 1, c, c);
    var rest := [Spurious(1)] + ([TryLock(0)] + ([Read(0)] + ([Read(1)] + [])));
    RunConcat(s, begin, rest);
    run := begin + rest;
    OnlyOfConcat(begin, rest, 0, 1);
    assert Busy(s) == {};
    TwoBusy(s, run, 0, 1, n);
    hide Run, Legal, AtMost;
    var e := Run(s, run);
    assert Critical(e.threads[0].pc) && Critical(e.threads[1].pc);
  }

  // ---------------------------------------------------------------- exactly when swaps conserve

  /** Thread `a` owns a value that is not the cell's, and thread `b` owns something as well. */
  ghost predicate Rivals<T>(s: State<T>, a: nat, b: nat, x: T) {
    && a < |s.threads| && b < |s.threads| && a != b
    && x in s.threads[a].owned && x != s.cell && s.threads[b].owned != multiset{}
  }

  lemma RivalsLose<T>(s: State<T>, n: nat, a: nat, b: nat, x: T) returns (run: seq<Action<T>>)
    requires Initial(s) && n >= 2 && Rivals(s, a, b, x)
    ensures Legal(s, run) && AtMost(s, run, n) && SwapRun(run) && Total(Run(s, run)) != Total(s)
  {
    var y :| y in s.threads[b].owned;
    BeginBoth(s, a, b, Swap(x), Swap(y));
    var begin := [Begin(a, Swap(x), true)] + ([Begin(b, Swap(y), true)] + []);
    var m := Run(s, begin);
    var rest := SpuriousFailureLosesValue(m, a, b, Call(Swap(x), true, 0), Call(Swap(y), true, 0));
    RunConcat(s, begin, rest);
    run := begin + rest;
    OnlyOfConcat(begin, rest, a, b);
    assert Busy(s) == {};
    TwoBusy(s, run, a, b, n);
    BeginsConserve(s, a, b, x, y);
    hide Total, Run, Legal, AtMost;
  }

  lemma BeginsConserve<T>(s: State<T>, a: nat, b: nat, x: T, y: T)
    requires Initial(s) && a < |s.threads| && b < |s.threads| && a != b
    requires x in s.threads[a].owned && y in s.threads[b].owned
    ensures var begin := [Begin(a, Swap(x), true)] + ([Begin(b, Swap(y), true)] + []);
            Legal(s, begin) && Total(Run(s, begin)) == Total(s)
  {
    var s1 := Next(s, Begin(a, Swap(x), true));
    StepConserves(s, Begin(a, Swap(x), true));
    StepConserves(s1, Begin(b, Swap(y), true));
    Cons(s1, Begin(b, Swap(y), true), []);
    Cons(s, Begin(a, Swap(x), true), [Begin(b, Swap(y), true)] + []);
    hide Total;
  }

  /** All values in play are equal. */
  ghost predicate Uniform<T>(s: State<T>, z: T) {
    s.cell == z && forall t :: 0 <= t < |s.threads| ==> UniformThread(s.threads[t], z)
  }

  ghost predicate UniformThread<T>(th: Thread<T>, z: T) {
    && (forall v :: v in th.owned ==> v == z)
    && (!th.pc.Idle? ==> th.pc.call.op == Swap(z))
    && (th.pc.HasRead? ==> th.pc.first == z)
    && (th.pc.Releasing? && th.pc.result.Some? ==> th.pc.result.value == z)
  }

  lemma StepUniform<T>(s: State<T>, a: Action<T>, z: T)
    requires Uniform(s, z) && Enabled(s, a) && (a.Begin? ==> a.op.Swap?)
    ensures Uniform(Next(s, a), z)
  {
    var n := Next(s, a);
    assert UniformThread(s.threads[a.t], z);
    assert UniformThread(n.threads[a.t], z);
    forall t | 0 <= t < |n.threads| ensures UniformThread(n.threads[t], z) {
      assert t == a.t || n.threads[t] == s.threads[t];
    }
  }

  lemma {:induction false} UniformConserves<T>(s: State<T>, run: seq<Action<T>>, z: T)
    requires Uniform(s, z) && Legal(s, run) && SwapRun(run)
    ensures Total(Run(s, run)) == Total(s)
    decreases |run|
  {
    if run != [] {
      assert UniformThread(s.threads[run[0].t], z);
      StepUniform(s, run[0], z);
      StepConserves(s, run[0]);
      hide *;
      UniformConserves(Next(s, run[0]), run[1..], z);
    }
  }

  /** Nobody but thread `a` has anything to swap. */
  ghost predicate SoleOwner<T>(s: State<T>, a: nat) {
    forall t :: 0 <= t < |s.threads| && t != a ==> s.threads[t] == Thread(Idle, multiset{})
  }

  lemma {:induction false} SoleOwnerIsAlone<T>(s: State<T>, run: seq<Action<T>>, a: nat)
    requires SoleOwner(s, a) && Legal(s, run) && SwapRun(run)
    ensures AtMost(s, run, 1)
    decreases |run|
  {
    SubsetSize(Busy(s), {a});
    if run != [] {
      assert run[0].t == a;
      assert SoleOwner(Next(s, run[0]), a);
      hide Next, Busy, SoleOwner;
      SoleOwnerIsAlone(Next(s, run[0]), run[1..], a);
    }
  }

  /** Without rivals nothing is lost, however the calls overlap. */
  lemma NoRivalsConserve<T(!new)>(s: State<T>, run: seq<Action<T>>)
    requires Initial(s) && Legal(s, run) && SwapRun(run) && forall a: nat, b: nat, x :: !Rivals(s, a, b, x)
    ensures Total(Run(s, run)) == Total(s)
  {
    hide Run, Legal, Total, SwapRun;
    if a, x :| 0 <= a < |s.threads| && x in s.threads[a].owned && x != s.cell {
      forall t | 0 <= t < |s.threads| && t != a ensures s.threads[t] == Thread(Idle, multiset{}) {
        assert !Rivals(s, a, t, x);
      }
      SoleOwnerIsAlone(s, run, a);
      Conservation(s, run);
    } else {
      forall t | 0 <= t < |s.threads| ensures UniformThread(s.threads[t], s.cell) { }
      UniformConserves(s, run, s.cell);
    }
  }

  /** Conservation under the weak exchange: swaps lose and duplicate nothing, if and only if no two calls
      overlap, or nobody has a rival: just one thread owns anything, or all own what the cell holds. */
  lemma ConservesExactly<T(!new)>(s: State<T>, n: nat)
    requires Initial(s)
    ensures (forall run :: Legal(s, run) && AtMost(s, run, n) && SwapRun(run) ==> Total(Run(s, run)) == Total(s))
            <==> n <= 1 || forall a: nat, b: nat, x :: !Rivals(s, a, b, x)
  {
    hide Run, Legal, AtMost, SwapRun, Total;
    if n <= 1 {
      forall run | Legal(s, run) && AtMost(s, run, n) && SwapRun(run) ensures Total(Run(s, run)) == Total(s) {
        NoOverlap(s, run, n);
        Conservation(s, run);
      }
    } else if a: nat, b: nat, x :| Rivals(s, a, b, x) {
      var run := RivalsLose(s, n, a, b, x);
    } else {
      forall run | Legal(s, run) && AtMost(s, run, n) && SwapRun(run) ensures Total(Run(s, run)) == Total(s) {
        NoRivalsConserve(s, run);
      }
    }
  }
}
