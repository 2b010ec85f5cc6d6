/**
 The time-slot balancer as a value: a slab of entries, each with the time it has used and its
 number of slots, and the largest per-slot time seen so far.
 */
module TimingModel {
  import opened Options
  import opened SlabModel

  datatype TimeEntry = TimeEntry(sum: nat, slots: nat)

  datatype Group = Group(info: Slab<TimeEntry>, max: nat)

  /** `get_proportional` */
  function PerSlot(e: TimeEntry): nat { if e.slots == 0 then 0 else e.sum / e.slots }

  function MinTime(it: seq<(nat, TimeEntry)>): (m: nat)
    requires |it| > 0
    ensures exists i :: 0 <= i < |it| && PerSlot(it[i].1) == m
    ensures forall i :: 0 <= i < |it| ==> m <= PerSlot(it[i].1)
  {
    var p := PerSlot(it[0].1);
    if |it| == 1 then p
    else var rest := MinTime(it[1..]); if p <= rest then p else rest
  }

  /** nine tenths of the maximum, rounded down */
  function MinBound(max: nat): nat { max * 9 / 10 }

  /** `can_execute`: `None` is the panic for an unknown key. */
  function CanExecute(g: Group, key: nat): Option<bool> {
    var own := Get(g.info, key);
    if own.None? then None
    else
      var it := IterFrom(g.info, 0);
      var dur := PerSlot(own.value);
      if dur == g.max && (exists i :: 0 <= i < |it| && PerSlot(it[i].1) != dur) then Some(false)
      else if |it| > 0 && MinTime(it) <= MinBound(g.max) then Some(dur <= MinBound(g.max))
      else Some(true)
  }

  /** `update_duration`; an unknown key panics and changes nothing. */
  function Charge(g: Group, key: nat, d: nat): Group {
    var own := Get(g.info, key);
    if own.None? then g
    else
      var e := own.value.(sum := own.value.sum + d);
      Group(Update(g.info, key, e), if g.max >= PerSlot(e) then g.max else PerSlot(e))
  }

  /** One `LoadBalance::poll`: the gate, then the inner poll, which takes time `d`. */
  function Executes(g: Group, key: nat): bool { CanExecute(g, key) == Some(true) }

  /** A wrapper whose gate is closed does not run its future, and wakes itself instead. */
  function HeldBack(g: Group, key: nat): bool { !Executes(g, key) }

  function PollOnce(g: Group, key: nat, d: nat): Group {
    if Executes(g, key) then Charge(g, key, d) else g
  }

  function Entries(g: Group): map<nat, TimeEntry> { Contents(g.info) }

  // ---------------------------------------------------------------- the invariant of every run

  ghost predicate Valid(g: Group) {
    && SlabModel.Valid(g.info, USIZE)
    && (forall k :: k in Entries(g) ==> Entries(g)[k].slots > 0)
    && (forall k :: k in Entries(g) ==> PerSlot(Entries(g)[k]) <= g.max)
  }

  /** Some entry is at or below nine tenths of the maximum. */
  ghost predicate Starving(g: Group) {
    exists k :: k in Entries(g) && PerSlot(Entries(g)[k]) <= MinBound(g.max)
  }

  /** `can_execute` without the iterators. */
  lemma CanExecuteMeans(g: Group, key: nat)
    requires key in Entries(g)
    ensures Executes(g, key) <==>
              && (PerSlot(Entries(g)[key]) == g.max ==> forall k :: k in Entries(g) ==> PerSlot(Entries(g)[k]) == g.max)
              && (Starving(g) ==> PerSlot(Entries(g)[key]) <= MinBound(g.max))
  {
    hide PerSlot;
    var it := IterFrom(g.info, 0);
    MapOfGet(g.info);
    IterIsEntries(g);
    hide IterFrom;
    MinIsStarving(it, Entries(g), MinBound(g.max));
    AnyIsExists(it, Entries(g), g.max);
  }

  lemma IterIsEntries(g: Group)
    ensures Lists(IterFrom(g.info, 0), Entries(g))
  {
    var it := IterFrom(g.info, 0);
    IterAgrees(g.info, 0);
    MapOfGet(g.info);
    forall i | 0 <= i < |it| ensures it[i].0 in Entries(g) && Entries(g)[it[i].0] == it[i].1 {
      assert (it[i].0, it[i].1) in it;
    }
  }

  ghost predicate Lists(it: seq<(nat, TimeEntry)>, m: map<nat, TimeEntry>) {
    && (forall i :: 0 <= i < |it| ==> it[i].0 in m && m[it[i].0] == it[i].1)
    && (forall k :: k in m ==> (k, m[k]) in it)
  }

  lemma MinIsStarving(it: seq<(nat, TimeEntry)>, m: map<nat, TimeEntry>, b: nat)
    requires Lists(it, m)
    ensures |it| > 0 && MinTime(it) <= b <==> exists k :: k in m && PerSlot(m[k]) <= b
  {
    if k :| k in m && PerSlot(m[k]) <= b {
      assert (k, m[k]) in it;
    }
    if |it| > 0 && MinTime(it) <= b {
      var i :| 0 <= i < |it| && PerSlot(it[i].1) == MinTime(it);
      assert it[i].0 in m;
    }
  }

  lemma AnyIsExists(it: seq<(nat, TimeEntry)>, m: map<nat, TimeEntry>, t: nat)
    requires Lists(it, m)
    ensures (exists i :: 0 <= i < |it| && PerSlot(it[i].1) != t) <==> exists k :: k in m && PerSlot(m[k]) != t
  {
    if k :| k in m && PerSlot(m[k]) != t {
      assert (k, m[k]) in it;
    }
  }

  /** Nobody has used less time per slot than `key`. */
  ghost predicate IsLeast(g: Group, key: nat) {
    key in Entries(g) && forall k :: k in Entries(g) ==> PerSlot(Entries(g)[key]) <= PerSlot(Entries(g)[k])
  }

  /** No deadlock: whoever has used the least time per slot may run. */
  lemma LeastMayRun(g: Group, key: nat)
    requires Valid(g) && IsLeast(g, key)
    ensures Executes(g, key)
  {
    hide SlabModel.Valid;
    CanExecuteMeans(g, key);
  }

  // ---------------------------------------------------------------- arithmetic of one charge

  lemma DivAtMost(x: nat, n: nat, b: nat)
    requires n > 0
    ensures x / n <= b <==> x < n * (b + 1)
  {
    var q, r := x / n, x % n;
    assert x == n * q + r;
    if q <= b { MulMono(n, q + 1, b + 1); } else { MulMono(n, b + 1, q); }
  }

  lemma MulMono(n: nat, a: nat, b: nat)
    requires a <= b
    ensures n * a <= n * b
  {
    assert n * b == n * a + n * (b - a);
  }

  lemma ChargeGrowth(e: TimeEntry, d: nat)
    requires e.slots > 0
    ensures PerSlot(e) <= PerSlot(e.(sum := e.sum + d)) <= PerSlot(e) + d
  {
    var q := PerSlot(e);
    DivAtMost(e.sum, e.slots, q);
    DivAtMost(e.sum + d, e.slots, q + d);
    assert e.slots * (q + d + 1) == e.slots * (q + 1) + e.slots * d;
    MulMono(d, 1, e.slots);
    if q > 0 {
      DivAtMost(e.sum, e.slots, q - 1);
      DivAtMost(e.sum + d, e.slots, q - 1);
    }
  }

  lemma ChargeEntries(g: Group, key: nat, d: nat)
    requires Valid(g) && key in Entries(g)
    ensures var e := Entries(g)[key]; var h := Charge(g, key, d);
            && Entries(h) == Entries(g)[key := e.(sum := e.sum + d)]
            && PerSlot(e) <= PerSlot(Entries(h)[key]) <= PerSlot(e) + d
            && h.max == (if g.max >= PerSlot(Entries(h)[key]) then g.max else PerSlot(Entries(h)[key]))
            && Valid(h)
  {
    MapOfGet(g.info);
    var free :| Chain(g.info, USIZE, free);
    var e := Entries(g)[key];
    UpdateKeepsChain(g.info, USIZE, free, key, e.(sum := e.sum + d));
    ChargeGrowth(e, d);
  }

  // ---------------------------------------------------------------- in terms of time and slots

  /** The per-slot time is the time divided by the slots, rounded down. */
  lemma PerSlotMeans(e: TimeEntry)
    requires e.slots > 0
    ensures e.slots * PerSlot(e) <= e.sum < e.slots * (PerSlot(e) + 1)
  {
    DivAtMost(e.sum, e.slots, PerSlot(e));
    if PerSlot(e) > 0 { DivAtMost(e.sum, e.slots, PerSlot(e) - 1); }
  }

  /** The entry has used less than `b + 1` time units for each of its slots. */
  predicate Within(e: TimeEntry, b: nat) { e.sum < e.slots * (b + 1) }

  lemma WithinMeans(e: TimeEntry, b: nat)
    requires e.slots > 0
    ensures Within(e, b) <==> PerSlot(e) <= b
  {
    DivAtMost(e.sum, e.slots, b);
  }

  lemma AllWithin(m: map<nat, TimeEntry>, b: nat)
    requires forall k :: k in m ==> m[k].slots > 0
    ensures forall k :: k in m ==> (Within(m[k], b) <==> PerSlot(m[k]) <= b)
  {
    forall k | k in m ensures Within(m[k], b) <==> PerSlot(m[k]) <= b { WithinMeans(m[k], b); }
  }

  /** Somebody has used less than one time unit per slot more than nine tenths of the maximum. */
  ghost predicate Lagging(g: Group) {
    exists k :: k in Entries(g) && Within(Entries(g)[k], g.max * 9 / 10)
  }

  /** The gate, over times and slots alone: nobody exceeds the maximum; a member that has used up its
      slots times the maximum runs only if all have, and while somebody lags behind only laggards run. */
  lemma GateOverTime(g: Group, key: nat)
    requires Valid(g) && key in Entries(g)
    ensures forall k :: k in Entries(g) ==> Within(Entries(g)[k], g.max)
    ensures var m := Entries(g);
            Executes(g, key) <==>
              && (m[key].sum >= m[key].slots * g.max ==> forall k :: k in m ==> m[k].sum >= m[k].slots * g.max)
              && (Lagging(g) ==> Within(m[key], g.max * 9 / 10))
  {
    var m := Entries(g);
    CanExecuteMeans(g, key);
    AllWithin(m, g.max);
    AllWithin(m, MinBound(g.max));
    forall k | k in m ensures PerSlot(m[k]) == g.max <==> m[k].sum >= m[k].slots * g.max { AtMaximum(m[k], g.max); }
    hide PerSlot, Within, SlabModel.Valid, CanExecute;
    assert Starving(g) <==> Lagging(g);
  }

  lemma AtMaximum(e: TimeEntry, max: nat)
    requires e.slots > 0 && PerSlot(e) <= max
    ensures PerSlot(e) == max <==> e.sum >= e.slots * max
  {
    if max > 0 { DivAtMost(e.sum, e.slots, max - 1); }
  }

  /** One charge: the maximum is the greater one of the old maximum and the charged per-slot time. */
  lemma ChargeOverTime(g: Group, key: nat, d: nat)
    requires Valid(g) && key in Entries(g)
    ensures var e := Entries(g)[key]; var h := Charge(g, key, d);
            && Entries(h) == Entries(g)[key := TimeEntry(e.sum + d, e.slots)]
            && g.max <= h.max && e.sum + d < e.slots * (h.max + 1)
            && (h.max > g.max ==> e.slots * h.max <= e.sum + d)
  {
    ChargeEntries(g, key, d);
    var e := Entries(Charge(g, key, d))[key];
    PerSlotMeans(e);
    MulMono(e.slots, PerSlot(e) + 1, Charge(g, key, d).max + 1);
  }

  // ---------------------------------------------------------------- fairness

  /** After the first `10 * D` units per slot, nobody is below nine tenths of the most advanced
      entry, less one charge. */
  ghost predicate Fair(g: Group, D: nat) {
    g.max <= 10 * D || forall k :: k in Entries(g) ==> 10 * PerSlot(Entries(g)[k]) > 9 * (g.max - D)
  }

  /** The same over times and slots: beyond the first `10 * D` units per slot, every member has had more
      than nine tenths of its slots' share of the maximum less one charge. */
  ghost predicate Balanced(g: Group, D: nat) {
    g.max <= 10 * D ||
    forall k :: k in Entries(g) ==> 10 * Entries(g)[k].sum > Entries(g)[k].slots * (9 * (g.max - D))
  }

  lemma FairIsBalanced(g: Group, D: nat)
    requires Valid(g) && Fair(g, D)
    ensures Balanced(g, D)
  {
    if g.max > 10 * D {
      forall k | k in Entries(g) ensures 10 * Entries(g)[k].sum > Entries(g)[k].slots * (9 * (g.max - D)) {
        var e := Entries(g)[k];
        PerSlotMeans(e);
        SlotShare(e.slots, PerSlot(e), e.sum, 9 * (g.max - D));
      }
    }
  }

  lemma SlotShare(n: nat, p: nat, sum: nat, x: nat)
    requires n > 0 && n * p <= sum && 10 * p > x
    ensures 10 * sum > n * x
  {
    MulMono(n, x + 1, 10 * p);
    assert n * (10 * p) == 10 * (n * p);
    assert n * (x + 1) == n * x + n;
  }

  lemma FairStep(g: Group, key: nat, d: nat, D: nat)
    requires Valid(g) && Fair(g, D) && d <= D
    ensures Fair(PollOnce(g, key, d), D)
  {
    if Executes(g, key) {
      MapOfGet(g.info);
      CanExecuteMeans(g, key);
      ChargeEntries(g, key, d);
    }
  }

  // ---------------------------------------------------------------- every call of the interface

  datatype Op =
    | Join(slots: nat)            // insert
    | Leave(key: nat)             // remove, and the drop of a wrapper
    | Reset                       // clear
    | Spend(key: nat, d: nat)     // update_duration without the gate
    | Poll(key: nat, d: nat)      // LoadBalance::poll

  const EMPTY := Group(EmptySlab(), 0)

  /** A call that panics (no slots, no such key, no room) leaves the group as it is. */
  function Step(g: Group, op: Op): Group {
    match op
    case Join(slots) =>
      var r := Insert(g.info, USIZE, TimeEntry(0, slots));
      if slots > 0 && r.Inserted? then Group(r.slab, g.max) else g
    case Leave(key) => Group(Remove(g.info, key), g.max)
    case Reset => EMPTY
    case Spend(key, d) => Charge(g, key, d)
    case Poll(key, d) => PollOnce(g, key, d)
  }

  lemma EmptyIsValid()
    ensures Valid(EMPTY) && Entries(EMPTY) == map[]
  {
    EmptyValid<TimeEntry>(USIZE);
  }

  function Run(g: Group, ops: seq<Op>): Group
    decreases |ops|
  {
    if ops == [] then g else Run(Step(g, ops[0]), ops[1..])
  }

  lemma StepValid(g: Group, op: Op)
    requires Valid(g)
    ensures Valid(Step(g, op))
  {
    hide SlabModel.Valid;
    MapOfGet(g.info);
    match op
    case Join(slots) =>
      if slots > 0 && Insert(g.info, USIZE, TimeEntry(0, slots)).Inserted? {
        InsertContents(g.info, USIZE, TimeEntry(0, slots));
      }
    case Leave(key) =>
      RemoveOutcome(g.info, USIZE, key);
      RemoveMap(g.info, key);
    case Reset =>
      EmptyValid<TimeEntry>(USIZE);
    case Spend(key, d) =>
      if key in Entries(g) { ChargeEntries(g, key, d); }
    case Poll(key, d) =>
      if key in Entries(g) { ChargeEntries(g, key, d); }
  }

  /** In every reachable group the maximum dominates, so somebody may always run. */
  lemma {:induction false} NeverDeadlocks(g: Group, ops: seq<Op>)
    requires Valid(g)
    ensures var h := Run(g, ops);
            && Valid(h)
            && (Entries(h) != map[] ==> exists key :: key in Entries(h) && Executes(h, key))
    decreases |ops|
  {
    hide SlabModel.Valid;
    if ops == [] {
      if Entries(g) != map[] { var key := Least(g); LeastMayRun(g, key); }
    } else {
      StepValid(g, ops[0]);
      NeverDeadlocks(Step(g, ops[0]), ops[1..]);
    }
  }

  lemma Least(g: Group) returns (key: nat)
    requires Entries(g) != map[]
    ensures IsLeast(g, key)
  {
    var it := IterFrom(g.info, 0);
    IterIsEntries(g);
    var k :| k in Entries(g);
    assert (k, Entries(g)[k]) in it;
    var i :| 0 <= i < |it| && PerSlot(it[i].1) == MinTime(it);
    key := it[i].0;
    hide PerSlot;
    forall j | j in Entries(g) ensures PerSlot(Entries(g)[key]) <= PerSlot(Entries(g)[j]) {
      assert (j, Entries(g)[j]) in it;
      var n :| 0 <= n < |it| && it[n] == (j, Entries(g)[j]);
      assert MinTime(it) <= PerSlot(it[n].1);
    }
  }

  /** Only gated polls that take at most `D`, and departures. */
  ghost predicate Steady(ops: seq<Op>, D: nat) {
    forall i :: 0 <= i < |ops| ==> ops[i].Leave? || (ops[i].Poll? && ops[i].d <= D)
  }

  /** Quantitative fairness: on a fixed or shrinking set of entries the bound, once true, stays
      true; it is true of every group whose clock has not started. */
  lemma {:induction false} FairRun(g: Group, ops: seq<Op>, D: nat)
    requires Valid(g) && (g.max == 0 || Fair(g, D)) && Steady(ops, D)
    ensures Valid(Run(g, ops)) && Fair(Run(g, ops), D) && Balanced(Run(g, ops), D)
    decreases |ops|
  {
    hide SlabModel.Valid;
    if ops == [] {
      FairIsBalanced(g, D);
    } else {
      StepValid(g, ops[0]);
      assert ops[0] in ops;
      match ops[0] {
        case Leave(key) => RemoveMap(g.info, key);
        case Poll(key, d) => FairStep(g, key, d, D);
      }
      FairRun(Step(g, ops[0]), ops[1..], D);
    }
  }

  // ---------------------------------------------------------------- catching up

  /** The time an entry may still use before it passes the bound `b`. */
  function Lag(c: Entry<TimeEntry>, b: nat): nat {
    if c.Full? && c.value.sum < c.value.slots * (b + 1) then c.value.slots * (b + 1) - c.value.sum else 0
  }

  function Backlog(cells: seq<Entry<TimeEntry>>, b: nat): nat {
    if cells == [] then 0 else Backlog(cells[..|cells| - 1], b) + Lag(cells[|cells| - 1], b)
  }

  lemma {:induction false} BacklogUpdate(cells: seq<Entry<TimeEntry>>, k: nat, c: Entry<TimeEntry>, b: nat)
    requires k < |cells|
    ensures Backlog(cells[k := c], b) + Lag(cells[k], b) == Backlog(cells, b) + Lag(c, b)
  {
    hide Lag;
    var n := |cells| - 1;
    if k == n {
      assert cells[k := c][..n] == cells[..n];
    } else {
      BacklogUpdate(cells[..n], k, c, b);
      assert cells[k := c][..n] == cells[..n][k := c];
    }
  }

  /** While somebody starves and the maximum is at least `10 * D`, the maximum is frozen, only
      entries at or below the bound run, and every charge shortens the backlog. */
  lemma CatchUpStep(g: Group, key: nat, d: nat, D: nat)
    requires Valid(g) && Starving(g) && g.max >= 10 * D && Executes(g, key) && 1 <= d <= D
    ensures key in Entries(g) && PerSlot(Entries(g)[key]) <= MinBound(g.max)
    ensures var h := Charge(g, key, d);
            && h.max == g.max
            && Backlog(h.info.cells, MinBound(g.max)) < Backlog(g.info.cells, MinBound(g.max))
  {
    hide SlabModel.Valid;
    MapOfGet(g.info);
    CanExecuteMeans(g, key);
    ChargeEntries(g, key, d);
    var b := MinBound(g.max);
    var e := Entries(g)[key];
    DivAtMost(e.sum, e.slots, b);
    BacklogUpdate(g.info.cells, key, Full(e.(sum := e.sum + d)), b);
  }

  lemma NotStarvingIsFair(g: Group, D: nat)
    requires Valid(g) && !Starving(g)
    ensures Fair(g, D)
  {
    hide SlabModel.Valid;
    hide PerSlot;
  }

  /** How many of the polls passed the gate. */
  function Executed(g: Group, ops: seq<Op>): nat
    decreases |ops|
  {
    if ops == [] then 0
    else (if ops[0].Poll? && Executes(g, ops[0].key) then 1 else 0) + Executed(Step(g, ops[0]), ops[1..])
  }

  /** Gated polls that take some time, but at most `D`, and departures. */
  ghost predicate Moves(ops: seq<Op>, D: nat) {
    forall i :: 0 <= i < |ops| ==> ops[i].Leave? || (ops[i].Poll? && 1 <= ops[i].d <= D)
  }

  /** A departure keeps the maximum and can only shorten the backlog; that of a lagging entry does. */
  lemma LeaveShortens(g: Group, key: nat)
    requires Valid(g)
    ensures var h := Step(g, Leave(key)); var b := MinBound(g.max);
            && h.max == g.max && Backlog(h.info.cells, b) <= Backlog(g.info.cells, b)
            && (key in Entries(g) && PerSlot(Entries(g)[key]) <= b ==>
                  Backlog(h.info.cells, b) < Backlog(g.info.cells, b))
  {
    hide SlabModel.Valid;
    MapOfGet(g.info);
    var b := MinBound(g.max);
    if key in Entries(g) {
      var e := Entries(g)[key];
      DivAtMost(e.sum, e.slots, b);
      BacklogUpdate(g.info.cells, key, Empty(g.info.next), b);
    }
  }

  /** How many of the moves executed a member, or took the neediest one out. */
  ghost function Progress(g: Group, ops: seq<Op>): nat
    decreases |ops|
  {
    if ops == [] then 0
    else
      (if (ops[0].Poll? && Executes(g, ops[0].key)) || (ops[0].Leave? && IsLeast(g, ops[0].key)) then 1 else 0)
      + Progress(Step(g, ops[0]), ops[1..])
  }

  lemma {:induction false} ExecutedIsProgress(g: Group, ops: seq<Op>)
    ensures Executed(g, ops) <= Progress(g, ops)
    decreases |ops|
  {
    hide Step, Executes, IsLeast;
    if ops != [] { ExecutedIsProgress(Step(g, ops[0]), ops[1..]); }
  }

  /** One move of a group in which somebody starves. */
  lemma CatchUpMove(g: Group, op: Op, D: nat)
    requires Valid(g) && Starving(g) && g.max >= 10 * D && Moves([op], D)
    ensures var h := Step(g, op); var b := MinBound(g.max);
            h.max == g.max && Progress(g, [op]) + Backlog(h.info.cells, b) <= Backlog(g.info.cells, b)
  {
    hide SlabModel.Valid, Backlog;
    assert [op][0] == op && [op][1..] == [];
    match op {
      case Leave(key) =>
        LeaveShortens(g, key);
        if IsLeast(g, key) { LeastLags(g, key); }
      case Poll(key, d) => if Executes(g, key) { CatchUpStep(g, key, d, D); }
    }
  }

  lemma LeastLags(g: Group, key: nat)
    requires Starving(g) && IsLeast(g, key)
    ensures PerSlot(Entries(g)[key]) <= MinBound(g.max)
  {
    hide PerSlot;
  }

  /** Somebody starves before every step of the run. */
  ghost predicate StarvesThroughout(g: Group, ops: seq<Op>)
    decreases |ops|
  {
    ops == [] || (Starving(g) && StarvesThroughout(Step(g, ops[0]), ops[1..]))
  }

  /** The catch-up phase: as long as somebody starves, the maximum is frozen and the progress, executed
      polls above all, is paid out of the backlog, so the phase ends before the backlog is used up. */
  lemma {:induction false} CatchUpPhase(g: Group, ops: seq<Op>, D: nat)
    requires Valid(g) && g.max >= 10 * D && Moves(ops, D) && StarvesThroughout(g, ops)
    ensures var b := MinBound(g.max); var h := Run(g, ops);
            && h.max == g.max
            && Executed(g, ops) <= Progress(g, ops)
            && Progress(g, ops) + Backlog(h.info.cells, b) <= Backlog(g.info.cells, b)
    decreases |ops|
  {
    hide SlabModel.Valid, Backlog;
    ExecutedIsProgress(g, ops);
    if ops != [] {
      assert ops[0] in ops;
      StepValid(g, ops[0]);
      CatchUpMove(g, ops[0], D);
      ProgressStep(g, ops);
      hide Step, Progress;
      CatchUpPhase(Step(g, ops[0]), ops[1..], D);
    }
  }

  lemma ProgressStep(g: Group, ops: seq<Op>)
    requires ops != []
    ensures Progress(g, ops) == Progress(g, [ops[0]]) + Progress(Step(g, ops[0]), ops[1..])
  {
    hide Step, Executes, IsLeast;
    assert [ops[0]][0] == ops[0] && [ops[0]][1..] == [];
  }

  /** From any reachable group, however unbalanced (a newcomer starts at zero): the group gets fair, or
      the maximum is frozen and the progress is paid out of the backlog. */
  lemma {:induction false} FairOrPaid(g: Group, ops: seq<Op>, D: nat)
    requires Valid(g) && Moves(ops, D)
    ensures var b := MinBound(g.max); var h := Run(g, ops);
            || Fair(h, D)
            || (h.max == g.max && Progress(g, ops) + Backlog(h.info.cells, b) <= Backlog(g.info.cells, b))
    decreases |ops|
  {
    hide SlabModel.Valid, Backlog;
    if Fair(g, D) {
      FairRun(g, ops, D);
    } else if ops != [] {
      if !Starving(g) { NotStarvingIsFair(g, D); }
      assert ops[0] in ops;
      StepValid(g, ops[0]);
      CatchUpMove(g, ops[0], D);
      ProgressStep(g, ops);
      hide Step, Fair, Progress;
      FairOrPaid(Step(g, ops[0]), ops[1..], D);
    }
  }

  /** Hence the group is fair again after more executed polls, or more progress, than the backlog is
      long. */
  lemma Recovers(g: Group, ops: seq<Op>, D: nat)
    requires Valid(g) && Moves(ops, D)
    ensures Executed(g, ops) > Backlog(g.info.cells, MinBound(g.max)) ==> Fair(Run(g, ops), D)
    ensures Progress(g, ops) > Backlog(g.info.cells, MinBound(g.max)) ==> Fair(Run(g, ops), D)
  {
    ExecutedIsProgress(g, ops);
    FairOrPaid(g, ops, D);
  }

  // ---------------------------------------------------------------- rounds

  /** Every member is polled, or leaves. */
  ghost predicate Round(g: Group, ops: seq<Op>) {
    forall k :: k in Entries(g) ==> Turn(ops, k)
  }

  ghost predicate Turn(ops: seq<Op>, key: nat) {
    exists i :: 0 <= i < |ops| && (ops[i] == Leave(key) || (ops[i].Poll? && ops[i].key == key))
  }

  lemma TurnTail(ops: seq<Op>, key: nat)
    requires Turn(ops, key)
    ensures Turn(ops[..1], key) || Turn(ops[1..], key)
  {
    var i :| 0 <= i < |ops| && (ops[i] == Leave(key) || (ops[i].Poll? && ops[i].key == key));
    if i == 0 { assert ops[..1][0] == ops[0]; } else { assert ops[1..][i - 1] == ops[i]; }
  }

  /** Once the neediest member has had its turn, somebody has been executed or the neediest has left. */
  lemma {:induction false} TurnExecutes(g: Group, ops: seq<Op>, D: nat, key: nat)
    requires Valid(g) && IsLeast(g, key) && Moves(ops, D) && Turn(ops, key)
    ensures Executed(g, ops) >= 1 || Leave(key) in ops
    decreases |ops|
  {
    hide SlabModel.Valid;
    LeastMayRun(g, key);
    TurnTail(ops, key);
    assert ops[0] in ops;
    if ops[0] != Leave(key) && !(ops[0].Poll? && Executes(g, ops[0].key)) {
      var h := Step(g, ops[0]);
      StepValid(g, ops[0]);
      if ops[0].Leave? { RemoveMap(g.info, ops[0].key); }
      assert IsLeast(h, key);
      hide Step, Executes;
      TurnExecutes(h, ops[1..], D, key);
    }
  }

  /** A round of a non-empty group in which nobody leaves executes somebody. */
  lemma RoundExecutes(g: Group, ops: seq<Op>, D: nat)
    requires Valid(g) && Entries(g) != map[] && Moves(ops, D) && Round(g, ops)
    ensures Executed(g, ops) >= 1 || exists k :: k in Entries(g) && Leave(k) in ops
  {
    hide SlabModel.Valid;
    var key := Least(g);
    TurnExecutes(g, ops, D, key);
  }

  /** A round of an unfair group makes it fair or shortens its backlog, whoever leaves. */
  lemma {:induction false} TurnShortens(g: Group, ops: seq<Op>, D: nat, key: nat)
    requires Valid(g) && IsLeast(g, key) && Moves(ops, D) && Turn(ops, key)
    ensures var b := MinBound(g.max); var h := Run(g, ops);
            Fair(h, D) || (h.max == g.max && Backlog(h.info.cells, b) < Backlog(g.info.cells, b))
    decreases |ops|
  {
    hide SlabModel.Valid, Backlog;
    if Fair(g, D) {
      FairRun(g, ops, D);
    } else {
      if !Starving(g) { NotStarvingIsFair(g, D); }
      var h := Step(g, ops[0]);
      assert ops[0] in ops && Moves(ops[1..], D);
      StepValid(g, ops[0]);
      FairOrPaid(h, ops[1..], D);
      TurnTail(ops, key);
      if ops[0] == Leave(key) {
        LeaveShortens(g, key);
      } else if ops[0].Leave? {
        LeaveShortens(g, ops[0].key);
        RemoveMap(g.info, ops[0].key);
        TurnShortens(h, ops[1..], D, key);
      } else if Executes(g, ops[0].key) {
        CatchUpStep(g, ops[0].key, ops[0].d, D);
      } else {
        LeastMayRun(g, key);
        TurnShortens(h, ops[1..], D, key);
      }
    }
  }

  lemma RunOne(g: Group, op: Op)
    ensures Run(g, [op]) == Step(g, op)
    ensures Executed(g, [op]) == if op.Poll? && Executes(g, op.key) then 1 else 0
  {
    assert [op][0] == op && [op][1..] == [];
    hide Step;
    assert Run(Step(g, op), []) == Step(g, op);
  }

  lemma RunTwo(g: Group, op: Op, last: Op)
    ensures Run(g, [op, last]) == Step(Step(g, op), last)
    ensures op.Poll? && Executes(g, op.key) ==> Executed(g, [op, last]) > 0
  {
    assert [op, last] == [op] + [last];
    RunConcat(g, [op], [last]);
    RunOne(g, op);
    RunOne(Step(g, op), last);
  }

  /** A newcomer gets a key of its own and starts at zero. */
  lemma JoinEntries(g: Group, slots: nat) returns (key: nat)
    requires Valid(g) && g.info.len < USIZE.count && slots > 0
    ensures key !in Entries(g) && Entries(Step(g, Join(slots))) == Entries(g)[key := TimeEntry(0, slots)]
  {
    hide SlabModel.Valid;
    InsertOutcome(g.info, USIZE, TimeEntry(0, slots));
    InsertContents(g.info, USIZE, TimeEntry(0, slots));
    key := Insert(g.info, USIZE, TimeEntry(0, slots)).key;
  }

  lemma LeaveEntries(g: Group, key: nat)
    ensures Entries(Step(g, Leave(key))) == Entries(g) - {key}
  {
    RemoveMap(g.info, key);
  }

  /** Polls and departures bring nobody in. */
  lemma {:induction false} MovesShrink(g: Group, ops: seq<Op>)
    requires Valid(g) && forall i :: 0 <= i < |ops| ==> ops[i].Leave? || ops[i].Poll?
    ensures Entries(Run(g, ops)).Keys <= Entries(g).Keys
    decreases |ops|
  {
    hide SlabModel.Valid;
    if ops != [] {
      assert ops[0] in ops;
      StepValid(g, ops[0]);
      MapOfGet(g.info);
      if ops[0].Leave? {
        LeaveEntries(g, ops[0].key);
      } else if ops[0].key in Entries(g) {
        ChargeEntries(g, ops[0].key, ops[0].d);
      }
      MovesShrink(Step(g, ops[0]), ops[1..]);
    }
  }

  // ---------------------------------------------------------------- members that get no turn

  /** The members of `away` get no turn, for instance because their tasks are suspended. */
  ghost predicate Absent(ops: seq<Op>, away: set<nat>) { forall k :: k in away ==> !Turn(ops, k) }

  ghost predicate Present(g: Group, away: set<nat>, k: nat) { k in Entries(g) && k !in away }

  /** The others are locked out: there are none; or somebody starves and none of them does; or all of
      them are at the maximum and somebody absent is below it. */
  ghost predicate Blocked(g: Group, away: set<nat>) {
    || (forall k :: !Present(g, away, k))
    || (Starving(g) && forall k :: Present(g, away, k) ==> PerSlot(Entries(g)[k]) > MinBound(g.max))
    || ((forall k :: Present(g, away, k) ==> PerSlot(Entries(g)[k]) == g.max)
        && exists k :: k in Entries(g) && k in away && PerSlot(Entries(g)[k]) < g.max)
  }

  lemma BlockedHoldsBack(g: Group, away: set<nat>, key: nat)
    requires Blocked(g, away) && key !in away
    ensures !Executes(g, key)
  {
    MapOfGet(g.info);
    if key in Entries(g) {
      CanExecuteMeans(g, key);
      assert Present(g, away, key);
      hide PerSlot, CanExecute;
    }
  }

  lemma BlockedStays(g: Group, away: set<nat>, key: nat)
    requires Blocked(g, away) && key !in away
    ensures Blocked(Step(g, Leave(key)), away)
  {
    hide PerSlot;
    LeaveEntries(g, key);
    var h := Step(g, Leave(key));
    assert forall k :: Present(h, away, k) ==> Present(g, away, k);
    assert forall k :: k in away && k in Entries(g) ==> k in Entries(h);
  }

  lemma AbsentTail(ops: seq<Op>, away: set<nat>)
    requires Absent(ops, away) && ops != []
    ensures ops[0].Leave? || ops[0].Poll? ==> ops[0].key !in away
    ensures Absent(ops[1..], away)
  {
    forall k | k in away ensures !Turn(ops[1..], k) {
      assert !Turn(ops, k);
      assert forall i :: 0 <= i < |ops[1..]| ==> ops[1..][i] == ops[i + 1];
    }
    if (ops[0].Leave? || ops[0].Poll?) && ops[0].key in away { assert Turn(ops, ops[0].key); }
  }

  lemma {:induction false} BlockedExecutesNobody(g: Group, ops: seq<Op>, D: nat, away: set<nat>)
    requires Blocked(g, away) && Moves(ops, D) && Absent(ops, away)
    ensures Executed(g, ops) == 0
    decreases |ops|
  {
    if ops != [] {
      assert ops[0] in ops;
      AbsentTail(ops, away);
      if ops[0].Leave? { BlockedStays(g, away, ops[0].key); } else { BlockedHoldsBack(g, away, ops[0].key); }
      hide Step, Executes, Blocked, Absent;
      BlockedExecutesNobody(Step(g, ops[0]), ops[1..], D, away);
    }
  }

  /** Unless the others are locked out, one of them may run at once. */
  lemma SomebodyPresentRuns(g: Group, away: set<nat>) returns (key: nat)
    requires Valid(g) && !Blocked(g, away)
    ensures Present(g, away, key) && Executes(g, key)
  {
    hide SlabModel.Valid;
    if Starving(g) {
      key :| Present(g, away, key) && PerSlot(Entries(g)[key]) <= MinBound(g.max);
    } else if k :| Present(g, away, k) && PerSlot(Entries(g)[k]) < g.max {
      key := k;
    } else {
      key :| Present(g, away, key);
      forall k | k in Entries(g) ensures PerSlot(Entries(g)[k]) == g.max {
        assert Present(g, away, k) || k in away;
      }
    }
    CanExecuteMeans(g, key);
  }

  /** Why every member must get its turns: without those of the members of `away`, nobody ever executes
      again, whoever is polled and whoever leaves, if and only if the others are locked out. */
  lemma BlockedExactly(g: Group, away: set<nat>, D: nat)
    requires Valid(g) && D >= 1
    ensures (forall ops :: Moves(ops, D) && Absent(ops, away) ==> Executed(g, ops) == 0) <==> Blocked(g, away)
  {
    if Blocked(g, away) {
      forall ops | Moves(ops, D) && Absent(ops, away) ensures Executed(g, ops) == 0 {
        BlockedExecutesNobody(g, ops, D, away);
      }
    } else {
      var key := SomebodyPresentRuns(g, away);
      RunOne(g, Poll(key, 1));
      var ops := [Poll(key, 1)];
      assert Moves(ops, D) && Absent(ops, away) && Executed(g, ops) == 1;
    }
  }

  /** `key` is the only member at or below the bound. */
  ghost predicate AloneBehind(g: Group, key: nat) {
    && key in Entries(g) && PerSlot(Entries(g)[key]) <= MinBound(g.max)
    && forall k :: k in Entries(g) && k != key ==> PerSlot(Entries(g)[k]) > MinBound(g.max)
  }

  /** For instance, while the only member behind gets no turn, nobody executes, and this stays so. */
  lemma AbsenteeBlocks(g: Group, ops: seq<Op>, D: nat, key: nat)
    requires Valid(g) && AloneBehind(g, key) && Moves(ops, D) && !Turn(ops, key)
    ensures Executed(g, ops) == 0 && AloneBehind(Run(g, ops), key)
  {
    hide PerSlot;
    assert Blocked(g, {key});
    assert Absent(ops, {key});
    BlockedExecutesNobody(g, ops, D, {key});
    OnlyDepartures(g, ops, D);
  }

  lemma {:induction false} OnlyDepartures(g: Group, ops: seq<Op>, D: nat)
    requires Moves(ops, D) && Executed(g, ops) == 0
    ensures var h := Run(g, ops);
            && h.max == g.max
            && (forall k :: k in Entries(h) ==> k in Entries(g) && Entries(h)[k] == Entries(g)[k])
            && (forall k :: k in Entries(g) && !Turn(ops, k) ==> k in Entries(h))
    decreases |ops|
  {
    if ops != [] {
      assert ops[0] in ops;
      var h := Step(g, ops[0]);
      if ops[0].Leave? { LeaveEntries(g, ops[0].key); }
      hide Step, Entries, Executes;
      OnlyDepartures(h, ops[1..], D);
      forall k | !Turn(ops, k) ensures !Turn(ops[1..], k) && ops[0] != Leave(k) {
        assert forall i :: 0 <= i < |ops[1..]| ==> ops[1..][i] == ops[i + 1];
      }
    }
  }

  /** Two members that have used `x` and `y`, the second one the most. */
  ghost predicate Pair(g: Group, a: nat, b: nat, x: nat, y: nat) {
    && Valid(g) && a != b && g.max == y
    && Entries(g) == map[a := TimeEntry(x, 1), b := TimeEntry(y, 1)]
  }

  /** From the empty group: two members with one slot each join, and both run once. */
  lemma PairReached(x: nat, y: nat) returns (ops: seq<Op>, a: nat, b: nat)
    requires 0 < x <= y
    ensures Pair(Run(EMPTY, ops), a, b, x, y)
  {
    var g2;
    ops, g2, a, b := JoinTwo(1, 1);
    assert Pair(g2, a, b, 0, 0);
    var g3 := Step(g2, Poll(a, x));
    FirstPoll(g2, a, b, x);
    SecondPoll(g3, a, b, x, y);
    RunOne(g2, Poll(a, x));
    RunOne(g3, Poll(b, y));
    RunConcat(g2, [Poll(a, x)], [Poll(b, y)]);
    RunConcat(EMPTY, ops, [Poll(a, x)] + [Poll(b, y)]);
    ops := ops + ([Poll(a, x)] + [Poll(b, y)]);
    hide *;
  }

  lemma FirstPoll(g: Group, a: nat, b: nat, x: nat)
    requires Pair(g, a, b, 0, 0)
    ensures Pair(Step(g, Poll(a, x)), b, a, 0, x)
  {
    CanExecuteMeans(g, a);
    ChargeEntries(g, a, x);
  }

  lemma SecondPoll(g: Group, a: nat, b: nat, x: nat, y: nat)
    requires Pair(g, b, a, 0, x) && 0 < x <= y
    ensures Pair(Step(g, Poll(b, y)), a, b, x, y)
  {
    CanExecuteMeans(g, b);
    ChargeEntries(g, b, y);
  }

  /** Both ways of being locked out are reached: a member left behind, and one that is just not at the
      maximum. In either case the other member is never executed again while this one is away. */
  lemma BlockedIsReached(close: bool) returns (ops: seq<Op>, away: nat, other: nat)
    ensures var g := Run(EMPTY, ops);
            && Valid(g) && away != other && Entries(g).Keys == {away, other}
            && Blocked(g, {away}) && !Blocked(g, {other})
            && (close <==> !Starving(g)) && (!close ==> AloneBehind(g, away))
  {
    ops, away, other := PairReached(if close then 95 else 10, 100);
    var g := Run(EMPTY, ops);
    assert MinBound(100) == 90;
    assert Present(g, {other}, away) && Present(g, {away}, other);
    assert forall k :: Present(g, {away}, k) ==> k == other;
    hide Run, Valid, Entries;
  }

  // ---------------------------------------------------------------- what each call does

  /** `h` is `g` with this entry charged: its time grows by `d`, the others keep theirs, and the maximum
      is at least everybody's and grows only to what the charged entry has used per slot. */
  ghost predicate Charged(g: Group, h: Group, key: nat, d: nat) {
    && key in Entries(g)
    && Entries(h) == Entries(g)[key := TimeEntry(Entries(g)[key].sum + d, Entries(g)[key].slots)]
    && g.max <= h.max && Entries(g)[key].sum + d < Entries(g)[key].slots * (h.max + 1)
    && (h.max > g.max ==> Entries(g)[key].slots * h.max <= Entries(g)[key].sum + d)
  }

  /** What the calls do to the entries and the maximum. */
  lemma StepMeans(g: Group, op: Op)
    requires Valid(g) && g.info.len < USIZE.count
    ensures var h := Step(g, op);
            match op
            case Join(slots) =>
              if slots == 0 then h == g
              else h.max == g.max && exists k: nat ::
                     k !in Entries(g) && Entries(h) == Entries(g)[k := TimeEntry(0, slots)]
            case Leave(key) => h.max == g.max && Entries(h) == Entries(g) - {key}
            case Reset => h.max == 0 && Entries(h) == map[]
            case Spend(key, d) => if key in Entries(g) then Charged(g, h, key, d) else h == g
            case Poll(key, d) => if key in Entries(g) && Executes(g, key) then Charged(g, h, key, d) else h == g
  {
    hide SlabModel.Valid, Executes;
    MapOfGet(g.info);
    match op {
      case Join(slots) => if slots > 0 { var k := JoinEntries(g, slots); }
      case Leave(key) => LeaveEntries(g, key);
      case Reset => EmptyIsValid();
      case Spend(key, d) => if key in Entries(g) { ChargeOverTime(g, key, d); }
      case Poll(key, d) => if key in Entries(g) { ChargeOverTime(g, key, d); }
    }
  }

  // ---------------------------------------------------------------- where the maximum comes from

  /** Some member has, or has had within these calls, used exactly `m` per slot. */
  ghost predicate Attained(g: Group, ops: seq<Op>, m: nat)
    decreases |ops|
  {
    || (exists k :: k in Entries(g) && PerSlot(Entries(g)[k]) == m)
    || (ops != [] && Attained(Step(g, ops[0]), ops[1..], m))
  }

  /** A call raises the maximum only to what a member has used then. */
  lemma MaxStep(g: Group, op: Op)
    requires Valid(g) && op != Reset
    ensures var h := Step(g, op);
            g.max <= h.max && (h.max > g.max ==> exists k :: k in Entries(h) && PerSlot(Entries(h)[k]) == h.max)
  {
    hide SlabModel.Valid;
    if op.Spend? || op.Poll? {
      MapOfGet(g.info);
      if op.key in Entries(g) {
        ChargeEntries(g, op.key, op.d);
        assert op.key in Entries(Charge(g, op.key, op.d));
      }
    }
  }

  /** The maximum is the largest per-slot time that any member has had since the group was cleared,
      members that have left included: it never falls, bounds everybody, and was somebody's. */
  lemma {:induction false} MaxIsAttained(g: Group, ops: seq<Op>)
    requires Valid(g) && Reset !in ops
    ensures var h := Run(g, ops);
            && Valid(h) && g.max <= h.max
            && (forall k :: k in Entries(h) ==> PerSlot(Entries(h)[k]) <= h.max)
            && (h.max == g.max || Attained(g, ops, h.max))
    decreases |ops|
  {
    hide SlabModel.Valid;
    if ops != [] {
      assert ops[0] in ops;
      StepValid(g, ops[0]);
      MaxStep(g, ops[0]);
      hide Step, PerSlot, Entries;
      MaxIsAttained(Step(g, ops[0]), ops[1..]);
    }
  }

  // ---------------------------------------------------------------- slots count

  /** A member with one slot and one with ten: the second one has used five times as much and still
      runs, the first one is held back. */
  ghost predicate Uneven(g: Group, a: nat, b: nat, x: nat, y: nat, max: nat) {
    && Valid(g) && a != b && g.max == max
    && Entries(g) == map[a := TimeEntry(x, 1), b := TimeEntry(y, 10)]
  }

  lemma SlotsCount() returns (ops: seq<Op>, a: nat, b: nat)
    ensures var g := Run(EMPTY, ops);
            && Uneven(g, a, b, 10, 50, 10)
            && Executes(g, b) && !Executes(g, a) && Blocked(g, {b}) && !Blocked(g, {a})
  {
    var g2;
    ops, g2, a, b := JoinTwo(1, 10);
    assert Uneven(g2, a, b, 0, 0, 0);
    var g3 := Step(g2, Poll(a, 10));
    UnevenFirst(g2, a, b);
    UnevenSecond(g3, a, b);
    RunOne(g2, Poll(a, 10));
    RunOne(g3, Poll(b, 50));
    RunConcat(g2, [Poll(a, 10)], [Poll(b, 50)]);
    RunConcat(EMPTY, ops, [Poll(a, 10)] + [Poll(b, 50)]);
    ops := ops + ([Poll(a, 10)] + [Poll(b, 50)]);
    UnevenGate(Run(EMPTY, ops), a, b);
    hide *;
  }

  lemma UnevenFirst(g: Group, a: nat, b: nat)
    requires Uneven(g, a, b, 0, 0, 0)
    ensures Uneven(Step(g, Poll(a, 10)), a, b, 10, 0, 10)
  {
    CanExecuteMeans(g, a);
    ChargeEntries(g, a, 10);
  }

  lemma UnevenSecond(g: Group, a: nat, b: nat)
    requires Uneven(g, a, b, 10, 0, 10)
    ensures Uneven(Step(g, Poll(b, 50)), a, b, 10, 50, 10)
  {
    CanExecuteMeans(g, b);
    ChargeEntries(g, b, 50);
  }

  lemma UnevenGate(g: Group, a: nat, b: nat)
    requires Uneven(g, a, b, 10, 50, 10)
    ensures Executes(g, b) && !Executes(g, a) && Blocked(g, {b}) && !Blocked(g, {a})
  {
    CanExecuteMeans(g, a);
    CanExecuteMeans(g, b);
    hide SlabModel.Valid;
    assert Present(g, {b}, a) && Present(g, {a}, b);
    assert PerSlot(Entries(g)[a]) == 10 && PerSlot(Entries(g)[b]) == 5;
  }

  /** Two members join the empty group. */
  lemma JoinTwo(m: nat, n: nat) returns (ops: seq<Op>, g: Group, a: nat, b: nat)
    requires m > 0 && n > 0
    ensures g == Run(EMPTY, ops) && Valid(g) && g.max == 0 && a != b
    ensures Entries(g) == map[a := TimeEntry(0, m), b := TimeEntry(0, n)]
  {
    EmptyIsValid();
    assert EMPTY.info.len == 0;
    a := JoinEntries(EMPTY, m);
    var g1 := Step(EMPTY, Join(m));
    StepValid(EMPTY, Join(m));
    LenBound(g1.info, USIZE);
    assert g1.info.len == 1;
    b := JoinEntries(g1, n);
    StepValid(g1, Join(n));
    g := Step(g1, Join(n));
    ops := [Join(m)] + [Join(n)];
    RunConcat(EMPTY, [Join(m)], [Join(n)]);
    RunOne(EMPTY, Join(m));
    RunOne(g1, Join(n));
  }

  /** Consecutive rounds: each is one of the members that are left. */
  ghost predicate Rounds(g: Group, rounds: seq<seq<Op>>, D: nat)
    decreases |rounds|
  {
    rounds == [] ||
    (Moves(rounds[0], D) && Round(g, rounds[0]) && Rounds(Run(g, rounds[0]), rounds[1..], D))
  }

  function Flatten(rounds: seq<seq<Op>>): seq<Op> {
    if rounds == [] then [] else rounds[0] + Flatten(rounds[1..])
  }

  lemma {:induction false} RunValid(g: Group, ops: seq<Op>)
    requires Valid(g)
    ensures Valid(Run(g, ops))
    decreases |ops|
  {
    hide Valid, Step;
    if ops != [] {
      StepValid(g, ops[0]);
      RunValid(Step(g, ops[0]), ops[1..]);
    }
  }

  lemma {:induction false} RunConcat(g: Group, a: seq<Op>, b: seq<Op>)
    ensures Run(g, a + b) == Run(Run(g, a), b)
    ensures Executed(g, a + b) == Executed(g, a) + Executed(Run(g, a), b)
    ensures Progress(g, a + b) == Progress(g, a) + Progress(Run(g, a), b)
    decreases |a|
  {
    hide Step, Executes, IsLeast;
    if a == [] {
      assert a + b == b;
    } else {
      assert (a + b)[0] == a[0] && (a + b)[1..] == a[1..] + b;
      RunConcat(Step(g, a[0]), a[1..], b);
    }
  }

  lemma {:induction false} RoundsMove(g: Group, rounds: seq<seq<Op>>, D: nat)
    requires Rounds(g, rounds, D)
    ensures Moves(Flatten(rounds), D)
    decreases |rounds|
  {
    if rounds != [] { RoundsMove(Run(g, rounds[0]), rounds[1..], D); }
  }

  /** Every round is paid out of the backlog, so the group is fair after one more round than that,
      whoever leaves meanwhile. */
  lemma {:induction false} RecoversInRounds(g: Group, rounds: seq<seq<Op>>, D: nat)
    requires Valid(g) && Rounds(g, rounds, D)
    ensures |rounds| > Backlog(g.info.cells, MinBound(g.max)) ==> Fair(Run(g, Flatten(rounds)), D)
    decreases |rounds|
  {
    hide Valid, Backlog;
    if rounds != [] {
      var h := Run(g, rounds[0]);
      RunValid(g, rounds[0]);
      RunConcat(g, rounds[0], Flatten(rounds[1..]));
      RecoversInRounds(h, rounds[1..], D);
      RoundsMove(h, rounds[1..], D);
      if Fair(h, D) {
        FairRun(h, Flatten(rounds[1..]), D);
      } else {
        RoundShortens(g, rounds[0], D);
      }
    }
  }

  lemma RoundShortens(g: Group, ops: seq<Op>, D: nat)
    requires Valid(g) && Moves(ops, D) && Round(g, ops) && !Fair(Run(g, ops), D)
    ensures var h := Run(g, ops);
            h.max == g.max && Backlog(h.info.cells, MinBound(g.max)) < Backlog(g.info.cells, MinBound(g.max))
  {
    hide SlabModel.Valid, Backlog;
    if Entries(g) == map[] {
      FairRun(g, ops, D);
    } else {
      var key := Least(g);
      TurnShortens(g, ops, D, key);
    }
  }
}
