/**
 The marker cell (`AtomicMarkerOption`): any number of threads put and take, one transition per
 access to the mark or to the value, under sequential consistency.
 */
module MarkerCells {
  import opened Options

  const IDLE: nat := 0
  const PUTTING: nat := 1
  const MARKING: nat := 2

  /** What a put was given: nothing, a value to move in, or a reference to clone. */
  datatype Arg<T> = Nothing | Own(value: T) | Borrow(value: T)

  /** `try_put` returns whatever happens, and remembers here what it was given; `put` and `clear` retry
      until they succeed. */
  datatype Mode<T> = Once(given: Option<T>) | UntilPut(source: T) | UntilClear

  datatype Pc<T> =
    | Idle
    | Trying(mode: Mode<T>, arg: Arg<T>)          // before the first exchange
    | Writing(mode: Mode<T>, arg: Arg<T>)         // lock held
    | Finishing(mode: Mode<T>)                    // value written, before the second exchange
    | TakingBack(mode: Mode<T>)                   // a take came in between
    | Restoring(mode: Mode<T>, value: Option<T>)
    | Stuck                                       // a clone panicked with the lock held
    | Asking                                      // a take, before `fetch_or`
    | Taking
    | Unmarking(value: Option<T>)

  datatype Reply<T> =
    | Success | TakenDuringPut(value: Option<T>) | TakenBeforePut(value: Option<T>) | ConcurrentPut(value: Option<T>)
    | TookSome(got: T) | TookNone | ConcurrentTake | PutInProgress

  datatype State<T> = State(
    mark: nat,
    slot: Option<T>,
    threads: seq<Pc<T>>,
    // history
    replies: seq<(nat, Reply<T>)>,
    born: multiset<T>,            // values moved or cloned into the protocol
    handed: multiset<T>,          // values given to callers
    dropped: multiset<T>)         // values overwritten or discarded inside

  datatype Action<T> =
    | CallTryPut(t: nat, arg: Arg<T>)
    | CallPut(t: nat, source: T)
    | CallClear(t: nat)
    | CallTake(t: nat)
    | Step(t: nat)                // the thread's next access to shared memory
    | ClonePanics(t: nat)         // ...or the clone of a borrowed value panics

  predicate Enabled<T>(s: State<T>, a: Action<T>) {
    a.t < |s.threads| &&
    var pc := s.threads[a.t];
    match a
    case Step(_) => !pc.Idle? && !pc.Stuck?
    case ClonePanics(_) => pc.Writing? && pc.arg.Borrow?
    case _ => pc.Idle?
  }

  function Bag<T>(o: Option<T>): multiset<T> { if o.Some? then multiset{o.value} else multiset{} }

  function Given<T>(arg: Arg<T>): Option<T> { if arg.Nothing? then None else Some(arg.value) }

  function Owned<T>(a: Arg<T>): Option<T> { if a.Own? then Some(a.value) else None }

  function At<T>(s: State<T>, t: nat, pc: Pc<T>): State<T>
    requires t < |s.threads|
  {
    s.(threads := s.threads[t := pc])
  }

  /** A put that failed: hand its value back, or try again with it. */
  function Failed<T>(s: State<T>, t: nat, mode: Mode<T>, r: Reply<T>): State<T>
    requires t < |s.threads| && (r.TakenDuringPut? || r.TakenBeforePut? || r.ConcurrentPut?)
  {
    match mode
    case Once(_) => At(s, t, Idle).(replies := s.replies + [(t, r)], handed := s.handed + Bag(r.value))
    case UntilPut(source) => At(s, t, Trying(mode, if r.value.Some? then Own(r.value.value) else Borrow(source)))
    case UntilClear => At(s, t, Trying(mode, Nothing)).(dropped := s.dropped + Bag(r.value))
  }

  function FirstExchange<T>(s: State<T>, t: nat, mode: Mode<T>, arg: Arg<T>): State<T>
    requires t < |s.threads|
  {
    if s.mark == IDLE then At(s, t, Writing(mode, arg)).(mark := PUTTING)
    else if s.mark == MARKING then Failed(s, t, mode, TakenBeforePut(Owned(arg)))
    else Failed(s, t, mode, ConcurrentPut(Owned(arg)))
  }

  function WriteSlot<T>(s: State<T>, t: nat, mode: Mode<T>, arg: Arg<T>): State<T>
    requires t < |s.threads|
  {
    var value := if arg.Nothing? then None else Some(arg.value);
    At(s, t, Finishing(mode)).(
      slot := value,
      dropped := s.dropped + Bag(s.slot),
      born := if arg.Borrow? then s.born + multiset{arg.value} else s.born)    // the clone
  }

  /** `fetch_or(MARKING)` */
  function Mark(m: nat): nat { if m / 2 % 2 == 0 then m + MARKING else m }

  /** `fetch_and(!MARKING)` */
  function Unmark(m: nat): nat { if m / 2 % 2 == 0 then m else m - MARKING }

  /** The second exchange, PUTTING to IDLE. */
  function FinishPut<T>(s: State<T>, t: nat, mode: Mode<T>): State<T>
    requires t < |s.threads|
  {
    if s.mark == PUTTING then At(s, t, Idle).(mark := IDLE, replies := s.replies + [(t, Success)])
    else At(s, t, TakingBack(mode))
  }

  function EmptySlot<T>(s: State<T>, t: nat, pc: Pc<T>): State<T>
    requires t < |s.threads|
  {
    At(s, t, pc).(slot := None)
  }

  function AskTake<T>(s: State<T>, t: nat): State<T>
    requires t < |s.threads|
  {
    if s.mark == IDLE then At(s, t, Taking).(mark := Mark(s.mark))
    else
      At(s, t, Idle).(mark := Mark(s.mark),
        replies := s.replies + [(t, if s.mark / 2 % 2 != 0 then ConcurrentTake else PutInProgress)])
  }

  function FinishTake<T>(s: State<T>, t: nat, value: Option<T>): State<T>
    requires t < |s.threads|
  {
    At(s, t, Idle).(mark := Unmark(s.mark), handed := s.handed + Bag(value),
      replies := s.replies + [(t, if value.Some? then TookSome(value.value) else TookNone)])
  }

  function DoStep<T>(s: State<T>, t: nat): State<T>
    requires t < |s.threads|
  {
    match s.threads[t]
    case Idle => s
    case Stuck => s
    case Trying(mode, arg) => FirstExchange(s, t, mode, arg)
    case Writing(mode, arg) => WriteSlot(s, t, mode, arg)
    case Finishing(mode) => FinishPut(s, t, mode)
    case TakingBack(mode) => EmptySlot(s, t, Restoring(mode, s.slot))
    case Restoring(mode, value) => Failed(s.(mark := IDLE), t, mode, TakenDuringPut(value))
    case Asking => AskTake(s, t)
    case Taking => EmptySlot(s, t, Unmarking(s.slot))
    case Unmarking(value) => FinishTake(s, t, value)
  }

  function Next<T>(s: State<T>, a: Action<T>): State<T>
    requires Enabled(s, a)
  {
    var t := a.t;
    match a
    case CallTryPut(_, arg) => At(s, t, Trying(Once(Given(arg)), arg)).(born := s.born + Bag(Owned(arg)))
    case CallPut(_, source) => At(s, t, Trying(UntilPut(source), Borrow(source)))
    case CallClear(_) => At(s, t, Trying(UntilClear, Nothing))
    case CallTake(_) => At(s, t, Asking)
    case Step(_) => DoStep(s, t)
    case ClonePanics(_) => At(s, t, Stuck)
  }

  predicate Legal<T>(s: State<T>, run: seq<Action<T>>)
    decreases |run|
  {
    run == [] || (Enabled(s, run[0]) && Legal(Next(s, run[0]), run[1..]))
  }

  function Run<T>(s: State<T>, run: seq<Action<T>>): State<T>
    requires Legal(s, run)
    decreases |run|
  {
    if run == [] then s else Run(Next(s, run[0]), run[1..])
  }

  predicate Initial<T>(s: State<T>) {
    && s.mark == IDLE && s.replies == [] && s.handed == s.dropped == multiset{}
    && s.born == Bag(s.slot)
    && forall t :: 0 <= t < |s.threads| ==> s.threads[t] == Idle
  }

  // ---------------------------------------------------------------- exclusion and marks

  predicate PutInside<T>(pc: Pc<T>) {
    pc.Writing? || pc.Finishing? || pc.TakingBack? || pc.Restoring? || pc.Stuck?
  }

  predicate TakeInside<T>(pc: Pc<T>) { pc.Taking? || pc.Unmarking? }

  /** The marks a thread with this program counter may see. */
  ghost predicate Sees<T>(pc: Pc<T>, mark: nat, slot: Option<T>) {
    && (PutInside(pc) ==> mark == PUTTING || mark == PUTTING + MARKING)
    && (pc.TakingBack? || pc.Restoring? ==> mark == PUTTING + MARKING)
    && (TakeInside(pc) ==> mark == MARKING)
    && (pc.Restoring? || pc.Unmarking? ==> slot == None)
  }

  predicate Inside<T>(pc: Pc<T>) { PutInside(pc) || TakeInside(pc) }

  /** At most one thread is inside, and it sees a mark that fits. */
  ghost predicate Exclusive<T>(s: State<T>) {
    && s.mark <= PUTTING + MARKING
    && (forall t :: 0 <= t < |s.threads| ==> Sees(s.threads[t], s.mark, s.slot))
    && (forall t, u :: 0 <= t < u < |s.threads| ==> !(Inside(s.threads[t]) && Inside(s.threads[u])))
  }

  ghost predicate Occupied<T>(s: State<T>) {
    s.mark != IDLE ==> exists t :: 0 <= t < |s.threads| && Inside(s.threads[t])
  }

  /** What a step may do to the mark and the slot, by where its thread is before and after. */
  ghost predicate Moves<T>(pc: Pc<T>, pc': Pc<T>, s: State<T>, n: State<T>) {
    && n.mark <= PUTTING + MARKING && Sees(pc', n.mark, n.slot)
    && (!Inside(pc) && !Inside(pc') ==>
          n.slot == s.slot && (n.mark == s.mark || (s.mark != IDLE && n.mark == Mark(s.mark))))
    && (!Inside(pc) && Inside(pc') ==> s.mark == IDLE && n.mark != IDLE && n.slot == s.slot)
    && (Inside(pc) && !Inside(pc') ==> n.mark == IDLE)
    && (Inside(pc) && Inside(pc') ==> n.mark == s.mark)
  }

  lemma CallMoves<T>(s: State<T>, a: Action<T>)
    requires Enabled(s, a) && !a.Step? && s.mark <= PUTTING + MARKING && Sees(s.threads[a.t], s.mark, s.slot)
    ensures var n := Next(s, a);
            n.threads == s.threads[a.t := n.threads[a.t]] && Moves(s.threads[a.t], n.threads[a.t], s, n)
  {
  }

  lemma FailedMoves<T>(s: State<T>, t: nat, mode: Mode<T>, r: Reply<T>)
    requires t < |s.threads| && (r.TakenDuringPut? || r.TakenBeforePut? || r.ConcurrentPut?)
    ensures var n := Failed(s, t, mode, r);
            && n.threads == s.threads[t := n.threads[t]] && n.mark == s.mark && n.slot == s.slot
            && (n.threads[t].Idle? || n.threads[t].Trying?)
            && (n.replies == s.replies || n.replies == s.replies + [(t, r)])
  {
  }

  /** The steps of a put. */
  lemma PutMoves<T>(s: State<T>, t: nat)
    requires t < |s.threads| && s.mark <= PUTTING + MARKING && Sees(s.threads[t], s.mark, s.slot)
    requires s.threads[t].Trying? || s.threads[t].Restoring?
    ensures var n := DoStep(s, t);
            n.threads == s.threads[t := n.threads[t]] && Moves(s.threads[t], n.threads[t], s, n)
  {
    hide Failed, Bag;
    var pc := s.threads[t];
    if pc.Restoring? {
      FailedMoves(s.(mark := IDLE), t, pc.mode, TakenDuringPut(pc.value));
    } else {
      FailedMoves(s, t, pc.mode, TakenBeforePut(Owned(pc.arg)));
      FailedMoves(s, t, pc.mode, ConcurrentPut(Owned(pc.arg)));
    }
  }

  lemma MiddleMoves<T>(s: State<T>, t: nat)
    requires t < |s.threads| && s.mark <= PUTTING + MARKING && Sees(s.threads[t], s.mark, s.slot)
    requires s.threads[t].Writing? || s.threads[t].Finishing? || s.threads[t].TakingBack?
    ensures var n := DoStep(s, t);
            n.threads == s.threads[t := n.threads[t]] && Moves(s.threads[t], n.threads[t], s, n)
  {
    hide Failed, Bag, FirstExchange, AskTake, FinishTake;
  }

  lemma TakeMoves<T>(s: State<T>, t: nat)
    requires t < |s.threads| && s.mark <= PUTTING + MARKING && Sees(s.threads[t], s.mark, s.slot)
    requires s.threads[t].Asking? || TakeInside(s.threads[t])
    ensures var n := DoStep(s, t);
            n.threads == s.threads[t := n.threads[t]] && Moves(s.threads[t], n.threads[t], s, n)
  {
    hide Failed, Bag, FirstExchange, WriteSlot, FinishPut;
  }

  lemma AnyMoves<T>(s: State<T>, a: Action<T>)
    requires Exclusive(s) && Enabled(s, a)
    ensures var n := Next(s, a);
            n.threads == s.threads[a.t := n.threads[a.t]] && Moves(s.threads[a.t], n.threads[a.t], s, n)
  {
    assert Sees(s.threads[a.t], s.mark, s.slot);
    hide DoStep, Moves;
    if !a.Step? { CallMoves(s, a); }
    else if s.threads[a.t].Trying? || s.threads[a.t].Restoring? { PutMoves(s, a.t); }
    else if s.threads[a.t].Asking? || TakeInside(s.threads[a.t]) { TakeMoves(s, a.t); }
    else { MiddleMoves(s, a.t); }
  }

  lemma StepExclusive<T>(s: State<T>, a: Action<T>)
    requires Exclusive(s) && Enabled(s, a)
    ensures Exclusive(Next(s, a))
  {
    AnyMoves(s, a);
    hide Next;
    var n := Next(s, a);
    forall t | 0 <= t < |n.threads| ensures Sees(n.threads[t], n.mark, n.slot) {
      assert Sees(s.threads[t], s.mark, s.slot);
    }
    forall t, u | 0 <= t < u < |n.threads| ensures !(Inside(n.threads[t]) && Inside(n.threads[u])) {
      assert Sees(s.threads[t], s.mark, s.slot) && Sees(s.threads[u], s.mark, s.slot);
      assert !(Inside(s.threads[t]) && Inside(s.threads[u]));
    }
  }

  lemma StepOccupied<T>(s: State<T>, a: Action<T>)
    requires Exclusive(s) && Occupied(s) && Enabled(s, a)
    ensures Occupied(Next(s, a))
  {
    AnyMoves(s, a);
    hide Next;
    var n := Next(s, a);
    if n.mark != IDLE {
      if Inside(n.threads[a.t]) {
      } else {
        var t :| 0 <= t < |s.threads| && Inside(s.threads[t]);
        assert Inside(n.threads[t]);
      }
    }
  }

  lemma {:induction false} RunExclusive<T>(s: State<T>, run: seq<Action<T>>)
    requires Exclusive(s) && Occupied(s) && Legal(s, run)
    ensures Exclusive(Run(s, run)) && Occupied(Run(s, run))
    decreases |run|
  {
    hide Exclusive;
    if run != [] {
      StepExclusive(s, run[0]);
      StepOccupied(s, run[0]);
      hide Next;
      RunExclusive(Next(s, run[0]), run[1..]);
    }
  }

  /** In every reachable state: the mark is one of the four values that the debug assertions allow,
      at most one thread touches the value, a put inside sees PUTTING, a take inside sees exactly
      MARKING, and the mark is idle exactly when nobody is inside. */
  lemma MarkProtocol<T>(s: State<T>, run: seq<Action<T>>)
    requires Initial(s) && Legal(s, run)
    ensures var e := Run(s, run);
            && e.mark in {IDLE, PUTTING, MARKING, PUTTING + MARKING}
            && (forall t :: 0 <= t < |e.threads| ==> Sees(e.threads[t], e.mark, e.slot))
            && (forall t, u :: 0 <= t < u < |e.threads| ==> !(Inside(e.threads[t]) && Inside(e.threads[u])))
            && (e.mark == IDLE <==> forall t :: 0 <= t < |e.threads| ==> !Inside(e.threads[t]))
  {
    RunExclusive(s, run);
    var e := Run(s, run);
    hide Next;
    if e.mark == IDLE {
      forall t | 0 <= t < |e.threads| ensures !Inside(e.threads[t]) {
        assert Sees(e.threads[t], e.mark, e.slot);
      }
    }
  }

  // ---------------------------------------------------------------- a take that comes in between

  /** Nothing new was said, or thread `t` said something else than success. */
  ghost predicate NoSuccess<T>(s: State<T>, n: State<T>, t: nat) {
    n.replies == s.replies
    || (|n.replies| == |s.replies| + 1 && n.replies[..|s.replies|] == s.replies && n.replies[|s.replies|].1 != Success)
  }

  lemma MarkedPut<T>(s: State<T>, t: nat)
    requires t < |s.threads| && (s.threads[t].Trying? || s.threads[t].Restoring?)
    requires s.mark >= MARKING && Sees(s.threads[t], s.mark, s.slot)
    ensures var n := DoStep(s, t); NoSuccess(s, n, t) && (n.mark == s.mark || n.slot == None)
  {
    hide Failed, Bag;
    var pc := s.threads[t];
    if pc.Restoring? {
      FailedMoves(s.(mark := IDLE), t, pc.mode, TakenDuringPut(pc.value));
    } else {
      FailedMoves(s, t, pc.mode, TakenBeforePut(Owned(pc.arg)));
      FailedMoves(s, t, pc.mode, ConcurrentPut(Owned(pc.arg)));
    }
  }

  lemma MarkedOther<T>(s: State<T>, t: nat)
    requires t < |s.threads| && !s.threads[t].Trying? && !s.threads[t].Restoring?
    requires MARKING <= s.mark <= PUTTING + MARKING && Sees(s.threads[t], s.mark, s.slot)
    ensures var n := DoStep(s, t); NoSuccess(s, n, t) && (n.mark == Mark(s.mark) || n.slot == None)
  {
    hide Failed, Bag;
  }

  lemma MarkedStep<T>(s: State<T>, a: Action<T>)
    requires Exclusive(s) && Enabled(s, a) && s.mark >= MARKING
    ensures var n := Next(s, a);
            && (n.mark >= MARKING || (n.mark == IDLE && n.slot == None))
            && Quietly(s.replies, n.replies)
  {
    hide DoStep;
    assert Sees(s.threads[a.t], s.mark, s.slot);
    AnyMoves(s, a);
    if a.Step? {
      if s.threads[a.t].Trying? || s.threads[a.t].Restoring? { MarkedPut(s, a.t); } else { MarkedOther(s, a.t); }
    }
  }

  /** The mark is not idle in any state of the run but the last. */
  predicate UntilIdle<T>(s: State<T>, run: seq<Action<T>>)
    requires Legal(s, run)
    decreases |run|
  {
    if run == [] then s.mark == IDLE else s.mark != IDLE && UntilIdle(Next(s, run[0]), run[1..])
  }

  /** After any take has set MARKING, the slot is empty when the mark next becomes idle, and no put
      reports success in between: a put overtaken by a take fails. */
  lemma {:induction false} OvertakenPutFails<T>(s: State<T>, run: seq<Action<T>>)
    requires Exclusive(s) && Legal(s, run) && s.mark >= MARKING && UntilIdle(s, run)
    ensures Run(s, run).slot == None
    ensures Quietly(s.replies, Run(s, run).replies)
    decreases |run|
  {
    hide Exclusive;
    if run != [] {
      var n := Next(s, run[0]);
      MarkedStep(s, run[0]);
      StepExclusive(s, run[0]);
      hide Next;
      if n.mark == IDLE {
        assert run[1..] == [];
      } else {
        OvertakenPutFails(n, run[1..]);
        QuietlyChains(s.replies, n.replies, Run(n, run[1..]).replies);
      }
    }
  }

  /** The replies grew, and no put reported success. */
  ghost predicate Quietly<T>(a: seq<(nat, Reply<T>)>, b: seq<(nat, Reply<T>)>) {
    a <= b && forall i :: |a| <= i < |b| ==> b[i].1 != Success
  }

  lemma QuietlyChains<T>(a: seq<(nat, Reply<T>)>, b: seq<(nat, Reply<T>)>, c: seq<(nat, Reply<T>)>)
    requires Quietly(a, b) && Quietly(b, c)
    ensures Quietly(a, c)
  {
    forall i | |a| <= i < |c| ensures c[i].1 != Success {
      if i < |b| { assert c[i] == b[i]; }
    }
  }

  // ---------------------------------------------------------------- a clone that panics

  /** Some put has panicked with the lock held. */
  ghost predicate Jammed<T>(s: State<T>) { exists t :: 0 <= t < |s.threads| && s.threads[t].Stuck? }

  /** The replies grew, and nobody put or took anything. */
  ghost predicate Refused<T>(a: seq<(nat, Reply<T>)>, b: seq<(nat, Reply<T>)>) {
    a <= b && forall i :: |a| <= i < |b| ==>
      b[i].1.TakenBeforePut? || b[i].1.ConcurrentPut? || b[i].1.ConcurrentTake? || b[i].1.PutInProgress?
  }

  lemma JammedStep<T>(s: State<T>, a: Action<T>)
    requires Exclusive(s) && Jammed(s) && Enabled(s, a)
    ensures var n := Next(s, a); Jammed(n) && n.slot == s.slot && Refused(s.replies, n.replies)
  {
    var t :| 0 <= t < |s.threads| && s.threads[t].Stuck?;
    assert Sees(s.threads[t], s.mark, s.slot) && Sees(s.threads[a.t], s.mark, s.slot);
    assert !Inside(s.threads[a.t]);
    JammedThread(s, a, t);
    hide Next;
    assert Next(s, a).threads[t].Stuck?;
  }

  lemma JammedThread<T>(s: State<T>, a: Action<T>, t: nat)
    requires Enabled(s, a) && !Inside(s.threads[a.t]) && s.mark != IDLE && s.mark != MARKING
    requires t < |s.threads| && s.threads[t].Stuck?
    ensures var n := Next(s, a);
            && |n.threads| == |s.threads| && n.threads[t].Stuck? && n.slot == s.slot && Refused(s.replies, n.replies)
  {
    var pc := s.threads[a.t];
    if pc.Trying? { FailedMoves(s, a.t, pc.mode, ConcurrentPut(Owned(pc.arg))); }
    hide Failed, Bag;
  }

  lemma RefusedChains<T>(a: seq<(nat, Reply<T>)>, b: seq<(nat, Reply<T>)>, c: seq<(nat, Reply<T>)>)
    requires Refused(a, b) && Refused(b, c)
    ensures Refused(a, c)
  {
    forall i | |a| <= i < |b| ensures c[i] == b[i] { }
  }

  /** A clone that panics leaves the lock held: from then on the slot never changes, every put that is
      tried fails, every take is refused, and `put` and `clear` never return. */
  lemma {:induction false} JammedForever<T>(s: State<T>, run: seq<Action<T>>)
    requires Exclusive(s) && Jammed(s) && Legal(s, run)
    ensures var e := Run(s, run); Jammed(e) && e.mark != IDLE && e.slot == s.slot && Refused(s.replies, e.replies)
    decreases |run|
  {
    if run == [] {
      var t :| 0 <= t < |s.threads| && s.threads[t].Stuck?;
      assert Sees(s.threads[t], s.mark, s.slot);
    } else {
      var n := Next(s, run[0]);
      JammedStep(s, run[0]);
      StepExclusive(s, run[0]);
      hide Next, Exclusive, Jammed, Refused;
      JammedForever(n, run[1..]);
      RefusedChains(s.replies, n.replies, Run(n, run[1..]).replies);
    }
  }

  /** One put by reference is enough, from any idle cell. */
  lemma ClonePanicJams<T>(s: State<T>, t: nat, v: T)
    requires t < |s.threads| && s.mark == IDLE && s.threads[t] == Idle
    ensures var run := [CallPut(t, v)] + ([Step(t)] + ([ClonePanics(t)] + []));
            Legal(s, run) && Jammed(Run(s, run)) && Run(s, run).slot == s.slot
  {
    var s1 := Next(s, CallPut(t, v));
    var s2 := Next(s1, Step(t));
    var s3 := Next(s2, ClonePanics(t));
    assert s3.threads[t].Stuck? && s3.slot == s.slot;
    ConsRun(s2, ClonePanics(t), []);
    ConsRun(s1, Step(t), [ClonePanics(t)] + []);
    ConsRun(s, CallPut(t, v), [Step(t)] + ([ClonePanics(t)] + []));
  }

  lemma ConsRun<T>(s: State<T>, a: Action<T>, run: seq<Action<T>>)
    requires Enabled(s, a) && Legal(Next(s, a), run)
    ensures Legal(s, [a] + run) && Run(s, [a] + run) == Run(Next(s, a), run)
  {
    hide Next;
    assert ([a] + run)[0] == a && ([a] + run)[1..] == run;
  }

  // ---------------------------------------------------------------- conservation

  function Carried<T>(pc: Pc<T>): multiset<T> {
    match pc
    case Trying(_, arg) => Bag(Owned(arg))
    case Writing(_, arg) => Bag(Owned(arg))
    case Restoring(_, v) => Bag(v)
    case Unmarking(v) => Bag(v)
    case _ => multiset{}
  }

  function CarriedBy<T>(ths: seq<Pc<T>>): multiset<T> {
    if ths == [] then multiset{} else CarriedBy(ths[..|ths| - 1]) + Carried(ths[|ths| - 1])
  }

  /** Where a value can be: in the slot, under way, with a caller, or dropped. */
  function Places<T>(s: State<T>): multiset<T> { CarriedBy(s.threads) + (Bag(s.slot) + s.handed + s.dropped) }

  lemma {:induction false} CarriedUpdate<T>(ths: seq<Pc<T>>, t: nat, pc: Pc<T>)
    requires t < |ths|
    ensures CarriedBy(ths[t := pc]) + Carried(ths[t]) == CarriedBy(ths) + Carried(pc)
  {
    hide Carried;
    var n := |ths| - 1;
    if t == n {
      assert ths[t := pc][..n] == ths[..n];
    } else {
      CarriedUpdate(ths[..n], t, pc);
      assert ths[t := pc][..n] == ths[..n][t := pc];
      var (a, b, c) := (CarriedBy(ths[..n][t := pc]), CarriedBy(ths[..n]), Carried(ths[n]));
      assert (a + c) + Carried(ths[t]) == (a + Carried(ths[t])) + c;
      assert (b + c) + Carried(pc) == (b + Carried(pc)) + c;
    }
  }

  /** The step moves values between places; what is new, it counts as born. */
  ghost predicate Flows<T(!new)>(pc: Pc<T>, pc': Pc<T>, s: State<T>, n: State<T>) {
    forall v: T ::
      Carried(pc')[v] + Bag(n.slot)[v] + n.handed[v] + n.dropped[v] + s.born[v]
      == Carried(pc)[v] + Bag(s.slot)[v] + s.handed[v] + s.dropped[v] + n.born[v]
  }

  lemma FailedFlows<T(!new)>(s: State<T>, t: nat, mode: Mode<T>, r: Reply<T>, pc: Pc<T>)
    requires t < |s.threads| && (r.TakenDuringPut? || r.TakenBeforePut? || r.ConcurrentPut?)
    requires Carried(pc) == Bag(r.value)
    ensures Flows(pc, Failed(s, t, mode, r).threads[t], s, Failed(s, t, mode, r))
  {
  }

  lemma BirthFlows<T(!new)>(pc: Pc<T>, pc': Pc<T>, s: State<T>, n: State<T>, added: multiset<T>)
    requires Carried(pc) == multiset{} && Carried(pc') == added
    requires n == s.(threads := n.threads, born := s.born + added)
    ensures Flows(pc, pc', s, n)
  {
    hide Carried, Bag;
  }

  lemma CallFlows<T(!new)>(s: State<T>, a: Action<T>)
    requires Enabled(s, a) && !a.Step?
    ensures Flows(s.threads[a.t], Next(s, a).threads[a.t], s, Next(s, a))
  {
    var n := Next(s, a);
    var pc, pc' := s.threads[a.t], n.threads[a.t];
    CallFrame(s, a);
    hide Next, Flows, Bag, Carried, Enabled;
    BirthFlows(pc, pc', s, n, if a.CallTryPut? then Bag(Owned(a.arg)) else multiset{});
  }

  lemma CallFrame<T>(s: State<T>, a: Action<T>)
    requires Enabled(s, a) && !a.Step?
    ensures var n := Next(s, a); var added := if a.CallTryPut? then Bag(Owned(a.arg)) else multiset{};
            && a.t < |s.threads| == |n.threads|
            && n == s.(threads := n.threads, born := s.born + added)
            && Carried(s.threads[a.t]) == multiset{} && Carried(n.threads[a.t]) == added
  {
    hide DoStep;
    if !a.CallTryPut? { assert s.born + multiset{} == s.born; }
  }

  lemma TryFlows<T(!new)>(s: State<T>, t: nat, mode: Mode<T>, arg: Arg<T>)
    requires t < |s.threads|
    ensures var n := FirstExchange(s, t, mode, arg); Flows(Trying(mode, arg), n.threads[t], s, n)
  {
    hide Failed, Bag;
    if s.mark == MARKING {
      FailedFlows(s, t, mode, TakenBeforePut(Owned(arg)), Trying(mode, arg));
    } else if s.mark != IDLE {
      FailedFlows(s, t, mode, ConcurrentPut(Owned(arg)), Trying(mode, arg));
    }
  }

  lemma WriteFlows<T(!new)>(s: State<T>, t: nat, mode: Mode<T>, arg: Arg<T>)
    requires t < |s.threads|
    ensures var n := WriteSlot(s, t, mode, arg); Flows(Writing(mode, arg), n.threads[t], s, n)
  {
  }

  lemma FinishFlows<T(!new)>(s: State<T>, t: nat, mode: Mode<T>)
    requires t < |s.threads|
    ensures var n := FinishPut(s, t, mode); Flows(Finishing(mode), n.threads[t], s, n)
  {
  }

  lemma EmptyFlows<T(!new)>(s: State<T>, t: nat, pc: Pc<T>, pc': Pc<T>)
    requires t < |s.threads| && Carried(pc) == multiset{} && Carried(pc') == Bag(s.slot)
    ensures var n := EmptySlot(s, t, pc'); Flows(pc, n.threads[t], s, n)
  {
  }

  lemma AskFlows<T(!new)>(s: State<T>, t: nat)
    requires t < |s.threads|
    ensures var n := AskTake(s, t); Flows(Asking, n.threads[t], s, n)
  {
  }

  lemma TakenFlows<T(!new)>(s: State<T>, t: nat, value: Option<T>)
    requires t < |s.threads|
    ensures var n := FinishTake(s, t, value); Flows(Unmarking(value), n.threads[t], s, n)
  {
  }

  lemma RestoreFlows<T(!new)>(s: State<T>, t: nat, mode: Mode<T>, value: Option<T>)
    requires t < |s.threads|
    ensures var n := Failed(s.(mark := IDLE), t, mode, TakenDuringPut(value));
            Flows(Restoring(mode, value), n.threads[t], s, n)
  {
    FailedFlows(s.(mark := IDLE), t, mode, TakenDuringPut(value), Restoring(mode, value));
  }

  lemma StepFlows<T(!new)>(s: State<T>, t: nat)
    requires t < |s.threads| && !s.threads[t].Idle? && !s.threads[t].Stuck?
    ensures var n := DoStep(s, t); Flows(s.threads[t], n.threads[t], s, n)
  {
    hide FirstExchange, WriteSlot, FinishPut, EmptySlot, Failed, AskTake, FinishTake, Flows, Bag;
    match s.threads[t] {
      case Trying(mode, arg) => TryFlows(s, t, mode, arg);
      case Writing(mode, arg) => WriteFlows(s, t, mode, arg);
      case Finishing(mode) => FinishFlows(s, t, mode);
      case TakingBack(mode) => EmptyFlows(s, t, TakingBack(mode), Restoring(mode, s.slot));
      case Restoring(mode, value) => RestoreFlows(s, t, mode, value);
      case Asking => AskFlows(s, t);
      case Taking => EmptyFlows(s, t, Taking, Unmarking(s.slot));
      case Unmarking(value) => TakenFlows(s, t, value);
    }
  }

  lemma AnyFlows<T(!new)>(s: State<T>, a: Action<T>)
    requires Enabled(s, a)
    ensures Flows(s.threads[a.t], Next(s, a).threads[a.t], s, Next(s, a))
  {
    hide DoStep, Flows;
    if a.Step? { StepFlows(s, a.t); } else { CallFlows(s, a); }
  }

  lemma StepConserves<T(!new)>(s: State<T>, a: Action<T>)
    requires Exclusive(s) && Enabled(s, a) && s.born == Places(s)
    ensures Next(s, a).born == Places(Next(s, a))
  {
    AnyMoves(s, a);
    AnyFlows(s, a);
    Settles(s, Next(s, a), a.t);
    hide *;
  }

  lemma Settles<T(!new)>(s: State<T>, n: State<T>, t: nat)
    requires t < |s.threads| == |n.threads| && n.threads == s.threads[t := n.threads[t]]
    requires Flows(s.threads[t], n.threads[t], s, n) && s.born == Places(s)
    ensures n.born == Places(n)
  {
    CarriedUpdate(s.threads, t, n.threads[t]);
    hide CarriedBy;
    hide Carried;
    hide Bag;
    forall v: T ensures n.born[v] == Places(n)[v] {
      assert (CarriedBy(n.threads) + Carried(s.threads[t]))[v] == (CarriedBy(s.threads) + Carried(n.threads[t]))[v];
      assert s.born[v] == Places(s)[v];
    }
  }

  lemma {:induction false} RunConserves<T(!new)>(s: State<T>, run: seq<Action<T>>)
    requires Exclusive(s) && Legal(s, run) && s.born == Places(s)
    ensures Run(s, run).born == Places(Run(s, run))
    decreases |run|
  {
    hide Exclusive;
    hide Places;
    if run != [] {
      StepExclusive(s, run[0]);
      StepConserves(s, run[0]);
      hide Next;
      RunConserves(Next(s, run[0]), run[1..]);
    }
  }

  lemma {:induction false} NothingCarried<T>(ths: seq<Pc<T>>)
    requires forall t :: 0 <= t < |ths| ==> ths[t] == Idle
    ensures CarriedBy(ths) == multiset{}
  {
    if ths != [] { NothingCarried(ths[..|ths| - 1]); }
  }

  /** Every value that entered the protocol is in exactly one place: nothing is lost, and no value
      is handed to two callers. */
  lemma NoValueTwice<T(!new)>(s: State<T>, run: seq<Action<T>>, v: T)
    requires Initial(s) && Legal(s, run)
    ensures var e := Run(s, run);
            && e.born == Places(e)
            && e.handed[v] + Bag(e.slot)[v] <= e.born[v]
  {
    NothingCarried(s.threads);
    RunConserves(s, run);
    var e := Run(s, run);
    hide Next;
    assert Places(e)[v] == CarriedBy(e.threads)[v] + (Bag(e.slot)[v] + e.handed[v] + e.dropped[v]);
  }

  // ---------------------------------------------------------------- every put stores what it was given

  /** What a put is to leave in the slot. */
  function Wanted<T>(mode: Mode<T>): Option<T> {
    match mode
    case Once(given) => given
    case UntilPut(source) => Some(source)
    case UntilClear => None
  }

  /** From the first attempt to the last, a put carries, writes and takes back what it was given. */
  ghost predicate Faithful<T>(pc: Pc<T>, slot: Option<T>) {
    match pc
    case Trying(mode, arg) => Given(arg) == Wanted(mode) && (mode.UntilClear? ==> arg.Nothing?)
    case Writing(mode, arg) => Given(arg) == Wanted(mode) && (mode.UntilClear? ==> arg.Nothing?)
    case Finishing(mode) => slot == Wanted(mode)
    case TakingBack(mode) => slot == Wanted(mode)
    case Restoring(mode, value) => value == Wanted(mode)
    case _ => true
  }

  ghost predicate AllFaithful<T>(s: State<T>) {
    forall t :: 0 <= t < |s.threads| ==> Faithful(s.threads[t], s.slot)
  }

  lemma FailedFaithful<T>(s: State<T>, t: nat, mode: Mode<T>, r: Reply<T>, slot: Option<T>)
    requires t < |s.threads| && (r.TakenDuringPut? || r.TakenBeforePut? || r.ConcurrentPut?)
    requires r.value == Wanted(mode) || (r.value == None && mode.UntilPut?)
    ensures Faithful(Failed(s, t, mode, r).threads[t], slot) || mode.Once?
    ensures mode.Once? ==> Failed(s, t, mode, r).threads[t].Idle?
  {
  }

  lemma TryFaithful<T>(s: State<T>, t: nat)
    requires t < |s.threads| && s.threads[t].Trying? && Faithful(s.threads[t], s.slot)
    ensures Faithful(DoStep(s, t).threads[t], DoStep(s, t).slot)
  {
    var pc := s.threads[t];
    var own := Owned(pc.arg);
    if pc.mode.Once? {
      FailedMoves(s, t, pc.mode, TakenBeforePut(own));
      FailedMoves(s, t, pc.mode, ConcurrentPut(own));
    } else {
      FailedFaithful(s, t, pc.mode, TakenBeforePut(own), s.slot);
      FailedFaithful(s, t, pc.mode, ConcurrentPut(own), s.slot);
    }
    hide Failed, Bag;
  }

  lemma OwnFaithful<T>(s: State<T>, a: Action<T>)
    requires Enabled(s, a) && Faithful(s.threads[a.t], s.slot)
    ensures Faithful(Next(s, a).threads[a.t], Next(s, a).slot)
  {
    var pc := s.threads[a.t];
    if a.Step? && pc.Trying? {
      TryFaithful(s, a.t);
      hide DoStep;
    } else if a.Step? && pc.Restoring? {
      FailedFaithful(s.(mark := IDLE), a.t, pc.mode, TakenDuringPut(pc.value), s.slot);
      hide Failed, Bag;
    } else {
      hide Failed, Bag, FirstExchange;
    }
  }

  lemma StepFaithful<T>(s: State<T>, a: Action<T>)
    requires Exclusive(s) && AllFaithful(s) && Enabled(s, a)
    ensures AllFaithful(Next(s, a))
  {
    var n := Next(s, a);
    AnyMoves(s, a);
    OwnFaithful(s, a);
    if !Inside(s.threads[a.t]) { SlotIsKept(s, a); }
    hide Next;
    forall t | 0 <= t < |n.threads| ensures Faithful(n.threads[t], n.slot) {
      assert Faithful(s.threads[t], s.slot);
      if t != a.t && Inside(s.threads[t]) {
        assert !Inside(s.threads[a.t]);
      }
    }
  }

  /** Only a thread inside touches the slot. */
  lemma SlotIsKept<T>(s: State<T>, a: Action<T>)
    requires Exclusive(s) && Enabled(s, a) && !Inside(s.threads[a.t])
    ensures Next(s, a).slot == s.slot
  {
    AnyMoves(s, a);
    hide Next;
  }

  lemma {:induction false} RunFaithful<T>(s: State<T>, run: seq<Action<T>>)
    requires Exclusive(s) && AllFaithful(s) && Legal(s, run)
    ensures Exclusive(Run(s, run)) && AllFaithful(Run(s, run))
    decreases |run|
  {
    if run != [] {
      StepExclusive(s, run[0]);
      StepFaithful(s, run[0]);
      hide Exclusive, AllFaithful, Next;
      RunFaithful(Next(s, run[0]), run[1..]);
    }
  }

  /** A thread about to write writes what its put was given: `v` for a `put(&v)`, however often it had
      to try again, and nothing for a `clear`. */
  lemma WritesWhatItWasGiven<T>(s: State<T>, run: seq<Action<T>>, t: nat)
    requires Initial(s) && Legal(s, run) && t < |Run(s, run).threads| && Run(s, run).threads[t].Writing?
    ensures var e := Run(s, run); Enabled(e, Step(t)) && Next(e, Step(t)).slot == Wanted(e.threads[t].mode)
  {
    Reached(s, run);
    var e := Run(s, run);
    hide Exclusive, Occupied, Run, Legal, Initial;
    WriteWrites(e, t);
  }

  lemma WriteWrites<T>(s: State<T>, t: nat)
    requires AllFaithful(s) && t < |s.threads| && s.threads[t].Writing?
    ensures Enabled(s, Step(t)) && Next(s, Step(t)).slot == Wanted(s.threads[t].mode)
  {
    assert Faithful(s.threads[t], s.slot);
    hide Failed, FirstExchange, FinishPut, AskTake, FinishTake;
  }

  lemma Reached<T>(s: State<T>, run: seq<Action<T>>)
    requires Initial(s) && Legal(s, run)
    ensures var e := Run(s, run); Exclusive(e) && Occupied(e) && AllFaithful(e)
  {
    RunExclusive(s, run);
    RunFaithful(s, run);
  }

  // ---------------------------------------------------------------- the cell is a register

  /** What the visits of the slot amount to, in the order in which they end: a put has stored a value, a
      put was overtaken and has withdrawn its value, a take has taken what was there. */
  datatype Effect<T> = Stored(value: Option<T>) | Withdrawn | Took(value: Option<T>)

  function EffectsOf<T>(s: State<T>, a: Action<T>): seq<Effect<T>>
    requires Enabled(s, a)
  {
    if !a.Step? then []
    else
      match s.threads[a.t]
      case Finishing(mode) => if s.mark == PUTTING then [Stored(Wanted(mode))] else []
      case Restoring(_, _) => [Withdrawn]
      case Unmarking(value) => [Took(value)]
      case _ => []
  }

  function Effects<T>(s: State<T>, run: seq<Action<T>>): seq<Effect<T>>
    requires Legal(s, run)
    decreases |run|
  {
    if run == [] then [] else EffectsOf(s, run[0]) + Effects(Next(s, run[0]), run[1..])
  }

  /** A register: a take finds what the last put has stored, and leaves nothing. */
  function Content<T>(c: Option<T>, es: seq<Effect<T>>): Option<T>
    decreases |es|
  {
    if es == [] then c else Content(if es[0].Stored? then es[0].value else None, es[1..])
  }

  predicate Explained<T(==)>(c: Option<T>, es: seq<Effect<T>>)
    decreases |es|
  {
    es == [] ||
    ((es[0].Took? ==> es[0].value == c) && Explained(if es[0].Stored? then es[0].value else None, es[1..]))
  }

  /** Until a visit ends, the register holds what it held before. */
  ghost predicate Remembers<T>(pc: Pc<T>, slot: Option<T>, c: Option<T>) {
    && (pc.Writing? || pc.Taking? || pc.Stuck? ==> slot == c)
    && (pc.Unmarking? ==> pc.value == c)
  }

  ghost predicate Tracks<T>(s: State<T>, c: Option<T>) {
    && (s.mark == IDLE ==> s.slot == c)
    && forall t :: 0 <= t < |s.threads| ==> Remembers(s.threads[t], s.slot, c)
  }

  ghost predicate Consistent<T>(s: State<T>, t: nat, c: Option<T>)
    requires t < |s.threads|
  {
    && s.mark <= PUTTING + MARKING && Sees(s.threads[t], s.mark, s.slot) && Faithful(s.threads[t], s.slot)
    && Remembers(s.threads[t], s.slot, c) && (s.mark == IDLE ==> s.slot == c)
  }

  lemma OneEffect<T>(c: Option<T>, e: Effect<T>)
    ensures Content(c, [e]) == if e.Stored? then e.value else None
    ensures Explained(c, [e]) <==> (e.Took? ==> e.value == c)
  {
    assert [e][0] == e && [e][1..] == [];
  }

  /** The step of one thread keeps the register and its own memory of it. */
  ghost predicate Follows<T>(s: State<T>, a: Action<T>, c: Option<T>)
    requires Enabled(s, a)
  {
    var n := Next(s, a); var d := Content(c, EffectsOf(s, a));
    && |n.threads| == |s.threads| && Explained(c, EffectsOf(s, a))
    && Remembers(n.threads[a.t], n.slot, d) && (n.mark == IDLE ==> n.slot == d)
    && (Inside(s.threads[a.t]) || d == c)
  }

  lemma CallTracks<T>(s: State<T>, a: Action<T>, c: Option<T>)
    requires Enabled(s, a) && Consistent(s, a.t, c)
    requires !a.Step?
    ensures Follows(s, a, c)
  {
    hide DoStep, Bag;
  }

  lemma TryTracks<T>(s: State<T>, a: Action<T>, c: Option<T>)
    requires Enabled(s, a) && Consistent(s, a.t, c)
    requires a.Step? && s.threads[a.t].Trying?
    ensures Follows(s, a, c)
  {
    hide Failed, Bag;
    var pc := s.threads[a.t];
    FailedMoves(s, a.t, pc.mode, TakenBeforePut(Owned(pc.arg)));
    FailedMoves(s, a.t, pc.mode, ConcurrentPut(Owned(pc.arg)));
  }

  lemma RestoreTracks<T>(s: State<T>, a: Action<T>, c: Option<T>)
    requires Enabled(s, a) && Consistent(s, a.t, c)
    requires a.Step? && s.threads[a.t].Restoring?
    ensures Follows(s, a, c)
  {
    hide Failed, Bag;
    var pc := s.threads[a.t];
    FailedMoves(s.(mark := IDLE), a.t, pc.mode, TakenDuringPut(pc.value));
    OneEffect(c, Withdrawn);
  }

  lemma MiddleTracks<T>(s: State<T>, a: Action<T>, c: Option<T>)
    requires Enabled(s, a) && Consistent(s, a.t, c)
    requires a.Step? && (s.threads[a.t].Writing? || s.threads[a.t].Finishing? || s.threads[a.t].TakingBack?)
    ensures Follows(s, a, c)
  {
    hide Failed, Bag, FirstExchange, AskTake, FinishTake;
    if s.threads[a.t].Finishing? { OneEffect(c, Stored(Wanted(s.threads[a.t].mode))); }
  }

  lemma TakeTracks<T>(s: State<T>, a: Action<T>, c: Option<T>)
    requires Enabled(s, a) && Consistent(s, a.t, c)
    requires a.Step? && (s.threads[a.t].Asking? || TakeInside(s.threads[a.t]))
    ensures Follows(s, a, c)
  {
    hide Failed, Bag, FirstExchange, WriteSlot, FinishPut;
    if s.threads[a.t].Unmarking? { OneEffect(c, Took(s.threads[a.t].value)); }
  }

  lemma OwnTracks<T>(s: State<T>, a: Action<T>, c: Option<T>)
    requires Enabled(s, a) && Consistent(s, a.t, c)
    ensures Follows(s, a, c)
  {
    hide DoStep, Follows, Consistent;
    var pc := s.threads[a.t];
    if !a.Step? { CallTracks(s, a, c); }
    else if pc.Trying? { TryTracks(s, a, c); }
    else if pc.Restoring? { RestoreTracks(s, a, c); }
    else if pc.Asking? || TakeInside(pc) { TakeTracks(s, a, c); }
    else { MiddleTracks(s, a, c); }
  }

  lemma StepTracks<T>(s: State<T>, a: Action<T>, c: Option<T>)
    requires Exclusive(s) && AllFaithful(s) && Tracks(s, c) && Enabled(s, a)
    ensures Explained(c, EffectsOf(s, a)) && Tracks(Next(s, a), Content(c, EffectsOf(s, a)))
  {
    var n, d := Next(s, a), Content(c, EffectsOf(s, a));
    assert Sees(s.threads[a.t], s.mark, s.slot) && Faithful(s.threads[a.t], s.slot);
    OwnTracks(s, a, c);
    AnyMoves(s, a);
    hide Next, EffectsOf, Content, Explained, Sees, Faithful;
    forall t | 0 <= t < |n.threads| ensures Remembers(n.threads[t], n.slot, d) {
      assert Remembers(s.threads[t], s.slot, c);
      if t != a.t && Inside(s.threads[t]) {
        assert !Inside(s.threads[a.t]);
        SlotIsKept(s, a);
      }
    }
  }

  lemma {:induction false} ContentConcat<T>(c: Option<T>, x: seq<Effect<T>>, y: seq<Effect<T>>)
    requires Explained(c, x) && Explained(Content(c, x), y)
    ensures Explained(c, x + y) && Content(c, x + y) == Content(Content(c, x), y)
    decreases |x|
  {
    if x == [] {
      assert x + y == y;
    } else {
      assert (x + y)[0] == x[0] && (x + y)[1..] == x[1..] + y;
      ContentConcat(if x[0].Stored? then x[0].value else None, x[1..], y);
    }
  }

  lemma {:induction false} RunTracks<T>(s: State<T>, run: seq<Action<T>>, c: Option<T>)
    requires Exclusive(s) && AllFaithful(s) && Tracks(s, c) && Legal(s, run)
    ensures Explained(c, Effects(s, run)) && Tracks(Run(s, run), Content(c, Effects(s, run)))
    decreases |run|
  {
    if run != [] {
      var n := Next(s, run[0]);
      StepExclusive(s, run[0]);
      StepFaithful(s, run[0]);
      StepTracks(s, run[0], c);
      hide Exclusive, AllFaithful, Tracks, Next, EffectsOf, Content, Explained;
      RunTracks(n, run[1..], Content(c, EffectsOf(s, run[0])));
      ContentConcat(c, EffectsOf(s, run[0]), Effects(n, run[1..]));
    }
  }

  /** For any number of threads the cell is a register: every take returns what the last put before it
      has stored, or nothing if a take or an overtaken put came after that; and whenever the mark is
      idle, the slot holds what the register holds. */
  lemma CellIsRegister<T>(s: State<T>, run: seq<Action<T>>)
    requires Initial(s) && Legal(s, run)
    ensures Explained(s.slot, Effects(s, run))
    ensures Run(s, run).mark == IDLE ==> Run(s, run).slot == Content(s.slot, Effects(s, run))
  {
    RunTracks(s, run, s.slot);
    hide Exclusive, AllFaithful;
  }

  // ---------------------------------------------------------------- what the replies mean

  ghost predicate SomePutInside<T>(s: State<T>) { exists u :: 0 <= u < |s.threads| && PutInside(s.threads[u]) }

  ghost predicate SomeTakeInside<T>(s: State<T>) { exists u :: 0 <= u < |s.threads| && TakeInside(s.threads[u]) }

  /** The reply, told by what happens in the cell. A put has succeeded when what it was given is in the
      slot; a value that comes back is the one it was given; a refusal names what is in the way. */
  ghost predicate Truthful<T>(s: State<T>, a: Action<T>, n: State<T>, r: Reply<T>)
    requires Enabled(s, a)
  {
    var pc := s.threads[a.t];
    match r
    case Success => pc.Finishing? && n.slot == Wanted(pc.mode) && n.mark == IDLE
    case TakenDuringPut(v) => pc.Restoring? && pc.mode == Once(v) && n.slot == None && n.mark == IDLE
    case TakenBeforePut(v) => pc.Trying? && v == Owned(pc.arg) && SomeTakeInside(s) && n.mark == s.mark
    case ConcurrentPut(v) => pc.Trying? && v == Owned(pc.arg) && SomePutInside(s) && n.mark == s.mark
    case TookSome(v) => pc == Unmarking(Some(v)) && n.slot == None && n.mark == IDLE
    case TookNone => pc == Unmarking(None) && n.slot == None && n.mark == IDLE
    case ConcurrentTake =>
      pc.Asking? && (SomeTakeInside(s) || (SomePutInside(s) && s.mark >= MARKING)) && n.mark == s.mark
    case PutInProgress => pc.Asking? && SomePutInside(s) && s.mark == PUTTING && n.mark == PUTTING + MARKING
  }

  lemma WhoIsInside<T>(s: State<T>)
    requires Exclusive(s) && Occupied(s)
    ensures s.mark == MARKING ==> SomeTakeInside(s)
    ensures s.mark == PUTTING || s.mark == PUTTING + MARKING ==> SomePutInside(s)
  {
    if s.mark != IDLE {
      var t :| 0 <= t < |s.threads| && Inside(s.threads[t]);
      assert Sees(s.threads[t], s.mark, s.slot);
    }
  }

  /** What a step of thread `t` says, if it says anything. */
  ghost predicate Says<T>(s: State<T>, a: Action<T>, n: State<T>)
    requires Enabled(s, a) && |n.threads| == |s.threads|
  {
    || (n.replies == s.replies && !n.threads[a.t].Idle?)
    || (|n.replies| == |s.replies| + 1 && n.replies[..|s.replies|] == s.replies && n.threads[a.t].Idle?
        && n.replies[|s.replies|].0 == a.t && Truthful(s, a, n, n.replies[|s.replies|].1))
  }

  lemma TrySays<T>(s: State<T>, a: Action<T>)
    requires Enabled(s, a) && a.Step? && s.threads[a.t].Trying? && s.mark <= PUTTING + MARKING
    requires s.mark == MARKING ==> SomeTakeInside(s)
    requires s.mark == PUTTING || s.mark == PUTTING + MARKING ==> SomePutInside(s)
    ensures |Next(s, a).threads| == |s.threads| && Says(s, a, Next(s, a))
  {
    hide SomePutInside, SomeTakeInside, Bag;
    var pc := s.threads[a.t];
    FailedSays(s, a.t, pc.mode, TakenBeforePut(Owned(pc.arg)));
    FailedSays(s, a.t, pc.mode, ConcurrentPut(Owned(pc.arg)));
    hide Failed;
  }

  lemma FailedSays<T>(s: State<T>, t: nat, mode: Mode<T>, r: Reply<T>)
    requires t < |s.threads| && (r.TakenDuringPut? || r.TakenBeforePut? || r.ConcurrentPut?)
    ensures var n := Failed(s, t, mode, r);
            && |n.threads| == |s.threads| && n.mark == s.mark && n.slot == s.slot
            && (if mode.Once? then n.threads[t] == Idle && n.replies == s.replies + [(t, r)]
                else n.threads[t].Trying? && n.threads[t].mode == mode && n.replies == s.replies)
  {
  }

  lemma OtherSays<T>(s: State<T>, a: Action<T>)
    requires Enabled(s, a) && !(a.Step? && s.threads[a.t].Trying?) && s.mark <= PUTTING + MARKING
    requires Sees(s.threads[a.t], s.mark, s.slot) && Faithful(s.threads[a.t], s.slot)
    requires s.mark == MARKING ==> SomeTakeInside(s)
    requires s.mark == PUTTING || s.mark == PUTTING + MARKING ==> SomePutInside(s)
    ensures |Next(s, a).threads| == |s.threads| && Says(s, a, Next(s, a))
  {
    hide SomePutInside, SomeTakeInside, Bag, Failed;
    var pc := s.threads[a.t];
    if a.Step? && pc.Restoring? {
      FailedSays(s.(mark := IDLE), a.t, pc.mode, TakenDuringPut(pc.value));
    }
  }

  lemma StepSays<T>(s: State<T>, a: Action<T>)
    requires Exclusive(s) && Occupied(s) && AllFaithful(s) && Enabled(s, a)
    ensures |Next(s, a).threads| == |s.threads| && Says(s, a, Next(s, a))
  {
    WhoIsInside(s);
    assert Sees(s.threads[a.t], s.mark, s.slot) && Faithful(s.threads[a.t], s.slot);
    hide AllFaithful, Occupied, Next, Says, Sees, Faithful;
    if a.Step? && s.threads[a.t].Trying? { TrySays(s, a); } else { OtherSays(s, a); }
  }

  /** In every reachable state: a thread speaks exactly when its call ends, and what it says is true. */
  lemma RepliesAreTrue<T>(s: State<T>, run: seq<Action<T>>, a: Action<T>)
    requires Initial(s) && Legal(s, run) && Enabled(Run(s, run), a)
    ensures var e := Run(s, run); |Next(e, a).threads| == |e.threads| && Says(e, a, Next(e, a))
  {
    Reached(s, run);
    hide Run, Legal, Initial;
    StepSays(Run(s, run), a);
  }

  /** A call starts at its first exchange, or at its `fetch_or`: `put(&v)` is to store `v` until it
      succeeds, `clear` nothing, and `try_put` what it was given, once. */
  lemma CallBegins<T>(s: State<T>, a: Action<T>)
    requires Enabled(s, a) && !a.Step? && !a.ClonePanics?
    ensures var n := Next(s, a); var pc := n.threads[a.t];
            && n == s.(threads := s.threads[a.t := pc], born := n.born)
            && match a
               case CallTryPut(_, arg) =>
                 pc.Trying? && pc.arg == arg && pc.mode.Once? && Wanted(pc.mode) == Given(arg)
                 && n.born == s.born + Bag(Owned(arg))
               case CallPut(_, v) =>
                 pc.Trying? && Given(pc.arg) == Some(v) == Wanted(pc.mode) && pc.mode.UntilPut? && n.born == s.born
               case CallClear(_) => pc.Trying? && pc.arg.Nothing? && pc.mode.UntilClear? && n.born == s.born
               case _ => pc.Asking? && n.born == s.born
  {
    hide DoStep;
  }

  /** `put` and `clear` return only when they have succeeded: no step but a success ends them, and every
      other one leaves them the same put. */
  lemma PutsUntilSuccess<T>(s: State<T>, a: Action<T>)
    requires Enabled(s, a) && a.Step? && PutMode(s.threads[a.t]).Some? && !PutMode(s.threads[a.t]).value.Once?
    ensures var n := Next(s, a);
            if n.threads[a.t].Idle? then n.replies == s.replies + [(a.t, Success)] && s.threads[a.t].Finishing?
            else PutMode(n.threads[a.t]) == PutMode(s.threads[a.t])
  {
    var pc := s.threads[a.t];
    hide Bag;
    if pc.Trying? {
      FailedSays(s, a.t, pc.mode, TakenBeforePut(Owned(pc.arg)));
      FailedSays(s, a.t, pc.mode, ConcurrentPut(Owned(pc.arg)));
      hide Failed;
    } else if pc.Restoring? {
      FailedSays(s.(mark := IDLE), a.t, pc.mode, TakenDuringPut(pc.value));
      hide Failed;
    }
  }

  function PutMode<T>(pc: Pc<T>): Option<Mode<T>> {
    match pc
    case Trying(mode, _) => Some(mode)
    case Writing(mode, _) => Some(mode)
    case Finishing(mode) => Some(mode)
    case TakingBack(mode) => Some(mode)
    case Restoring(mode, _) => Some(mode)
    case _ => None
  }

  // ---------------------------------------------------------------- put, then take

  /** A put that nobody disturbs stores its value and reports success. */
  lemma UndisturbedPut<T>(s: State<T>, t: nat, mode: Mode<T>, arg: Arg<T>)
    requires t < |s.threads| && s.mark == IDLE && s.threads[t] == Trying(mode, arg)
    ensures var run := [Step(t), Step(t), Step(t)];
            && Legal(s, run)
            && var e := Run(s, run);
               && e.slot == Given(arg) && e.mark == IDLE
               && e.threads == s.threads[t := Idle]
               && e.replies == s.replies + [(t, Success)]
  {
    var s1 := Next(s, Step(t));
    assert s1.threads[t] == Writing(mode, arg) && s1.mark == PUTTING;
    var s2 := Next(s1, Step(t));
    assert s2.threads[t] == Finishing(mode) && s2.mark == PUTTING && s2.slot == Given(arg);
    var s3 := Next(s2, Step(t));
    assert s3.threads == s.threads[t := Idle];
    ThreeSteps(s, Step(t));
  }

  /** A take that nobody disturbs returns what is in the slot, and empties it. */
  lemma UndisturbedTake<T>(s: State<T>, t: nat)
    requires t < |s.threads| && s.mark == IDLE && s.threads[t] == Asking
    ensures var run := [Step(t), Step(t), Step(t)];
            && Legal(s, run)
            && var e := Run(s, run);
               && e.slot == None && e.mark == IDLE
               && e.threads == s.threads[t := Idle]
               && e.replies == s.replies + [(t, if s.slot.Some? then TookSome(s.slot.value) else TookNone)]
  {
    var s1 := Next(s, Step(t));
    assert s1.threads[t] == Taking && s1.mark == MARKING;
    var s2 := Next(s1, Step(t));
    assert s2.threads[t] == Unmarking(s.slot) && s2.mark == MARKING && s2.slot == None;
    var s3 := Next(s2, Step(t));
    assert s3.threads == s.threads[t := Idle];
    ThreeSteps(s, Step(t));
  }

  lemma ThreeSteps<T>(s: State<T>, a: Action<T>)
    requires Enabled(s, a) && Enabled(Next(s, a), a) && Enabled(Next(Next(s, a), a), a)
    ensures Legal(s, [a, a, a]) && Run(s, [a, a, a]) == Next(Next(Next(s, a), a), a)
  {
    hide Next;
    assert [a, a, a][1..] == [a, a] && [a, a][1..] == [a] && [a][1..] == [];
    assert Legal(Next(Next(Next(s, a), a), a), []);
    assert Legal(Next(Next(s, a), a), [a]);
    assert Legal(Next(s, a), [a, a]);
    assert Run(Next(Next(s, a), a), [a]) == Next(Next(Next(s, a), a), a);
    assert Run(Next(s, a), [a, a]) == Next(Next(Next(s, a), a), a);
  }

  /** Round trip: a value put into an idle cell is what the next take returns. */
  lemma PutThenTake<T>(s: State<T>, t: nat, u: nat, mode: Mode<T>, v: T)
    requires t < |s.threads| && u < |s.threads| && t != u && s.mark == IDLE
    requires s.threads[t] == Trying(mode, Own(v)) && s.threads[u] == Asking
    ensures var put := [Step(t), Step(t), Step(t)]; var take := [Step(u), Step(u), Step(u)];
            && Legal(s, put) && Legal(Run(s, put), take)
            && Run(Run(s, put), take).replies == s.replies + [(t, Success)] + [(u, TookSome(v))]
            && Run(Run(s, put), take).slot == None
  {
    hide Next;
    UndisturbedPut(s, t, mode, Own(v));
    UndisturbedTake(Run(s, [Step(t), Step(t), Step(t)]), u);
  }
}
