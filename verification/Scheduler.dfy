/**
 The live scheduler as a state machine, one transition per step that another thread can observe.

 Tasks live in the slots of a slab. A task's wake flag outlives the task, because wakers hold it;
 hence flags are kept by task identity, not by key. User code is an arbitrary sequence of handle
 calls between `Begin` and `End`. A wake runs on any thread, at any time, in three steps: it takes
 the outer waker out of the registry, invokes it if there was one, and then sets the task's flag.
 */
module Scheduler {
  import opened Options
  import SlabModel

  type Key = nat
  type TaskId = nat

  datatype StopReason = NotStopped | Suspended | Cancelled

  datatype Task = Task(id: TaskId, reason: StopReason)

  /** Result of `poll_internal`. */
  datatype Poll = Ready(allFinished: bool) | Pending

  /** How user code leaves a poll. */
  datatype Outcome = Finished | Yielded | Panicked

  /** A wake in progress; `held` is the registration whose waker it took and must still invoke. */
  datatype Wake = Wake(id: TaskId, held: Option<nat>)

  datatype Pc =
    | Outside                                                // nobody is in `poll_internal`
    | Returned(result: Poll)                                 // it just returned
    | Beat(second: bool, slot: nat, limit: nat, polled: bool)  // about to look at `slot`
    | Chosen(second: bool, slot: nat, limit: nat)            // entering `poll_local`
    | Inside(second: bool, slot: nat, limit: nat)            // in user code

  datatype State = State(
    tasks: map<Key, Task>,
    capacity: nat,
    suspended: int,               // suspended_count
    current: Option<Key>,
    waker: bool,                  // is an outer waker registered?
    runnable: set<TaskId>,        // the wake flags
    polling: set<TaskId>,         // the recursion guards
    pc: Pc,
    wakes: seq<Wake>,
    // history, which no branch reads
    nextId: TaskId,
    leaked: nat,                  // tasks removed as finished while suspended
    epoch: nat,                   // registrations of the outer waker so far
    invoked: bool,                // has the waker of this registration been invoked?
    straddlers: set<TaskId>)      // targets of wakes in progress when it was registered

  datatype Action =
    | Spawn(key: Key, suspended: bool)
    | Resume(key: Key)
    | Suspend(key: Key)
    | Cancel(key: Key)
    | Enter                       // `poll_internal` begins
    | Visit                       // one iteration of the scan, up to the poll
    | Begin                       // `poll_local` clears the flag and enters user code
    | End(outcome: Outcome)
    | EndBeat                     // the scan is over: what `poll_internal` does next
    | Notify(id: TaskId)          // a wake takes the outer waker
    | Invoke(w: nat)              // ...invokes it
    | Store(w: nat)               // ...and sets the flag

  const INIT := State(map[], 0, 0, None, false, {}, {}, Outside, [], 0, 0, 0, false, {})

  // ---------------------------------------------------------------- transitions

  /** Handle calls come from user code, or from the thread's own code between two polls. */
  predicate HandleTime(pc: Pc) { pc.Outside? || pc.Returned? || pc.Inside? }

  predicate Enabled(s: State, a: Action) {
    match a
    case Spawn(key, _) => HandleTime(s.pc) && key !in s.tasks && key <= s.capacity
    case Resume(_) => HandleTime(s.pc)
    case Suspend(_) => HandleTime(s.pc)
    case Cancel(_) => HandleTime(s.pc)
    case Enter => s.pc.Outside? || s.pc.Returned?
    case Visit => s.pc.Beat? && s.pc.slot < s.pc.limit
    case Begin => s.pc.Chosen?
    case End(_) => s.pc.Inside?
    case EndBeat => s.pc.Beat? && s.pc.slot >= s.pc.limit
    case Notify(id) => id < s.nextId
    case Invoke(w) => w < |s.wakes| && s.wakes[w].held.Some?
    case Store(w) => w < |s.wakes| && s.wakes[w].held.None?
  }

  predicate Is(s: State, key: Key, r: StopReason) { key in s.tasks && s.tasks[key].reason == r }

  function SetReason(s: State, key: Key, r: StopReason): State
    requires key in s.tasks
  {
    s.(tasks := s.tasks[key := s.tasks[key].(reason := r)])
  }

  /** A handle call from outside ends the stretch in which a returned result describes the tasks. */
  function AfterCall(s: State): State { if s.pc.Returned? then s.(pc := Outside) else s }

  function DoSpawn(s: State, key: Key, suspended: bool): State {
    s.(tasks := s.tasks[key := Task(s.nextId, if suspended then Suspended else NotStopped)],
       capacity := if key == s.capacity then s.capacity + SlabModel.CHUNK_SIZE else s.capacity,
       suspended := if suspended then s.suspended + 1 else s.suspended,
       runnable := s.runnable + {s.nextId},
       nextId := s.nextId + 1)
  }

  function DoResume(s: State, key: Key): State {
    if Is(s, key, Suspended) then SetReason(s, key, NotStopped).(suspended := s.suspended - 1) else s
  }

  function DoSuspend(s: State, key: Key): State {
    if Is(s, key, NotStopped) then SetReason(s, key, Suspended).(suspended := s.suspended + 1) else s
  }

  function DoCancel(s: State, key: Key): State {
    if key !in s.tasks || s.tasks[key].reason == Cancelled then s
    else
      SetReason(s, key, Cancelled).(
        suspended := if s.tasks[key].reason == Suspended then s.suspended - 1 else s.suspended)
  }

  function DoVisit(s: State): State
    requires s.pc.Beat?
  {
    var k := s.pc.slot;
    var skip := s.(pc := Beat(s.pc.second, k + 1, s.pc.limit, s.pc.polled));
    if k !in s.tasks then skip
    else if s.tasks[k].reason == Cancelled then skip.(tasks := s.tasks - {k})
    else if s.tasks[k].reason == Suspended || s.tasks[k].id !in s.runnable then skip
    else s.(pc := Chosen(s.pc.second, k, s.pc.limit), current := Some(k))
  }

  function DoBegin(s: State): State
    requires s.pc.Chosen?
  {
    var ids := if s.pc.slot in s.tasks then {s.tasks[s.pc.slot].id} else {};
    s.(pc := Inside(s.pc.second, s.pc.slot, s.pc.limit), runnable := s.runnable - ids, polling := s.polling + ids)
  }

  function DoEnd(s: State, o: Outcome): State
    requires s.pc.Inside?
  {
    var k := s.pc.slot;
    var ids := if k in s.tasks then {s.tasks[k].id} else {};
    var t := s.(current := None, polling := s.polling - ids);
    var on := Beat(s.pc.second, k + 1, s.pc.limit, true);
    match o
    case Panicked => t.(pc := Outside)
    case Yielded => t.(pc := on)
    case Finished =>
      t.(pc := on, tasks := s.tasks - {k}, leaked := if Is(s, k, Suspended) then s.leaked + 1 else s.leaked)
  }

  function Targets(ws: seq<Wake>): set<TaskId> { set i: nat | i < |ws| :: ws[i].id }

  function Decide(s: State): Poll {
    if |s.tasks| == 0 || |s.tasks| == s.suspended then Ready(|s.tasks| == 0) else Pending
  }

  function DoEndBeat(s: State): State
    requires s.pc.Beat?
  {
    var again := Beat(false, 0, s.capacity, false);
    if s.pc.polled then
      s.(pc := again, waker := if s.pc.second then false else s.waker)
    else if !s.pc.second then
      s.(pc := Beat(true, 0, s.capacity, false),
         waker := true, epoch := s.epoch + 1, invoked := false, straddlers := Targets(s.wakes))
    else
      s.(pc := Returned(Decide(s)), waker := if Decide(s).Ready? then false else s.waker)
  }

  function Apply(s: State, a: Action): State
    requires Enabled(s, a)
  {
    match a
    case Spawn(key, suspended) => AfterCall(DoSpawn(s, key, suspended))
    case Resume(key) => AfterCall(DoResume(s, key))
    case Suspend(key) => AfterCall(DoSuspend(s, key))
    case Cancel(key) => AfterCall(DoCancel(s, key))
    case Enter => s.(pc := Beat(false, 0, s.capacity, false), waker := false)
    case Visit => DoVisit(s)
    case Begin => DoBegin(s)
    case End(o) => DoEnd(s, o)
    case EndBeat => DoEndBeat(s)
    case Notify(id) => s.(wakes := s.wakes + [Wake(id, if s.waker then Some(s.epoch) else None)], waker := false)
    case Invoke(w) =>
      s.(wakes := s.wakes[w := s.wakes[w].(held := None)],
         invoked := s.invoked || s.wakes[w].held == Some(s.epoch))
    case Store(w) =>
      s.(wakes := s.wakes[..w] + s.wakes[w + 1..], runnable := s.runnable + {s.wakes[w].id})
  }

  predicate Legal(s: State, run: seq<Action>)
    decreases |run|
  {
    run == [] || (Enabled(s, run[0]) && Legal(Apply(s, run[0]), run[1..]))
  }

  function Run(s: State, run: seq<Action>): State
    requires Legal(s, run)
    decreases |run|
  {
    if run == [] then s else Run(Apply(s, run[0]), run[1..])
  }

  // ---------------------------------------------------------------- what every step keeps

  ghost predicate Shape(s: State) { InRange(s) && Distinct(s) && Flags(s) }

  ghost predicate InRange(s: State) {
    forall k :: k in s.tasks ==> k < s.capacity && s.tasks[k].id < s.nextId
  }

  ghost predicate Distinct(s: State) {
    forall k, j :: k in s.tasks && j in s.tasks && s.tasks[k].id == s.tasks[j].id ==> k == j
  }

  ghost predicate Flags(s: State) {
    && (forall id :: id in s.runnable ==> id < s.nextId)
    && (forall i :: 0 <= i < |s.wakes| ==> s.wakes[i].id < s.nextId)
    && (forall id :: id in s.straddlers ==> id < s.nextId)
  }

  /** Where the scan is, and which task it holds. */
  ghost predicate Position(s: State) {
    match s.pc
    case Beat(_, slot, limit, polled) =>
      && slot <= limit <= s.capacity && s.current == None && s.polling == {}
      && (!polled ==> limit == s.capacity)
    case Chosen(_, slot, limit) =>
      && slot < limit <= s.capacity && s.current == Some(slot) && s.polling == {}
      && Is(s, slot, NotStopped) && s.tasks[slot].id in s.runnable
    case Inside(_, slot, limit) =>
      && slot < limit <= s.capacity && s.current == Some(slot)
      && slot in s.tasks && s.polling == {s.tasks[slot].id}
    case _ => s.current == None && s.polling == {}
  }

  function WithReason(tasks: map<Key, Task>, r: StopReason): set<Key> { set k | k in tasks && tasks[k].reason == r }

  /** The counter is the number of suspended tasks plus the tasks that finished while suspended. */
  ghost predicate Counted(s: State) { s.suspended == |WithReason(s.tasks, Suspended)| + s.leaked }

  /** A scan that has polled nobody leaves no cancelled task behind it. */
  ghost predicate Swept(s: State) {
    match s.pc
    case Beat(_, slot, _, polled) => !polled ==> forall k: nat :: k < slot ==> !Is(s, k, Cancelled)
    case Returned(r) => (forall k: nat :: !Is(s, k, Cancelled)) && r == Decide(s)
    case _ => true
  }

  ghost predicate Inv(s: State) { Shape(s) && Position(s) && Counted(s) && Swept(s) && Heard(s) }

  // ---------------------------------------------------------------- wake-ups

  /** Between registering the outer waker and the next deregistration. */
  predicate Listening(pc: Pc) {
    pc == Returned(Pending) || ((pc.Beat? || pc.Chosen? || pc.Inside?) && pc.second)
  }

  /** The outer waker of this registration has been invoked, or a wake holds it and is about to. */
  ghost predicate Notified(s: State) {
    s.invoked || exists i :: 0 <= i < |s.wakes| && s.wakes[i].held == Some(s.epoch)
  }

  ghost predicate Covered(s: State, id: TaskId) { Notified(s) || id in s.straddlers }

  /** The scan has passed slot `k` since the waker was registered, and polled nobody. */
  ghost predicate Passed(s: State, k: Key) {
    s.pc == Returned(Pending) || (s.pc.Beat? && s.pc.second && !s.pc.polled && k < s.pc.slot)
  }

  ghost predicate Heard(s: State) { Held(s) && Listens(s) && Missed(s) }

  ghost predicate Held(s: State) {
    forall i :: 0 <= i < |s.wakes| && s.wakes[i].held.Some? ==> s.wakes[i].held.value <= s.epoch
  }

  ghost predicate Listens(s: State) {
    Listening(s.pc) ==>
      && (s.waker || Notified(s))
      && (forall i :: 0 <= i < |s.wakes| ==> Covered(s, s.wakes[i].id))
  }

  /** A task that became runnable behind the scan's back is covered. */
  ghost predicate Missed(s: State) {
    forall k: nat :: Passed(s, k) && Is(s, k, NotStopped) && s.tasks[k].id in s.runnable ==> Covered(s, s.tasks[k].id)
  }
}
