# juggle, verified

juggle is a cooperative scheduler for one thread. A wheel keeps its tasks in a slab, polls them in
round robin, goes to sleep when none is runnable and relies on an outer waker to be polled again.
Tasks may call the wheel's handle while they are polled, wakes may come from other threads, and a
group of tasks can share the time by slots. This project models these parts and proves what they
promise, over every run.

| file | what it models |
|---|---|
| `Options.dfy` | optional values |
| `SlabModel.dfy`, `ChunkSlab.dfy` | the chunked slab, as a value and as chunks changed in place |
| `TimingModel.dfy`, `Balancer.dfy` | the time-slot balancer, as a value and as the shared group behind the task wrappers |
| `Scheduler.dfy` | the scheduler as a state machine with wakes split into their three steps |
| `SchedulerSafety.dfy` | the invariant of all runs: counter, result, wake-ups |
| `SchedulerEffects.dfy` | what the steps do: flags, handle calls, who may leave, the outer waker, when a poll returns |
| `SchedulerTurns.dfy` | whose turn it is: round robin, polls, cancelling, termination |
| `SchedulerLimits.dfy` | runs in which the scheduler falls short of its documentation |
| `LiveScheduler.dfy` | the registry and the scheduler as objects that carry the run they have taken |
| `BalancedWheel.dfy` | the stack put together: balanced tasks on a wheel |
| `AtomicCell.dfy`, `MarkerCell.dfy` | the two lock-free cells, for any number of threads |
| `WeakCell.dfy` | the first cell where its exchange fails spuriously, and exactly when it is correct then |
| `StaticTask.dfy` | the life of a static task's future |

The value-level slab is used by the balancer and by the registry, and the objects of
`LiveScheduler.dfy` are tied to the state machine: their `Valid` says that their fields are what a
legal run of the machine leads to, so the theorems about runs are theorems about them. The outer
waker sits in an `AtomicCell`; that its swaps may be taken as single steps is what
`AtomicCells.Linearizable` says, as long as the exchange does not fail spuriously.

User code is an arbitrary sequence of handle calls that ends in Ready, in Pending or in a panic.
Clocks, and the time and the answer of a polled future, are parameters.

What turned out not to hold of the code:

* A task that suspends itself and returns Ready in the same poll leaves the suspended counter one too
  high for good. The wheel can then report that all tasks are suspended while one is waiting
  (`SchedulerLimits.WrongSuspendError`), or go to sleep when all are (`SchedulerLimits.WrongPending`).
  `SchedulerSafety.ResultExact` says exactly when the result is right.
* A wake first notifies the outer waker and then sets the task's flag. If the wheel registers its
  waker and scans in between, the wake-up is lost (`SchedulerLimits.LostWakeUp`, and for every such
  state `SchedulerLimits.StraddlingWakeIsLost`). Without such a straddling wake none is lost.
* The handle does not notify the outer waker. A task spawned while the wheel sleeps, or one resumed
  whose flag is set, is runnable and nobody polls it (`SchedulerLimits.UnheardSpawn`,
  `SchedulerLimits.UnheardResume`). These are the only tasks that a handle call can leave unheard
  (`SchedulerSafety.WakeUpSafety`, `SchedulerSafety.UnheardExactly`).
* A task that panics whenever it is polled keeps the tasks in the slots behind it from being looked
  at (`SchedulerLimits.PanicsStarve`).
* A member of a balancing group that gets no turn, for instance because its task is suspended, can lock
  out the others: they wake themselves in every beat and never run. This is so exactly if somebody
  starves and none of the others does, or if all others are at the maximum and the absent member is
  below it, however closely (`TimingModel.BlockedExactly`; both happen, `TimingModel.BlockedIsReached`).
* A clone that panics inside a put leaves the marker cell locked for good: no put or take ever succeeds
  again (`MarkerCells.ClonePanicJams`, `MarkerCells.JammedForever`).
* `try_swap` and `try_apply` use the weak compare-exchange and take a spurious failure for success.
  Whenever two threads are about to swap, one such failure loses a value and duplicates another
  (`WeakCells.SpuriousFailureLosesValue`). With the weak exchange the cell is linearizable, excludes
  other threads and conserves values exactly if calls do not overlap (`WeakCells.LinearExactly`,
  `WeakCells.ExclusiveExactly`, `WeakCells.ConservesExactly`).

## Model

| member | source | states |
|---|---|---|
| `SlabModel.RunRefinesMap` | src/utils/chunk_slab.rs:57-166 | Every sequence of inserts, removes, retains and clears behaves like a finite map with room for as many keys as the key type has: fresh keys, the right values, a panic exactly when full; the free list survives and `len` counts the map |
| `SlabModel.FollowIsFree` | src/utils/chunk_slab.rs:57-97 | Following `next` visits every empty cell exactly once and ends at the truncated capacity, also where that is key 0 of a slab that uses all keys |
| `SlabModel.InsertKeepsChain` | src/utils/chunk_slab.rs:57-79 | Insert succeeds if and only if fewer values than keys are stored; `unreachable!`, an index out of bounds and a key overflow cannot happen before that |
| `SlabModel.InsertContents` | src/utils/chunk_slab.rs:57-79 | The new key was free, the map gains exactly that pair, and the key is below the capacity or starts a new chunk |
| `SlabModel.FillsExactly` | src/utils/chunk_slab.rs:57-62 | A key type with 2^w keys takes exactly 2^w values: of any series of inserts, those for which there is room store their value and all others panic |
| `SlabModel.IterAgrees` | src/utils/chunk_slab.rs:129-139 | The iterator yields exactly the pairs of the map by strictly increasing key |
| `SlabModel.RetainMap` | src/utils/chunk_slab.rs:152-166 | Retain leaves exactly the pairs that the predicate accepts |
| `ChunkSlabs.ChunkSlab.InitChunk` | src/utils/chunk_slab.rs:19-28 | The loop builds a full first cell and fifteen linked empty ones, the last link truncated |
| `ChunkSlabs.ChunkSlab.Insert` | src/utils/chunk_slab.rs:57-79 | In place, insert is the value-level insert; existing chunks keep their place and identity |
| `ChunkSlabs.ChunkSlab.Remove` | src/utils/chunk_slab.rs:81-97 | In place, remove is the value-level remove, and an empty cell is restored |
| `ChunkSlabs.ChunkSlab.Clear` | src/utils/chunk_slab.rs:99-103 | The slab is empty again |
| `ChunkSlabs.ChunkSlab.Lookup` | src/utils/chunk_slab.rs:107-117 | `get` is the lookup in the map |
| `ChunkSlabs.ChunkSlab.Iter` | src/utils/chunk_slab.rs:129-139 | The nested iteration collects the value-level iterator |
| `ChunkSlabs.ChunkSlab.Retain` | src/utils/chunk_slab.rs:152-166 | The nested loops are the value-level retain; no chunk moves |
| `TimingModel.CanExecuteMeans` | src/utils/timing.rs:157-175 | The gate without iterators: an entry at the maximum runs only if all are there, and while somebody starves only entries at or below nine tenths run |
| `TimingModel.PerSlotMeans` | src/utils/timing.rs:194-196 | The per-slot time is the time divided by the slots, rounded down |
| `TimingModel.GateOverTime` | src/utils/timing.rs:157-175 | The gate over times and slots alone: a member that has used its slots times the maximum runs only if all have, and while somebody is within nine tenths of the maximum only such members run |
| `TimingModel.SlotsCount` | src/utils/timing.rs:157-196 | A run from the empty group in which a member with ten slots has used five times as much as one with a single slot, and runs while the other is held back |
| `TimingModel.StepMeans` | src/utils/timing.rs:124-192 | What each call does to the entries and to the maximum |
| `TimingModel.MaxIsAttained` | src/utils/timing.rs:181-184 | The maximum is the largest per-slot time any member has had since the group was cleared: it never falls, bounds everybody, and was somebody's |
| `TimingModel.NeverDeadlocks` | src/utils/timing.rs:124-192 | After any calls, gated or not, the maximum is at least every per-slot time and, if the group is not empty, somebody may run |
| `TimingModel.LeastMayRun` | src/utils/timing.rs:157-175 | Whoever has used the least time per slot passes the gate |
| `TimingModel.FairRun` | src/utils/timing.rs:157-192 | Quantitative fairness: with gated charges of at most D on a fixed or shrinking group, the maximum is at most 10 D or every entry is above nine tenths of the maximum less D; also as a bound on times and slots: ten times the time exceeds the slots times nine times the maximum less D |
| `TimingModel.CatchUpStep` | src/utils/timing.rs:157-192 | While somebody starves and the maximum is at least 10 D, the maximum is frozen, only lagging entries run, and each charge shortens the backlog |
| `TimingModel.CatchUpPhase` | src/utils/timing.rs:157-192 | Over the whole phase, whoever leaves meanwhile, the maximum does not move, and the phase ends within as many executed polls as the backlog is long |
| `TimingModel.Recovers` | src/utils/timing.rs:157-192 | From any reachable group, after more executed polls than the backlog is long, the group is fair, whoever leaves meanwhile |
| `TimingModel.RoundExecutes` | src/utils/load.rs:142-157 | Giving every member its turn executes at least one of them, unless a member leaves |
| `TimingModel.RecoversInRounds` | src/utils/load.rs:142-157 | One more round of the members that are left than the backlog makes the group fair, whoever leaves meanwhile |
| `TimingModel.BlockedExactly` | src/utils/timing.rs:157-175 | Without the turns of a set of members nobody ever executes again, whoever is polled and whoever leaves, if and only if there are no others, or somebody starves and none of the others does, or all others are at the maximum and somebody absent is below it |
| `TimingModel.BlockedIsReached` | src/utils/timing.rs:124-192 | Runs from the empty group to both of the last cases |
| `TimingModel.AbsenteeBlocks` | src/utils/timing.rs:157-175 | In particular, while the only member at or below nine tenths of the maximum gets no turn, nobody executes, and this stays so |
| `Balancer.TimingGroup.Insert` | src/utils/timing.rs:124-131 | A fresh entry with no time used; zero slots panic |
| `Balancer.TimingGroup.Remove` | src/utils/timing.rs:136-138 | Exactly that entry leaves and the maximum stays; an unknown key panics |
| `Balancer.TimingGroup.Clear` | src/utils/timing.rs:148-151 | No entries, maximum zero |
| `Balancer.TimingGroup.CanExecute` | src/utils/timing.rs:157-175 | The gate, as a condition on the entries, and as one on their times and slots |
| `Balancer.TimingGroup.UpdateDuration` | src/utils/timing.rs:181-192 | The charge; the maximum is the greater one of the old maximum and the charged time divided by the slots |
| `Balancer.LoadBalance.With` | src/utils/load.rs:106-116 | Founds a group of one; zero slots panic |
| `Balancer.LoadBalance.Insert` | src/utils/load.rs:119-128 | Joins the group of this wrapper under a fresh key with no time used; zero slots panic and change nothing |
| `Balancer.LoadBalance.Poll` | src/utils/load.rs:142-157 | Runs and charges the inner future if and only if the gate is open; otherwise wakes itself and changes nothing; a panic of the inner future is not charged |
| `Balancer.LoadBalance.Drop` | src/utils/load.rs:79-100 | Dropping a wrapper takes its entry out |
| `BalancedWheel.BeatIsRound` | src/utils/load.rs:142-157 | In one run of wheel and group together, a full beat polls the wrapper of every member exactly once, or the wrapper is cancelled and its entry is out of the group at the end |
| `BalancedWheel.BeatsRestoreFairness` | src/utils/load.rs:10-16 | Over one run of wheel and group together, in which a wrapper that is held back wakes itself, the inner futures do not panic and yield by waking themselves, and nobody suspends a wrapped task: every beat executes a member, less one beat for each member that is cancelled, and after more beats than the backlog, cancelled members or not, the group is fair, whoever finishes, spawns or panics besides |
| `BalancedWheel.StepInvStack` | src/utils/load.rs:142-157 | Every step keeps what the above starts from: each member has a wrapper on the wheel that is runnable, being polled, or cancelled and about to be swept |
| `BalancedWheel.Adopts` | src/utils/load.rs:119-128 | So does joining the group and being spawned, between two polls of the wheel or by a task outside the group |
| `SchedulerSafety.SuspendedAccounting` | src/dy/unordered_algorithm.rs:43-106 | Over every run the counter is the number of suspended tasks plus the tasks that finished while suspended, so no decrement underflows |
| `SchedulerSafety.ResultExact` | src/dy/unordered_algorithm.rs:202-223 | When a poll returns no cancelled task is left, Ready(true) means no task is left, and the result is the promised one if and only if the leaked counts do not stand in for waiting tasks |
| `SchedulerSafety.ResultClassified` | src/dy/unordered_algorithm.rs:202-223 | In runs where no poll finishes a suspended task: done, all suspended, or waiting, exactly |
| `SchedulerSafety.WakeUpSafety` | src/dy/unordered_algorithm.rs:202-223 | From Pending until the wheel is polled again, whatever handle calls and wakes come: a runnable live task implies that the outer waker was invoked, or is held by a wake about to invoke it, or that a wake of that task had passed its notify step before the registration, or that the task was spawned since or was suspended then with its flag set |
| `SchedulerSafety.UnheardExactly` | src/dy/unordered_algorithm.rs:43-77 | While nobody has been notified and only handle calls follow, a runnable task goes unheard if and only if it is one of the exceptions and not the target of a straddling wake |
| `SchedulerSafety.NoWakeUpLost` | src/dy/dyn_future.rs:108-114 | If wakes run to completion between the scheduler's steps, the outer waker has been invoked, with the same two exceptions |
| `SchedulerEffects.FlagExact` | src/dy/dyn_future.rs:56-114 | Over every run a task's flag is set if and only if the last of its spawn, the completions of its wakes and the starts of its polls is not the start of a poll |
| `SchedulerEffects.WakesComplete` | src/dy/dyn_future.rs:108-114 | Every wake that was started is completed or still in progress, at the task it was meant for |
| `SchedulerEffects.WokenIsPolled` | src/dy/dyn_future.rs:108-114 | A task whose wake is completed while the wheel sleeps is polled exactly once in the first beat of the next poll |
| `SchedulerEffects.InvokedAtMostOnce` | src/utils/mod.rs:192-205 | The waker of one registration is invoked at most once |
| `SchedulerEffects.InvokedExact` | src/utils/mod.rs:192-205 | The history of invocations is what the wake-up theorems take it for |
| `SchedulerEffects.StraddledAt` | src/dy/dyn_future.rs:108-114 | The straddling wakes are those in progress at the last registration |
| `SchedulerEffects.SuspendMeans` | src/dy/unordered_algorithm.rs:68-77 | A suspend takes effect exactly on a task without a stop reason; that task is suspended and nothing else changes but the counter |
| `SchedulerEffects.ResumeMeans` | src/dy/unordered_algorithm.rs:56-65 | A resume takes effect exactly on a suspended task; that task is freed and nothing else changes but the counter |
| `SchedulerEffects.CancelMeans` | src/dy/unordered_algorithm.rs:94-106 | A cancel takes effect exactly on a task not yet cancelled |
| `SchedulerEffects.SpawnMeans` | src/dy/unordered_algorithm.rs:45-53 | A spawn adds exactly one task, under a free key, with an identity of its own and its flag set |
| `SchedulerEffects.SuspendStops` | src/dy/unordered_algorithm.rs:68-77 | After a suspend that took effect the task is not polled again before a resume, whoever wakes it |
| `SchedulerEffects.ResumedIsPolled` | src/dy/unordered_algorithm.rs:56-65 | After a resume that took effect, a task whose flag is set or gets set is polled exactly once in the next beat |
| `SchedulerEffects.NoTaskIsLost` | src/dy/unordered_algorithm.rs:225-255 | A task stays in the wheel, under its key, until a poll of it finishes or it is cancelled |
| `SchedulerEffects.ReturnsAfterTwoIdleBeats` | src/dy/unordered_algorithm.rs:202-223 | A poll of the wheel returns exactly when two beats in a row have polled nobody |
| `SchedulerLimits.StraddlingWakeIsLost` | src/dy/dyn_future.rs:108-114 | From every state in which a wake of a waiting task is past its notify step when the first scan ends, the wheel can fall asleep on that task |
| `SchedulerLimits.LostWakeUp` | src/dy/dyn_future.rs:108-114 | Such a run exists from an empty wheel |
| `SchedulerLimits.WrongSuspendError` | src/dy/unordered_algorithm.rs:249-252 | A run that ends in the suspend error although a task waits and none is suspended |
| `SchedulerLimits.WrongPending` | src/dy/unordered_algorithm.rs:249-252 | A run that ends in Pending although all tasks left are suspended and nobody is about to wake the wheel |
| `SchedulerLimits.SpawnIsUnheard` | src/dy/unordered_algorithm.rs:45-53 | After every Pending that nobody has answered, a spawned task is runnable and unheard |
| `SchedulerLimits.ResumeIsUnheard` | src/dy/unordered_algorithm.rs:56-65 | So is a resumed task whose flag was set |
| `SchedulerLimits.UnheardSpawn` | src/dy/unordered_algorithm.rs:45-53 | A run from an empty wheel to the first of these |
| `SchedulerLimits.UnheardResume` | src/dy/unordered_algorithm.rs:56-65 | A run from an empty wheel to the second |
| `SchedulerLimits.PanicsStarve` | src/dy/unordered_algorithm.rs:242-248 | The bound with panics is reached: with a task in slot 0 that panics at n polls, that slot is visited n + 1 times and no other slot at all |
| `SchedulerTurns.RoundRobin` | src/dy/unordered_algorithm.rs:225-255 | Between two visits of a slot no other slot is visited more than once, plus once for each poll that panics, across beats and polls, whatever finishes or is spawned |
| `SchedulerTurns.PolledExactlyOnce` | src/dy/unordered_algorithm.rs:225-255 | A task that may run and is runnable before its turn, and is not suspended or cancelled before it, is polled exactly once in the beat |
| `SchedulerTurns.SelfWakeIsDue` | src/dy/dyn_future.rs:56-81 | A task whose flag is set while it is polled, and that yields and is left alone, has its turn in the next beat |
| `SchedulerTurns.CancelIsFinal` | src/dy/unordered_algorithm.rs:93-106 | A cancelled task is never polled again and keeps its key and state, whatever handle calls follow, until it is gone for good |
| `SchedulerTurns.CancelledIsSwept` | src/dy/unordered_algorithm.rs:230-238 | It is gone once the scan has passed its slot |
| `SchedulerTurns.SuspendedIsNotPolled` | src/dy/unordered_algorithm.rs:67-77 | A suspended task is not polled before it is resumed |
| `SchedulerTurns.FinishedIsFinal` | src/dy/unordered_algorithm.rs:249-252 | A task that returned Ready is gone and never polled again |
| `SchedulerTurns.PollsNeedWakes` | src/dy/dyn_future.rs:56-81 | A task is polled at most once per time its flag was set |
| `SchedulerTurns.RunnableIsPolled` | src/dy/unordered_algorithm.rs:202-206 | Whatever may run and is runnable when the wheel is polled, woken tasks included, is polled exactly once in the first beat |
| `SchedulerTurns.SpawnedIsPolled` | src/dy/unordered_algorithm.rs:45-53 | So is a task spawned before |
| `SchedulerTurns.WakerOnlyWhileListening` | src/utils/mod.rs:192-205 | No outer waker is registered during first beats or after a Ready result |
| `SchedulerTurns.BeatsNeedPolls` | src/dy/unordered_algorithm.rs:202-223 | p polls pay for at most 2 p + 1 beats of one poll of the wheel |
| `SchedulerTurns.OutsidePolls` | src/dy/unordered_algorithm.rs:225-255 | Visits, sweeps, wakes and the ends of beats never raise what the live tasks need |
| `SchedulerTurns.PollReturns` | src/dy/unordered_algorithm.rs:202-223 | If every poll, with the tasks it spawns, lowers the number of polls that the live tasks still need, the wheel polls at most that often before its own poll returns, within twice as many beats and one |
| `LiveScheduler.Registry.Get` | src/dy/registry.rs:125-144 | The lookup, counted as a borrow if it finds a task; panics during a retain |
| `LiveScheduler.Registry.Insert` | src/dy/registry.rs:147-162 | Panics exactly during iteration or retain; otherwise a fresh key |
| `LiveScheduler.Registry.Remove` | src/dy/registry.rs:165-176 | Panics exactly while something is borrowed or iterated |
| `LiveScheduler.Registry.Retain` | src/dy/registry.rs:87-115 | Panics exactly while something is borrowed or iterated, else keeps the tasks that the predicate accepts; if the predicate panics, the tasks from there on stay; both flags are restored in every case |
| `LiveScheduler.UnorderedAlgorithm.Register` | src/dy/unordered_algorithm.rs:45-53 | The spawn step, under a fresh key |
| `LiveScheduler.UnorderedAlgorithm.Resume` | src/dy/unordered_algorithm.rs:56-65 | The resume step; true if and only if the task was suspended, and then exactly this task is free afterwards; the counter stays a natural number |
| `LiveScheduler.UnorderedAlgorithm.Suspend` | src/dy/unordered_algorithm.rs:68-77 | The suspend step; true if and only if the task had no stop reason, and then exactly this task is suspended afterwards |
| `LiveScheduler.UnorderedAlgorithm.GetState` | src/dy/unordered_algorithm.rs:79-91 | The five states |
| `LiveScheduler.UnorderedAlgorithm.Cancel` | src/dy/unordered_algorithm.rs:94-106 | The cancel step; true if and only if a task not yet cancelled was found, and then exactly this task is cancelled afterwards |
| `LiveScheduler.UnorderedAlgorithm.WakeStep` | src/dy/dyn_future.rs:108-114 | Any one step of any wake is a step of the machine and touches no task |
| `LiveScheduler.UnorderedAlgorithm.VisitSlot` | src/dy/unordered_algorithm.rs:230-243 | One iteration of the scan is the visit step; no borrow is out when a cancelled task is removed |
| `LiveScheduler.UnorderedAlgorithm.EnterTask` | src/dy/dyn_future.rs:56-78 | The flag is cleared before user code runs, and the recursion guard never trips |
| `LiveScheduler.UnorderedAlgorithm.LeaveTask` | src/dy/unordered_algorithm.rs:248-252 | The guards are undone and a finished task is found and removed with no borrow out |
| `LiveScheduler.UnorderedAlgorithm.BeatOnce` | src/dy/unordered_algorithm.rs:225-255 | For any user code and wakes, a beat is a run of the machine; its result says whether somebody was polled; the borrow counter returns to zero |
| `LiveScheduler.UnorderedAlgorithm.PollInternal` | src/dy/unordered_algorithm.rs:202-223 | For any user code and wakes, a poll is a run of the machine, its result is the classified one, and every pass without a result polled somebody |
| `AtomicCells.Linearizable` | src/utils/cell.rs:39-128 | For any number of threads with an exchange that does not fail spuriously, and with the weak exchange if calls do not overlap: swaps and applies form one total order, each starting from and returning what its predecessor left; a panicking function leaves the cell unchanged |
| `AtomicCells.RealTimeOrder` | src/utils/cell.rs:39-128 | An operation that has returned before another call begins comes before it in the order |
| `AtomicCells.MutualExclusion` | src/utils/cell.rs:39-53 | At most one thread is inside the cell, the mark is not set when nobody is, and without spurious failures it is set while one is |
| `AtomicCells.CallBegins` | src/utils/cell.rs:39-128 | A call starts at the exchange with the operation it was given |
| `AtomicCells.CallEnds` | src/utils/cell.rs:39-128 | A call ends through its release, which clears the mark, or, if it does not retry, at an exchange that finds the mark set, and then gives its argument back |
| `AtomicCells.TryMeans` | src/utils/cell.rs:39-53 | Whoever tries while the mark is clear gets in; otherwise nobody does, and a call that retries is left as it was |
| `AtomicCells.RetriesUntilReleased` | src/utils/cell.rs:61-71 | A swap or an apply ends only through its release |
| `AtomicCells.Conservation` | src/utils/cell.rs:39-71 | Swaps keep the multiset of the values of all threads and the cell |
| `WeakCells.SpuriousFailureLosesValue` | src/utils/cell.rs:39-53 | One spurious failure between two swaps loses one value and duplicates another, unless they are equal |
| `WeakCells.LinearExactly` | src/utils/cell.rs:39-128 | With the weak exchange, some order of the operations explains all results in every run with at most n calls at a time, if and only if n is at most 1 or one thread alone uses the cell |
| `WeakCells.ExclusiveExactly` | src/utils/cell.rs:39-53 | At most one thread is ever inside under the same condition, and under no other |
| `WeakCells.ConservesExactly` | src/utils/cell.rs:39-71 | Swaps conserve values in every such run if and only if n is at most 1, or one thread owns everything, or all values are equal |
| `MarkerCells.MarkProtocol` | src/st/atomic_marker.rs:63-108 | The mark is one of four values, at most one thread touches the value, every thread inside sees the marks that the debug assertions expect, and the mark is idle exactly when nobody is inside; a put whose clone panicked stays inside for good |
| `MarkerCells.OvertakenPutFails` | src/st/atomic_marker.rs:63-108 | After a take has set MARKING, the slot is empty when the mark next becomes idle, and no put reports success in between |
| `MarkerCells.NoValueTwice` | src/st/atomic_marker.rs:41-108 | Every value that entered is in exactly one place: slot, under way, with one caller, or dropped |
| `MarkerCells.PutThenTake` | src/st/atomic_marker.rs:63-101 | What an undisturbed put stores is what the next undisturbed take returns |
| `MarkerCells.CellIsRegister` | src/st/atomic_marker.rs:63-108 | For any number of threads the cell is a register: every take returns what the last put before it has stored, unless a take or an overtaken put came after that |
| `MarkerCells.WritesWhatItWasGiven` | src/st/atomic_marker.rs:41-69 | Whoever writes the slot writes what its put was given, however often it had to retry, and a clear writes nothing |
| `MarkerCells.RepliesAreTrue` | src/st/atomic_marker.rs:63-108 | A call speaks exactly when it ends, and each reply is true: after a success the slot holds what was given, a failed put hands its own value back, and a refusal names a put or a take that is inside |
| `MarkerCells.PutsUntilSuccess` | src/st/atomic_marker.rs:41-62 | put and clear return only on success |
| `MarkerCells.CallBegins` | src/st/atomic_marker.rs:41-108 | What each call sets out to do |
| `MarkerCells.JammedForever` | src/st/atomic_marker.rs:63-108 | Once a clone has panicked, the slot never changes, and every put and take is refused |
| `MarkerCells.ClonePanicJams` | src/st/atomic_marker.rs:65-69 | One put by reference into an idle cell is enough for that |
| `StaticTasks.Lifecycle` | src/st/config.rs:61-109 | Over every sequence of calls and panics: no future is constructed over a live one, polled when dead or after Ready, or destroyed twice, and one is live exactly while the flag is CREATED |
| `StaticTasks.LifecycleFromStart` | src/st/config.rs:61-109 | In particular from a task that was never handled; the flag then is always one of three |
| `StaticTasks.ReadyIsLast` | src/st/config.rs:98-107 | The only thing that follows Ready is the destruction of that future |
| `StaticTasks.StatusSetsFlag` | src/st/config.rs:64-83 | Where cancel, uninit and restart lead, panics included |
| `StaticTasks.DroppedStays` | src/st/config.rs:85-93 | A cancelled or finished task is revived neither by polls nor by cancels |
| `StaticTasks.ReplyMeans` | src/st/config.rs:61-109 | The call unwinds exactly if something panics; otherwise it answers Ready if and only if no future is live afterwards, and Pending if and only if it has polled the live future and this was not ready |
| `StaticTasks.CallAppends` | src/st/config.rs:61-109 | What a call does to the futures: discard the live one, construct one, poll it once, and destroy it if it was ready, each exactly when it should |
| `StaticTasks.PlainCallPolls` | src/st/config.rs:85-107 | A plain call on a live future polls it exactly once and answers what the future answered |
| `StaticTasks.StaticTask.HandleTask` | src/st/config.rs:61-109 | The routine, with the safety of each construction, poll and destruction as a precondition, and the meaning of its answer |

## Left out

- LiveScheduler.UnorderedAlgorithm.PollInternal: runs the first `passes` passes of a loop that the program does not bound; `SchedulerTurns.PollReturns` bounds it for tasks that end.
- AtomicCells.Conservation: for swaps only; an applied function replaces the value.
- ChunkSlabs.ChunkSlab.Insert: with `usize` keys, for slabs of fewer than 2^64 values; more do not fit into memory.
- Durations are natural numbers of any size: overflow of `max * 9` and of the sums in narrow integer types, and negative durations, are not modelled.
- Memory orderings: the cells and the wakes are modelled under sequential consistency.
- BalancedWheel.BeatsRestoreFairness: counts the backlog from the last join on; `BalancedWheel.Adopts` says that a join leads to a state it applies to.
- A stored value whose destructor panics while a put overwrites it.
- A task whose destructor calls the handle, and a balanced task that changes its own group while it is polled.
- The queue-based `src/dy/algorithm.rs`, which the wheel does not use, and the counters of the static wheel in `src/st/algorithm.rs`.
- `src/utils/signal.rs` and the wakers at the end of `src/st/atomic_marker.rs`, which are unfinished in the source.
- Task names, spawn parameters, identifiers, debug output, the static configuration macro, clocks, `block_on`, `Yield`, raw wakers, reference counts and pinning: thin, or without an algorithm.
