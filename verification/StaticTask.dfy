/**
 The life of a static task's future: one static slot, one flag, and a routine that constructs,
 polls and destroys the future in the slot, any of which may panic.
 */
module StaticTasks {

  const RESTART_TASK: nat := 1
  const CANCEL_TASK: nat := 2
  const UNINIT_TASK: nat := 3

  const FLAG_UNINIT: nat := 0
  const FLAG_CREATED: nat := 1
  const FLAG_DROPPED: nat := 2

  /** What happens to the futures of the slot; a future is named by its number. */
  datatype Event = Created(id: nat) | Polled(id: nat, ready: bool) | Destroyed(id: nat)

  datatype PollOutcome = PollReady | PollPending | PollPanics

  /** What user code does during one call. A destructor that panics has run all the same. */
  datatype World = World(initPanics: bool, dropPanics: bool, poll: PollOutcome, lastDropPanics: bool)

  datatype Reply = Ready | Pending | Unwound

  /** The flag, the future whose bytes are in the slot, and the history. */
  datatype Life = Life(flag: nat, slot: nat, created: nat, log: seq<Event>)

  const START := Life(FLAG_UNINIT, 0, 0, [])

  function Init(s: Life): Life {
    Life(FLAG_CREATED, s.created, s.created + 1, s.log + [Created(s.created)])
  }

  function PollSlot(s: Life, w: World): (Life, Reply) {
    match w.poll
    case PollPanics => (s.(log := s.log + [Polled(s.slot, false)]), Unwound)
    case PollPending => (s.(log := s.log + [Polled(s.slot, false)]), Pending)
    case PollReady =>
      (s.(flag := FLAG_DROPPED, log := s.log + [Polled(s.slot, true), Destroyed(s.slot)]),
       if w.lastDropPanics then Unwound else Ready)
  }

  function InitAndPoll(s: Life, w: World): (Life, Reply) {
    if w.initPanics then (s, Unwound) else PollSlot(Init(s), w)
  }

  /** The first half of a call with a status: drop what is there and move the flag. */
  function Discard(s: Life, status: nat): Life {
    if s.flag == FLAG_CREATED then
      s.(flag := if status == CANCEL_TASK then FLAG_DROPPED else FLAG_UNINIT, log := s.log + [Destroyed(s.slot)])
    else if s.flag == FLAG_DROPPED && status == UNINIT_TASK then s.(flag := FLAG_UNINIT)
    else if s.flag == FLAG_UNINIT && status == CANCEL_TASK then s.(flag := FLAG_DROPPED)
    else s
  }

  function Handle(s: Life, status: nat, w: World): (Life, Reply) {
    if status > UNINIT_TASK then (s, Unwound)                     // the debug assertion
    else if status != 0 then
      var t := Discard(s, status);
      if s.flag == FLAG_CREATED && w.dropPanics then (t, Unwound)
      else if status == RESTART_TASK then InitAndPoll(t, w)
      else (t, Ready)
    else if s.flag == FLAG_UNINIT then InitAndPoll(s, w)
    else if s.flag == FLAG_DROPPED then (s, Ready)
    else PollSlot(s, w)
  }

  function Calls(s: Life, calls: seq<(nat, World)>): Life
    decreases |calls|
  {
    if calls == [] then s else Calls(Handle(s, calls[0].0, calls[0].1).0, calls[1..])
  }

  // ---------------------------------------------------------------- what a slot may go through

  /** A slot is empty, or holds one live future, which may have returned Ready. */
  datatype Slot = Vacant(next: nat) | Holds(id: nat, ready: bool) | Broken

  /** A future is constructed only into a vacant slot and only once, polled only while it is live
      and has not returned Ready, and destroyed only while it is live. */
  function After(c: Slot, e: Event): Slot {
    match e
    case Created(i) => if c == Vacant(i) then Holds(i, false) else Broken
    case Polled(i, r) => if c == Holds(i, false) then Holds(i, r) else Broken
    case Destroyed(i) => if c == Holds(i, true) || c == Holds(i, false) then Vacant(i + 1) else Broken
  }

  function Replay(log: seq<Event>): Slot {
    if log == [] then Vacant(0) else After(Replay(log[..|log| - 1]), log[|log| - 1])
  }

  lemma ReplayMore(log: seq<Event>, e: Event)
    ensures Replay(log + [e]) == After(Replay(log), e)
  {
    assert (log + [e])[..|log|] == log;
  }

  /** The flag tells what the slot holds. */
  ghost predicate Valid(s: Life) {
    && s.flag <= FLAG_DROPPED
    && Replay(s.log) == (if s.flag == FLAG_CREATED then Holds(s.slot, false) else Vacant(s.created))
    && (s.flag == FLAG_CREATED ==> s.created == s.slot + 1)
  }

  lemma InitValid(s: Life)
    requires Valid(s) && s.flag != FLAG_CREATED
    ensures Valid(Init(s))
  {
    ReplayMore(s.log, Created(s.created));
  }

  lemma PollValid(s: Life, w: World)
    requires Valid(s) && s.flag == FLAG_CREATED
    ensures Valid(PollSlot(s, w).0)
  {
    ReplayMore(s.log, Polled(s.slot, false));
    ReplayMore(s.log, Polled(s.slot, true));
    ReplayMore(s.log + [Polled(s.slot, true)], Destroyed(s.slot));
    assert s.log + [Polled(s.slot, true), Destroyed(s.slot)] == s.log + [Polled(s.slot, true)] + [Destroyed(s.slot)];
  }

  lemma DiscardValid(s: Life, status: nat)
    requires Valid(s)
    ensures Valid(Discard(s, status)) && Discard(s, status).flag != FLAG_CREATED
  {
    ReplayMore(s.log, Destroyed(s.slot));
  }

  lemma InitAndPollValid(s: Life, w: World)
    requires Valid(s) && s.flag != FLAG_CREATED
    ensures Valid(InitAndPoll(s, w).0)
  {
    hide Valid, PollSlot;
    if !w.initPanics {
      InitValid(s);
      PollValid(Init(s), w);
    }
  }

  lemma HandleValid(s: Life, status: nat, w: World)
    requires Valid(s)
    ensures Valid(Handle(s, status, w).0)
  {
    hide Valid, Discard, InitAndPoll, PollSlot;
    OnlyThreeFlags(s);
    if status != 0 {
      DiscardValid(s, status);
      InitAndPollValid(Discard(s, status), w);
    } else if s.flag == FLAG_CREATED {
      PollValid(s, w);
    } else {
      InitAndPollValid(s, w);
    }
  }

  function Count(log: seq<Event>, made: bool): nat {
    if log == [] then 0
    else
      var last := log[|log| - 1];
      Count(log[..|log| - 1], made) + if (if made then last.Created? else last.Destroyed?) then 1 else 0
  }

  /** A history that never breaks constructs one more future than it destroys, or equally many. */
  lemma {:induction false} ReplayCounts(log: seq<Event>)
    requires !Replay(log).Broken?
    ensures Count(log, true) == Count(log, false) + if Replay(log).Holds? then 1 else 0
    decreases |log|
  {
    if log != [] { ReplayCounts(log[..|log| - 1]); }
  }

  /** Over every sequence of calls, whatever panics: futures are constructed, polled and destroyed
      in the only orders allowed, and one is live exactly while the flag is CREATED. */
  lemma {:induction false} Lifecycle(s: Life, calls: seq<(nat, World)>)
    requires Valid(s)
    ensures var e := Calls(s, calls);
            && Valid(e) && !Replay(e.log).Broken?
            && Count(e.log, true) - Count(e.log, false) == if e.flag == FLAG_CREATED then 1 else 0
    decreases |calls|
  {
    if calls == [] {
      ReplayCounts(s.log);
    } else {
      HandleValid(s, calls[0].0, calls[0].1);
      hide Valid;
      Lifecycle(Handle(s, calls[0].0, calls[0].1).0, calls[1..]);
    }
  }

  lemma OnlyThreeFlags(s: Life)
    requires Valid(s)
    ensures s.flag <= FLAG_DROPPED
  {
  }

  /** In particular from a task that has never been handled. */
  lemma LifecycleFromStart(calls: seq<(nat, World)>)
    ensures var e := Calls(START, calls);
            && Valid(e) && !Replay(e.log).Broken? && e.flag <= FLAG_DROPPED
            && Count(e.log, true) - Count(e.log, false) == if e.flag == FLAG_CREATED then 1 else 0
  {
    assert Valid(START);
    Lifecycle(START, calls);
    OnlyThreeFlags(Calls(START, calls));
  }

  /** After Ready, that future is never polled again and is destroyed exactly once: the only event
      that can follow is its destruction. */
  lemma ReadyIsLast(log: seq<Event>, i: nat)
    requires 0 <= i < |log| - 1 && log[i].Polled? && log[i].ready && !Replay(log).Broken?
    ensures log[i + 1] == Destroyed(log[i].id)
  {
    NeverRepaired(log, i + 2);
    NeverRepaired(log, i + 1);
    assert log[..i + 2][..i + 1] == log[..i + 1];
    assert log[..i + 1][..i] == log[..i];
  }

  lemma {:induction false} NeverRepaired(log: seq<Event>, n: nat)
    requires n <= |log| && !Replay(log).Broken?
    ensures !Replay(log[..n]).Broken?
    decreases |log|
  {
    if n == |log| {
      assert log[..n] == log;
    } else {
      NeverRepaired(log[..|log| - 1], n);
      assert log[..|log| - 1][..n] == log[..n];
    }
  }

  // ---------------------------------------------------------------- what the statuses mean

  /** Cancelling ends in DROPPED, even if the destructor panics, and UNINIT in UNINIT. */
  lemma StatusSetsFlag(s: Life, w: World)
    requires Valid(s)
    ensures Handle(s, CANCEL_TASK, w).0.flag == FLAG_DROPPED
    ensures Handle(s, UNINIT_TASK, w).0.flag == FLAG_UNINIT
    ensures s.flag == FLAG_UNINIT && !w.initPanics ==> Handle(s, 0, w).0.created == s.created + 1
    ensures !w.initPanics && !(s.flag == FLAG_CREATED && w.dropPanics) ==>
              Handle(s, RESTART_TASK, w).0.created == s.created + 1
  {
  }

  /** A cancelled or finished task stays so: plain polls and further cancels do nothing at all. */
  lemma {:induction false} DroppedStays(s: Life, calls: seq<(nat, World)>)
    requires s.flag == FLAG_DROPPED
    requires forall i :: 0 <= i < |calls| ==> calls[i].0 == 0 || calls[i].0 == CANCEL_TASK
    ensures Calls(s, calls) == s
    decreases |calls|
  {
    if calls != [] {
      assert calls[0].0 == 0 || calls[0].0 == CANCEL_TASK;
      DroppedStays(s, calls[1..]);
    }
  }

  // ---------------------------------------------------------------- what a call answers, and does

  /** The call has a future to poll: a live one, or one that it constructs first. */
  predicate Polls(s: Life, status: nat, w: World) {
    (status == 0 && s.flag == FLAG_CREATED) || Constructs(s, status, w)
  }

  predicate Constructs(s: Life, status: nat, w: World) { Tries(s, status, w) && !w.initPanics }

  predicate Tries(s: Life, status: nat, w: World) {
    || (status == 0 && s.flag == FLAG_UNINIT)
    || (status == RESTART_TASK && !(s.flag == FLAG_CREATED && w.dropPanics))
  }

  /** Something panics: the check of the status, the destructor of the future that is discarded, the
      constructor, the poll, or the destructor of the future that has finished. */
  predicate Panics(s: Life, status: nat, w: World) {
    || status > UNINIT_TASK
    || (0 < status && s.flag == FLAG_CREATED && w.dropPanics)
    || (Tries(s, status, w) && w.initPanics)
    || (Polls(s, status, w) && (w.poll == PollPanics || (w.poll == PollReady && w.lastDropPanics)))
  }

  /** How the history of a call ends. */
  predicate EndsWith(log: seq<Event>, e: Event) { log != [] && log[|log| - 1] == e }

  /** The answer of every call. It unwinds exactly if something panics; otherwise it is Ready if and only
      if no future is live afterwards, and Pending if and only if the call has polled the future that is
      live afterwards and this one was not ready. */
  lemma ReplyMeans(s: Life, status: nat, w: World)
    requires Valid(s)
    ensures var (e, r) := Handle(s, status, w);
            && (r == Unwound <==> Panics(s, status, w))
            && (r == Ready <==> !Panics(s, status, w) && e.flag != FLAG_CREATED)
            && (r == Pending <==> !Panics(s, status, w) && |e.log| > |s.log| && EndsWith(e.log, Polled(e.slot, false)))
            && (r == Pending <==> Polls(s, status, w) && w.poll == PollPending)
  {
    OnlyThreeFlags(s);
    hide Valid, Replay;
  }

  function PollsIn(log: seq<Event>): nat {
    if log == [] then 0
    else PollsIn(log[..|log| - 1]) + if log[|log| - 1].Polled? then 1 else 0
  }

  /** What a call appends to the history: at most one future is destroyed first, one constructed, that
      one polled once, and destroyed if and only if it was ready. */
  lemma CallAppends(s: Life, status: nat, w: World)
    requires Valid(s) && status <= UNINIT_TASK
    ensures var e := Handle(s, status, w).0;
            var discarded := if status != 0 && s.flag == FLAG_CREATED then [Destroyed(s.slot)] else [];
            var made := if Constructs(s, status, w) then [Created(s.created)] else [];
            var polled := if Polls(s, status, w) then [Polled(e.slot, w.poll == PollReady)] else [];
            var last := if Polls(s, status, w) && w.poll == PollReady then [Destroyed(e.slot)] else [];
            && e.log == s.log + discarded + made + polled + last
            && e.slot == (if Constructs(s, status, w) then s.created else s.slot)
            && e.created == (if Constructs(s, status, w) then s.created + 1 else s.created)
  {
    OnlyThreeFlags(s);
    hide Valid, Replay;
  }

  /** A plain call on a live future polls it, exactly once, and answers what the future answered. */
  lemma PlainCallPolls(s: Life, w: World)
    requires Valid(s) && s.flag == FLAG_CREATED
    ensures var (e, r) := Handle(s, 0, w);
            && PollsIn(e.log) == PollsIn(s.log) + 1
            && (w.poll == PollPending ==> r == Pending && e == s.(log := s.log + [Polled(s.slot, false)]))
            && (w.poll == PollReady && !w.lastDropPanics ==> r == Ready && e.flag == FLAG_DROPPED)
  {
    var ready := w.poll == PollReady;
    CallAppends(s, 0, w);
    var e := Handle(s, 0, w).0;
    var one := s.log + [Polled(s.slot, ready)];
    assert one[..|one| - 1] == s.log;
    if ready {
      assert e.log == one + [Destroyed(s.slot)] && e.log[..|e.log| - 1] == one;
    } else {
      assert e.log == one;
    }
    hide Valid, Replay;
  }

  // ---------------------------------------------------------------- the routine

  class StaticTask {
    var flag: nat
    var slot: nat
    var created: nat
    ghost var log: seq<Event>

    ghost function View(): Life
      reads this
    {
      Life(flag, slot, created, log)
    }

    constructor ()
      ensures View() == START
    {
      flag, slot, created, log := FLAG_UNINIT, 0, 0, [];
    }

    /** `task.as_mut_ptr().drop_in_place()` */
    method DropInPlace()
      requires Replay(log).Holds? && Replay(log).id == slot
      modifies `log
      ensures log == old(log) + [Destroyed(slot)]
    {
      log := log + [Destroyed(slot)];
    }

    /** `*task = MaybeUninit::new(init())`, which must not overwrite a live future. */
    method Construct()
      requires Replay(log) == Vacant(created)
      modifies `slot, `created, `log
      ensures slot == old(created) && created == old(created) + 1 && log == old(log) + [Created(slot)]
    {
      slot, created := created, created + 1;
      log := log + [Created(slot)];
    }

    /** `pin.poll(cx)`, which must only touch a live future that has not returned Ready. */
    method PollFuture(ready: bool)
      requires Replay(log) == Holds(slot, false)
      modifies `log
      ensures log == old(log) + [Polled(slot, ready)]
    {
      log := log + [Polled(slot, ready)];
    }

    method HandleTask(status: nat, w: World) returns (r: Reply)
      requires Valid(View())
      modifies this
      ensures Valid(View()) && (View(), r) == Handle(old(View()), status, w)
      ensures r == Unwound <==> Panics(old(View()), status, w)
      ensures r == Ready <==> r != Unwound && flag != FLAG_CREATED
      ensures r == Pending <==> r != Unwound && |log| > |old(log)| && EndsWith(log, Polled(slot, false))
    {
      ReplyMeans(View(), status, w);
      hide Valid, Discard, PollSlot, Init;
      HandleValid(View(), status, w);
      if status != 0 {
        if status > UNINIT_TASK {
          return Unwound;
        }
        DiscardValid(View(), status);
        var live := flag == FLAG_CREATED;
        DropPrevious(status);
        if live && w.dropPanics {
          return Unwound;
        }
        if status != RESTART_TASK {
          return Ready;
        }
        r := CreateAndPoll(w);
      } else if flag == FLAG_UNINIT {
        r := CreateAndPoll(w);
      } else if flag == FLAG_DROPPED {
        r := Ready;
      } else {
        OnlyThreeFlags(View());
        r := FinishCall(w);
      }
    }

    /** The `match` on the flag: drop what is there, the flag moved first in case that unwinds. */
    method DropPrevious(status: nat)
      requires Valid(View()) && 0 < status <= UNINIT_TASK
      modifies this
      ensures View() == Discard(old(View()), status)
    {
      hide Replay;
      if flag == FLAG_CREATED {
        flag := if status == RESTART_TASK || status == UNINIT_TASK then FLAG_UNINIT else FLAG_DROPPED;
        DropInPlace();
      } else if flag == FLAG_DROPPED && status == UNINIT_TASK {
        flag := FLAG_UNINIT;
      } else if flag == FLAG_UNINIT && status == CANCEL_TASK {
        flag := FLAG_DROPPED;
      }
    }

    /** The flag is set after construction, so a panic in `init` leaves it as it was. */
    method CreateAndPoll(w: World) returns (r: Reply)
      requires Valid(View()) && flag != FLAG_CREATED
      modifies this
      ensures (View(), r) == InitAndPoll(old(View()), w)
    {
      hide Replay, PollSlot;
      if w.initPanics {
        return Unwound;
      }
      InitValid(View());
      Construct();
      flag := FLAG_CREATED;
      r := FinishCall(w);
    }

    /** The tail of the routine: the flag is CREATED. */
    method FinishCall(w: World) returns (r: Reply)
      requires Valid(View()) && flag == FLAG_CREATED
      modifies this
      ensures (View(), r) == PollSlot(old(View()), w)
    {
      hide Replay;
      ReplayMore(log, Polled(slot, true));
      PollFuture(w.poll == PollReady);
      match w.poll
      case PollPanics => r := Unwound;
      case PollPending => r := Pending;
      case PollReady =>
        flag := FLAG_DROPPED;
        DropInPlace();
        assert log == old(log) + [Polled(slot, true), Destroyed(slot)];
        r := if w.lastDropPanics then Unwound else Ready;
    }
  }
}
