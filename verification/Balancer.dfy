/**
 The balancer as the program runs it: a group changed in place, shared by the wrappers of its
 tasks. Each method takes the step of the value-level model that carries its name.
 */
module Balancer {
  import opened Options
  import opened SlabModel
  import T = TimingModel

  class TimingGroup {
    var info: Slab<T.TimeEntry>
    var max: nat

    ghost function View(): T.Group
      reads this
    {
      T.Group(info, max)
    }

    ghost predicate Valid()
      reads this
    {
      T.Valid(View())
    }

    constructor ()
      ensures Valid() && View() == T.EMPTY
    {
      info, max := EmptySlab(), 0;
      EmptyValid<T.TimeEntry>(USIZE);
    }

    /** `None` is the panic for zero slots. */
    method Insert(slots: nat) returns (key: Option<nat>)
      requires Valid() && info.len < USIZE.count
      modifies this
      ensures Valid() && View() == T.Step(old(View()), T.Join(slots))
      ensures key.None? <==> slots == 0
      ensures key.Some? ==> key.value !in old(T.Entries(View()))
                            && T.Entries(View()) == old(T.Entries(View()))[key.value := T.TimeEntry(0, slots)]
    {
      hide SlabModel.Valid;
      T.StepValid(View(), T.Join(slots));
      if slots == 0 {
        return None;
      }
      InsertOutcome(info, USIZE, T.TimeEntry(0, slots));
      InsertContents(info, USIZE, T.TimeEntry(0, slots));
      var r := SlabModel.Insert(info, USIZE, T.TimeEntry(0, slots));
      info := r.slab;
      return Some(r.key);
    }

    /** `found` is false when the call panics because no entry has this key. */
    method Remove(key: nat) returns (found: bool)
      requires Valid()
      modifies this
      ensures Valid() && View() == T.Step(old(View()), T.Leave(key))
      ensures found <==> key in old(T.Entries(View()))
      ensures T.Entries(View()) == old(T.Entries(View())) - {key} && max == old(max)
    {
      hide SlabModel.Valid;
      T.StepValid(View(), T.Leave(key));
      RemoveMap(info, key);
      MapOfGet(info);
      found := Get(info, key).Some?;
      info := SlabModel.Remove(info, key);
    }

    method Clear()
      modifies this
      ensures Valid() && View() == T.Step(old(View()), T.Reset) == T.EMPTY
      ensures T.Entries(View()) == map[] && max == 0
    {
      info, max := EmptySlab(), 0;
      EmptyValid<T.TimeEntry>(USIZE);
    }

    /** `None` is the panic for an unknown key. */
    method CanExecute(key: nat) returns (r: Option<bool>)
      ensures r == T.CanExecute(View(), key)
      ensures r.Some? <==> key in T.Entries(View())
      ensures r.Some? ==>
                (r.value <==>
                   var (m, p) := (T.Entries(View()), T.PerSlot(T.Entries(View())[key]));
                   && (p == max ==> forall k :: k in m ==> T.PerSlot(m[k]) == max)
                   && (T.Starving(View()) ==> p <= T.MinBound(max)))
      ensures Valid() && r.Some? ==>
                var m := T.Entries(View());
                (r.value <==>
                   && (m[key].sum >= m[key].slots * max ==> forall k :: k in m ==> m[k].sum >= m[k].slots * max)
                   && (T.Lagging(View()) ==> T.Within(m[key], max * 9 / 10)))
    {
      MapOfGet(info);
      if key in T.Entries(View()) {
        T.CanExecuteMeans(View(), key);
        if T.Valid(View()) { T.GateOverTime(View(), key); }
      }
      var own := Get(info, key);
      if own.None? {
        return None;
      }
      var dur := T.PerSlot(own.value);
      var it := IterFrom(info, 0);
      if dur == max {
        if exists i :: 0 <= i < |it| && T.PerSlot(it[i].1) != dur {
          return Some(false);
        }
      }
      var minBound := max * 9 / 10;
      if |it| > 0 && T.MinTime(it) <= minBound {
        return Some(dur <= minBound);
      }
      return Some(true);
    }

    method UpdateDuration(key: nat, d: nat) returns (found: bool)
      requires Valid()
      modifies this
      ensures Valid() && View() == T.Step(old(View()), T.Spend(key, d))
      ensures found <==> key in old(T.Entries(View()))
      ensures !found ==> View() == old(View())
      ensures found ==>
                var e := old(T.Entries(View()))[key];
                && T.Entries(View()) == old(T.Entries(View()))[key := T.TimeEntry(e.sum + d, e.slots)]
                && old(max) <= max && e.sum + d < e.slots * (max + 1)
                && (max > old(max) ==> e.slots * max <= e.sum + d)
    {
      hide SlabModel.Valid;
      T.StepValid(View(), T.Spend(key, d));
      if key in T.Entries(View()) { T.ChargeOverTime(View(), key, d); }
      MapOfGet(info);
      var own := Get(info, key);
      if own.None? {
        return false;
      }
      var e := own.value.(sum := own.value.sum + d);
      info := Update(info, key, e);
      max := if max >= T.PerSlot(e) then max else T.PerSlot(e);
      return true;
    }
  }

  /** How the poll of a future ends. */
  datatype Inner = Ready | Pending | Panics

  /** A wrapped task: its entry's key and the group it shares. */
  class LoadBalance {
    const group: TimingGroup
    const index: nat

    constructor (group: TimingGroup, index: nat)
      ensures this.group == group && this.index == index
    {
      this.group, this.index := group, index;
    }

    /** The wrapper that founds a group; `None` is the panic for zero slots. */
    static method With(slots: nat) returns (w: Option<LoadBalance>)
      ensures w.None? <==> slots == 0
      ensures w.Some? ==>
                && fresh(w.value) && fresh(w.value.group) && w.value.group.Valid()
                && w.value.group.View() == T.Step(T.EMPTY, T.Join(slots))
                && T.Entries(w.value.group.View()) == map[w.value.index := T.TimeEntry(0, slots)]
    {
      var g := new TimingGroup();
      T.EmptyIsValid();
      var key := g.Insert(slots);
      if key.None? {
        return None;
      }
      var wrapper := new LoadBalance(g, key.value);
      return Some(wrapper);
    }

    /** A wrapper for another task of this one's group; `None` is the panic for zero slots. */
    method Insert(slots: nat) returns (w: Option<LoadBalance>)
      requires group.Valid() && group.info.len < USIZE.count
      modifies group
      ensures group.Valid() && group.View() == T.Step(old(group.View()), T.Join(slots))
      ensures w.None? <==> slots == 0
      ensures w.None? ==> group.View() == old(group.View())
      ensures w.Some? ==>
                && fresh(w.value) && w.value.group == group && w.value.index !in old(T.Entries(group.View()))
                && T.Entries(group.View()) == old(T.Entries(group.View()))[w.value.index := T.TimeEntry(0, slots)]
    {
      var key := group.Insert(slots);
      if key.None? {
        return None;
      }
      var wrapper := new LoadBalance(group, key.value);
      return Some(wrapper);
    }

    /** One poll. The inner future would take `d` and end as `inner` says; `woken` says that the wrapper
        woke itself instead of running it. A panic of the inner future skips the charge. */
    method Poll(d: nat, inner: Inner) returns (woken: bool, result: Inner)
      requires group.Valid() && index in T.Entries(group.View())
      modifies group
      ensures group.Valid() && index in T.Entries(group.View())
      ensures woken == T.HeldBack(old(group.View()), index)
      ensures result == if woken then Pending else inner
      ensures group.View()
           == if result == Panics then old(group.View()) else T.Step(old(group.View()), T.Poll(index, d))
      ensures woken ==> group.View() == old(group.View())
    {
      hide SlabModel.Valid;
      var can := group.CanExecute(index);
      if !can.value {
        return true, Pending;
      }
      if inner == Panics {
        return false, Panics;
      }
      T.ChargeEntries(group.View(), index, d);
      var _ := group.UpdateDuration(index, d);
      return false, inner;
    }

    /** Dropping a wrapper, or removing it, takes its entry out of the group. */
    method Drop()
      requires group.Valid() && index in T.Entries(group.View())
      modifies group
      ensures group.Valid() && group.View() == T.Step(old(group.View()), T.Leave(index))
      ensures T.Entries(group.View()) == old(T.Entries(group.View())) - {index}
    {
      var found := group.Remove(index);
      assert found;
    }
  }
}
