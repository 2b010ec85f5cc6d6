/**
 The slab as the program runs it: boxed chunks of sixteen cells, changed in place. Every method
 is tied to the value-level operation of the same name, and no method moves a stored value: a
 chunk, once pushed, stays at its place and keeps its identity until `Clear`.
 */
module ChunkSlabs {
  import opened Options
  import opened SlabModel

  /** All chunks have sixteen cells and no two are the same box. */
  ghost predicate Shape<T>(es: seq<array<Entry<T>>>) {
    && (forall c :: 0 <= c < |es| ==> es[c].Length == CHUNK_SIZE)
    && (forall c, d :: 0 <= c < d < |es| ==> es[c] != es[d])
  }

  /** The chunks laid out in one row. */
  ghost function Row<T>(es: seq<array<Entry<T>>>): (r: seq<Entry<T>>)
    requires Shape(es)
    reads es
    ensures |r| == CHUNK_SIZE * |es|
    ensures forall k {:trigger r[k]} :: 0 <= k < |r| ==> r[k] == es[k / CHUNK_SIZE][k % CHUNK_SIZE]
  {
    if es == [] then []
    else
      var n := |es| - 1;
      Row(es[..n]) + es[n][..]
  }

  class ChunkSlab<T> {
    const kt: KeyType
    var entries: seq<array<Entry<T>>>
    var len: nat
    var next: nat

    ghost function View(): Slab<T>
      requires Shape(entries)
      reads this, entries
    {
      Slab(Row(entries), len, next)
    }

    ghost predicate Valid()
      reads this, entries
    {
      Shape(entries) && SlabModel.Valid(View(), kt)
    }

    constructor (kt: KeyType)
      requires kt.Valid()
      ensures Valid() && View() == EmptySlab() && this.kt == kt && entries == []
    {
      this.kt := kt;
      entries, len, next := [], 0, 0;
      EmptyValid<T>(kt);
    }

    /** `Chunk::init` */
    method InitChunk(start: nat, first: T) returns (data: array<Entry<T>>)
      requires kt.Valid() && start + CHUNK_SIZE <= kt.count
      ensures fresh(data) && data[..] == NewChunk(start, kt, first)
    {
      data := new Entry<T>[CHUNK_SIZE](_ => Empty(0));
      data[0] := Full(first);
      var link := start + 1;
      for i := 1 to CHUNK_SIZE
        invariant data[0] == Full(first)
        invariant i < CHUNK_SIZE ==> link == start + i
        invariant forall j :: 1 <= j < i ==> data[j] == Empty(Wrap(start + j + 1, kt.count))
      {
        link := Wrap(link + 1, kt.count);
        data[i] := Empty(link);
      }
    }

    /** `replace(&mut chunk.data[key % 16], e)`, which returns the previous entry. */
    method Replace(key: nat, e: Entry<T>) returns (prev: Entry<T>)
      requires Shape(entries) && key < |entries| * CHUNK_SIZE
      modifies entries
      ensures Shape(entries)
      ensures prev == old(Row(entries))[key]
      ensures Row(entries) == old(Row(entries))[key := e]
    {
      ghost var row := Row(entries);
      var chunk := entries[key / CHUNK_SIZE];
      prev := chunk[key % CHUNK_SIZE];
      chunk[key % CHUNK_SIZE] := e;
      assert Row(entries) == row[key := e];
    }

    method PushChunk(v: T)
      requires Shape(entries) && kt.Valid() && |entries| * CHUNK_SIZE + CHUNK_SIZE <= kt.count
      modifies `entries
      ensures Shape(entries)
      ensures Row(entries) == old(Row(entries)) + NewChunk(old(|entries|) * CHUNK_SIZE, kt, v)
      ensures old(entries) <= entries && fresh(entries[|old(entries)|..])
    {
      var data := InitChunk(|entries| * CHUNK_SIZE, v);
      entries := entries + [data];
      assert entries[..|entries| - 1] == old(entries);
    }

    /** Returns the new key, or `None` for the size-overflow panic. Values with `usize` keys fill
        the address space before they fill the key type. */
    method Insert(v: T) returns (r: Option<nat>)
      requires Valid()
      requires kt.checked || len < kt.count
      modifies this, entries
      ensures Valid()
      ensures old(len) < kt.count ==>
                r.Some? && SlabModel.Insert(old(View()), kt, v) == Inserted(View(), r.value)
      ensures old(len) >= kt.count ==> r == None && View() == old(View())
      ensures old(entries) <= entries && fresh(entries[|old(entries)|..])
    {
      hide SlabModel.Valid;
      hide Row;
      ghost var s := View();
      InsertOutcome(s, kt, v);
      if kt.checked && (if len == 0 then 0 else len - 1) == kt.count - 1 {
        return None;
      }
      var key := next;
      len := len + 1;
      if key == |entries| * CHUNK_SIZE {
        PushChunk(v);
        next := key + 1;
      } else {
        var prev := Replace(key, Full(v));
        next := prev.link;
      }
      assert SlabModel.Insert(s, kt, v) == Inserted(View(), key);
      return Some(key);
    }

    method Remove(key: nat) returns (r: Option<T>)
      requires Valid()
      modifies this, entries
      ensures Valid() && entries == old(entries)
      ensures r == Get(old(View()), key) && View() == SlabModel.Remove(old(View()), key)
    {
      hide SlabModel.Valid;
      hide Row;
      ghost var s := View();
      RemoveOutcome(s, kt, key);
      if key / CHUNK_SIZE >= |entries| {
        return None;
      }
      var prev := Replace(key, Empty(next));
      match prev
      case Full(v) =>
        len := len - 1;
        next := key;
        r := Some(v);
      case Empty(_) =>
        var _ := Replace(key, prev);   // entry is empty, restore it
        assert View() == s;
        r := None;
    }

    method Clear()
      requires Valid()
      modifies this
      ensures Valid() && View() == EmptySlab() && entries == []
    {
      EmptyValid<T>(kt);
      entries, len, next := [], 0, 0;
    }

    method Lookup(key: nat) returns (r: Option<T>)
      requires Valid()
      ensures r == if key in Contents(View()) then Some(Contents(View())[key]) else None
    {
      if key / CHUNK_SIZE >= |entries| {
        return None;
      }
      var e := entries[key / CHUNK_SIZE][key % CHUNK_SIZE];
      assert e == View().cells[key];
      r := if e.Full? then Some(e.value) else None;
    }

    /** `iter`, collected. */
    method Iter() returns (out: seq<(nat, T)>)
      requires Valid()
      ensures out == IterFrom(View(), 0)
    {
      hide SlabModel.Valid;
      hide Row;
      out := [];
      ghost var s := View();
      for c := 0 to |entries|
        invariant out + IterFrom(s, c * CHUNK_SIZE) == IterFrom(s, 0)
      {
        for i := 0 to CHUNK_SIZE
          invariant out + IterFrom(s, c * CHUNK_SIZE + i) == IterFrom(s, 0)
        {
          ghost var k := c * CHUNK_SIZE + i;
          var e := entries[c][i];
          assert e == s.cells[k];
          IterStep(s, k, out);
          if e.Full? { out := out + [(c * CHUNK_SIZE + i, e.value)]; }
        }
      }
    }

    method Retain(keep: (nat, T) -> bool)
      requires Valid()
      modifies this, entries
      ensures Valid() && entries == old(entries)
      ensures View() == RetainFrom(old(View()), 0, keep)
    {
      hide SlabModel.Valid;
      hide Row;
      ghost var s, goal := View(), RetainFrom(View(), 0, keep);
      for c := 0 to |entries|
        invariant Valid() && entries == old(entries)
        invariant View() == s && RetainFrom(s, c * CHUNK_SIZE, keep) == goal
      {
        for i := 0 to CHUNK_SIZE
          invariant Valid() && entries == old(entries)
          invariant View() == s && RetainFrom(s, c * CHUNK_SIZE + i, keep) == goal
        {
          ghost var t := s;
          RetainCell(c, i, keep);
          s := View();
          RetainStep(t, c * CHUNK_SIZE + i, keep);
        }
      }
    }

    /** The body of the two loops. */
    method RetainCell(c: nat, i: nat, keep: (nat, T) -> bool)
      requires Valid() && c < |entries| && i < CHUNK_SIZE
      modifies this, entries
      ensures Valid() && entries == old(entries)
      ensures var (s, k) := (old(View()), c * CHUNK_SIZE + i);
              View() == RetainAt(s, k, keep)
    {
      hide SlabModel.Valid;
      hide Row;
      var key := c * CHUNK_SIZE + i;
      RemoveOutcome(View(), kt, key);
      var val := entries[c][i];
      assert val == View().cells[key];
      if val.Full? && !keep(key, val.value) {
        var _ := Replace(key, Empty(next));
        len := len - 1;
        next := key;
      }
    }
  }
}
