/**
 The chunked slab as a value: a row of cells whose empty cells form a free list.

 Cell `k` of the row is `entries[k / 16].data[k % 16]` of the program's slab. Every operation
 is the sequential effect of the program's method of the same name, panics included.
 */
module SlabModel {
  import opened Options

  const CHUNK_SIZE: nat := 16

  datatype Entry<+T> = Empty(link: nat) | Full(value: T)

  datatype Slab<+T> = Slab(cells: seq<Entry<T>>, len: nat, next: nat)

  /** A key type: how many keys it has, and whether `insert` compares the length against its
      largest key (all types narrower than `usize` do). */
  datatype KeyType = KeyType(count: nat, checked: bool) {
    ghost predicate Valid() { count > 0 && count % CHUNK_SIZE == 0 }
  }

  const USIZE := KeyType(0x1_0000_0000_0000_0000, false)

  datatype InsertResult<+T> =
    | Inserted(slab: Slab<T>, key: nat)
    | SizeOverflow          // the explicit panic
    | KeyOverflow           // `key + 1` leaves the key type
    | OutOfBounds           // indexing a chunk that does not exist
    | Unreachable           // the `unreachable!()` arm

  function EmptySlab<T>(): Slab<T> { Slab([], 0, 0) }

  /** Truncation of an index to the key type: `idx` modulo the number of keys. */
  function Wrap(idx: nat, count: nat): nat
    requires count > 0
  {
    if idx < count then idx else Wrap(idx - count, count)
  }

  /** The cells of a chunk whose first cell has key `start`. */
  function NewChunk<T>(start: nat, kt: KeyType, first: T): (c: seq<Entry<T>>)
    requires kt.count > 0
  {
    seq(CHUNK_SIZE, i requires i >= 0 => if i == 0 then Full(first) else Empty(Wrap(start + i + 1, kt.count)))
  }

  function Insert<T>(s: Slab<T>, kt: KeyType, v: T): InsertResult<T>
    requires kt.count > 0
  {
    if kt.checked && (if s.len == 0 then 0 else s.len - 1) == kt.count - 1 then SizeOverflow
    else if s.next == |s.cells| then
      if s.next + 1 >= kt.count then KeyOverflow
      else Inserted(Slab(s.cells + NewChunk(s.next, kt, v), s.len + 1, s.next + 1), s.next)
    else if s.next > |s.cells| then OutOfBounds
    else if s.cells[s.next].Full? then Unreachable
    else Inserted(Slab(s.cells[s.next := Full(v)], s.len + 1, s.cells[s.next].link), s.next)
  }

  function Get<T>(s: Slab<T>, key: nat): Option<T> {
    if key < |s.cells| && s.cells[key].Full? then Some(s.cells[key].value) else None
  }

  function Remove<T>(s: Slab<T>, key: nat): Slab<T> {
    if Get(s, key).Some? then Slab(s.cells[key := Empty(s.next)], if s.len == 0 then 0 else s.len - 1, key) else s
  }

  /** Writing through `get_mut`. */
  function Update<T>(s: Slab<T>, key: nat, v: T): Slab<T> {
    if Get(s, key).Some? then s.(cells := s.cells[key := Full(v)]) else s
  }

  function RetainFrom<T>(s: Slab<T>, k: nat, keep: (nat, T) -> bool): Slab<T>
    decreases |s.cells| - k
  {
    if k >= |s.cells| then s else RetainFrom(RetainAt(s, k, keep), k + 1, keep)
  }

  function RetainAt<T>(s: Slab<T>, k: nat, keep: (nat, T) -> bool): Slab<T>
    requires k < |s.cells|
  {
    if s.cells[k].Full? && !keep(k, s.cells[k].value) then Remove(s, k) else s
  }

  lemma RetainStep<T>(s: Slab<T>, k: nat, keep: (nat, T) -> bool)
    requires k < |s.cells|
    ensures RetainFrom(s, k, keep) == RetainFrom(RetainAt(s, k, keep), k + 1, keep)
  {
  }

  function IterFrom<T>(s: Slab<T>, k: nat): seq<(nat, T)>
    decreases |s.cells| - k
  {
    if k >= |s.cells| then []
    else if s.cells[k].Full? then [(k, s.cells[k].value)] + IterFrom(s, k + 1)
    else IterFrom(s, k + 1)
  }

  lemma IterStep<T>(s: Slab<T>, k: nat, out: seq<(nat, T)>)
    requires k < |s.cells|
    ensures out + IterFrom(s, k)
         == (if s.cells[k].Full? then out + [(k, s.cells[k].value)] else out) + IterFrom(s, k + 1)
  {
    if s.cells[k].Full? {
      var head, rest := [(k, s.cells[k].value)], IterFrom(s, k + 1);
      assert out + (head + rest) == (out + head) + rest;
    }
  }

  /** The finite map a slab stands for. */
  function Contents<T>(s: Slab<T>): map<nat, T> {
    map k: nat | k < |s.cells| && s.cells[k].Full? :: s.cells[k].value
  }

  // ---------------------------------------------------------------- the free list

  function Link(cap: nat, count: nat, free: seq<nat>, i: nat): nat
    requires count > 0
  {
    if i < |free| then free[i] else Wrap(cap, count)
  }

  /** The `i`-th free cell points at the one after it. */
  ghost predicate Linked<T>(s: Slab<T>, kt: KeyType, free: seq<nat>, i: nat)
    requires kt.count > 0 && i < |free|
  {
    && free[i] < |s.cells|
    && s.cells[free[i]] == Empty(Link(|s.cells|, kt.count, free, i + 1))
  }

  /** `free` lists the empty cells in the order the links visit them; the last link is the
      capacity, truncated to the key type. */
  ghost predicate Chain<T>(s: Slab<T>, kt: KeyType, free: seq<nat>) {
    && kt.Valid()
    && |s.cells| % CHUNK_SIZE == 0
    && |s.cells| <= kt.count
    && s.len + |free| == |s.cells|
    && s.next == Link(|s.cells|, kt.count, free, 0)
    && (forall i :: 0 <= i < |free| ==> free[i] < |s.cells| && s.cells[free[i]].Empty?)
    && (forall i :: 0 <= i < |free| ==> Linked(s, kt, free, i))
    && (forall i, j :: 0 <= i < j < |free| ==> free[i] != free[j])
    && (forall k :: 0 <= k < |s.cells| && s.cells[k].Empty? ==> k in free)
  }

  ghost predicate Valid<T>(s: Slab<T>, kt: KeyType) {
    exists free: seq<nat> :: Chain(s, kt, free)
  }

  /** Follows the links from cell `k`, at most `n` cells far, as long as the cells are empty. */
  function Follow<T>(s: Slab<T>, k: nat, n: nat): (seq<nat>, nat)
    decreases n
  {
    if n == 0 || k >= |s.cells| || s.cells[k].Full? then ([], k)
    else var (rest, end) := Follow(s, s.cells[k].link, n - 1); ([k] + rest, end)
  }

  /** The free list after an insert or a remove. */
  ghost function FreeAfterInsert(cap: nat, free: seq<nat>): seq<nat> {
    if |free| > 0 then free[1..] else seq(CHUNK_SIZE - 1, i requires i >= 0 => cap + 1 + i)
  }

  lemma LenCountsFull<T>(s: Slab<T>, kt: KeyType, free: seq<nat>)
    requires Chain(s, kt, free)
    ensures s.len == |Contents(s)|
  {
    DistinctSize(free);
    FullOrFree(s, free);
    Partition(Range(|s.cells|), Contents(s).Keys, Members(free));
  }

  ghost function Members(free: seq<nat>): set<nat> { set k | k in free }

  lemma FullOrFree<T>(s: Slab<T>, free: seq<nat>)
    requires forall i :: 0 <= i < |free| ==> free[i] < |s.cells| && s.cells[free[i]].Empty?
    requires forall k :: 0 <= k < |s.cells| && s.cells[k].Empty? ==> k in free
    ensures forall k: nat :: k < |s.cells| <==> k in Contents(s).Keys || k in Members(free)
    ensures Contents(s).Keys !! Members(free)
  {
  }

  lemma Partition(all: set<nat>, a: set<nat>, b: set<nat>)
    requires forall k: nat :: k in all <==> k in a || k in b
    requires a !! b
    ensures |all| == |a| + |b|
  {
    assert all == a + b;
  }

  ghost function Range(n: nat): (r: set<nat>)
    ensures |r| == n && forall k: nat :: k in r <==> k < n
  {
    if n == 0 then {} else Range(n - 1) + {n - 1}
  }

  lemma {:induction false} DistinctSize(free: seq<nat>)
    requires forall i, j :: 0 <= i < j < |free| ==> free[i] != free[j]
    ensures |Members(free)| == |free|
  {
    if |free| > 0 {
      var m := |free| - 1;
      DistinctSize(free[..m]);
      assert free == free[..m] + [free[m]];
      assert Members(free) == Members(free[..m]) + {free[m]};
    }
  }

  /** Insert succeeds exactly while fewer than `count` values are stored; it never reaches the
      `unreachable!` arm, never indexes past the chunks and never overflows a key before that. */
  lemma InsertKeepsChain<T>(s: Slab<T>, kt: KeyType, free: seq<nat>, v: T)
    requires Chain(s, kt, free)
    ensures s.len <= kt.count
    ensures s.len < kt.count <==> Insert(s, kt, v).Inserted?
    ensures s.len == kt.count ==> Insert(s, kt, v) == if kt.checked then SizeOverflow else Unreachable
    ensures Insert(s, kt, v).Inserted? ==>
              Chain(Insert(s, kt, v).slab, kt, FreeAfterInsert(|s.cells|, free))
  {
    if s.len < kt.count {
      if |free| > 0 { PopKeepsChain(s, kt, free, v); } else { PushKeepsChain(s, kt, v); }
    } else {
      assert free == [] && s.cells[0].Full?;
      assert Wrap(kt.count, kt.count) == Wrap(0, kt.count) == 0;
    }
  }

  lemma PopKeepsChain<T>(s: Slab<T>, kt: KeyType, free: seq<nat>, v: T)
    requires Chain(s, kt, free) && |free| > 0
    ensures s.len < kt.count
    ensures Insert(s, kt, v).Inserted? && Insert(s, kt, v).key == free[0]
    ensures Chain(Insert(s, kt, v).slab, kt, free[1..])
  {
    assert Linked(s, kt, free, 0);
    var t := Insert(s, kt, v).slab;
    forall k | 0 <= k < |t.cells| && t.cells[k].Empty? ensures k in free[1..] {
      assert k in free;
    }
    forall i | 0 <= i < |free[1..]| ensures Linked(t, kt, free[1..], i) {
      assert Linked(s, kt, free, i + 1);
    }
  }

  lemma PushKeepsChain<T>(s: Slab<T>, kt: KeyType, v: T)
    requires Chain(s, kt, []) && |s.cells| < kt.count
    ensures Insert(s, kt, v).Inserted? && Insert(s, kt, v).key == |s.cells|
    ensures Chain(Insert(s, kt, v).slab, kt, FreeAfterInsert(|s.cells|, []))
  {
    var cap := |s.cells|;
    assert cap + CHUNK_SIZE <= kt.count;
    var t := Insert(s, kt, v).slab;
    var free := FreeAfterInsert(cap, []);
    forall k | 0 <= k < |t.cells| && t.cells[k].Empty? ensures k in free {
      assert k > cap;
      assert free[k - cap - 1] == k;
    }
    forall i | 0 <= i < |free| ensures Linked(t, kt, free, i) {
      assert free[i] == cap + 1 + i;
      assert i + 1 < |free| ==> Wrap(cap + i + 2, kt.count) == cap + i + 2;
      assert t.cells[cap + 1 + i] == NewChunk(cap, kt, v)[1 + i];
    }
  }

  /** What an insert does to the map: a fresh key, and nothing else moves. The key is below the
      capacity, or is the capacity and starts a new chunk. */
  lemma InsertContents<T>(s: Slab<T>, kt: KeyType, v: T)
    requires Valid(s, kt) && Insert(s, kt, v).Inserted?
    ensures var r := Insert(s, kt, v);
            && Valid(r.slab, kt)
            && r.key !in Contents(s)
            && Contents(r.slab) == Contents(s)[r.key := v]
            && r.key <= |s.cells|
            && |r.slab.cells| == |s.cells| + if r.key < |s.cells| then 0 else CHUNK_SIZE
  {
    InsertMap(s, kt, v);
    var free :| Chain(s, kt, free);
    InsertKeepsChain(s, kt, free, v);
  }

  lemma InsertOutcome<T>(s: Slab<T>, kt: KeyType, v: T)
    requires Valid(s, kt)
    ensures s.len <= kt.count
    ensures s.len < kt.count <==> Insert(s, kt, v).Inserted?
    ensures s.len == kt.count ==> Insert(s, kt, v) == if kt.checked then SizeOverflow else Unreachable
    ensures kt.Valid() && |s.cells| % CHUNK_SIZE == 0 && |s.cells| <= kt.count
    ensures s.next == |s.cells| && s.len < kt.count ==> |s.cells| + CHUNK_SIZE <= kt.count
    ensures Insert(s, kt, v).Inserted? ==> Valid(Insert(s, kt, v).slab, kt)
  {
    var free :| Chain(s, kt, free);
    InsertKeepsChain(s, kt, free, v);
  }

  lemma InsertMap<T>(s: Slab<T>, kt: KeyType, v: T)
    requires kt.count > 0 && Insert(s, kt, v).Inserted?
    ensures var r := Insert(s, kt, v);
            && r.key !in Contents(s)
            && Contents(r.slab) == Contents(s)[r.key := v]
            && r.key <= |s.cells|
            && |r.slab.cells| == |s.cells| + if r.key < |s.cells| then 0 else CHUNK_SIZE
  {
    InsertFrame(s, kt, v);
    var r := Insert(s, kt, v);
    MapOfGet(s);
    MapOfGet(r.slab);
    SameMap(Contents(r.slab), Contents(s)[r.key := v]);
  }

  lemma MapOfGet<T>(s: Slab<T>)
    ensures forall k: nat :: Get(s, k) == if k in Contents(s) then Some(Contents(s)[k]) else None
  {
  }

  /** Cell by cell: the new key's cell holds `v`, every other cell stays where it was, and the
      cells of a new chunk are empty. */
  lemma InsertFrame<T>(s: Slab<T>, kt: KeyType, v: T)
    requires kt.count > 0 && Insert(s, kt, v).Inserted?
    ensures var r := Insert(s, kt, v);
            && Get(s, r.key) == None
            && Get(r.slab, r.key) == Some(v)
            && (forall k: nat :: k != r.key ==> Get(r.slab, k) == Get(s, k))
  {
  }

  lemma SameMap<T>(a: map<nat, T>, b: map<nat, T>)
    requires forall k :: k in a <==> k in b
    requires forall k :: k in a ==> a[k] == b[k]
    ensures a == b
  {
  }

  lemma RemoveKeepsChain<T>(s: Slab<T>, kt: KeyType, free: seq<nat>, key: nat)
    requires Chain(s, kt, free)
    ensures Chain(Remove(s, key), kt, if Get(s, key).Some? then [key] + free else free)
    ensures Contents(Remove(s, key)) == Contents(s) - {key}
  {
    RemoveMap(s, key);
    if Get(s, key).Some? {
      FullHasLen(s, kt, free, key);
      LinkFront(s, kt, free, key);
    }
  }

  lemma RemoveMap<T>(s: Slab<T>, key: nat)
    ensures Contents(Remove(s, key)) == Contents(s) - {key}
  {
  }

  lemma FullHasLen<T>(s: Slab<T>, kt: KeyType, free: seq<nat>, key: nat)
    requires Chain(s, kt, free) && Get(s, key).Some?
    ensures s.len > 0
  {
    LenCountsFull(s, kt, free);
    assert key in Contents(s);
  }

  lemma LinkFront<T>(s: Slab<T>, kt: KeyType, free: seq<nat>, key: nat)
    requires Chain(s, kt, free) && Get(s, key).Some? && s.len > 0
    ensures Chain(Remove(s, key), kt, [key] + free)
  {
    var t := Remove(s, key);
    var f := [key] + free;
    forall k | 0 <= k < |t.cells| && t.cells[k].Empty? ensures k in f {
      if k == key { assert f[0] == k; } else { assert k in free; }
    }
    forall i | 0 <= i < |f| ensures Linked(t, kt, f, i) {
      if i > 0 { assert Linked(s, kt, free, i - 1); }
    }
  }

  lemma UpdateKeepsChain<T>(s: Slab<T>, kt: KeyType, free: seq<nat>, key: nat, v: T)
    requires Chain(s, kt, free)
    ensures Chain(Update(s, key, v), kt, free)
    ensures Contents(Update(s, key, v)) == if key in Contents(s) then Contents(s)[key := v] else Contents(s)
  {
    forall i | 0 <= i < |free| ensures Linked(Update(s, key, v), kt, free, i) {
      assert Linked(s, kt, free, i);
    }
  }

  lemma RemoveOutcome<T>(s: Slab<T>, kt: KeyType, key: nat)
    requires Valid(s, kt)
    ensures Valid(Remove(s, key), kt)
    ensures Get(s, key).Some? ==> s.len > 0
  {
    var free :| Chain(s, kt, free);
    RemoveKeepsChain(s, kt, free, key);
    if Get(s, key).Some? { FullHasLen(s, kt, free, key); }
  }

  lemma {:induction false} RetainValid<T>(s: Slab<T>, kt: KeyType, k: nat, keep: (nat, T) -> bool)
    requires Valid(s, kt)
    ensures Valid(RetainFrom(s, k, keep), kt)
    decreases |s.cells| - k
  {
    if k < |s.cells| {
      RemoveOutcome(s, kt, k);
      RetainValid(Remove(s, k), kt, k + 1, keep);
      RetainValid(s, kt, k + 1, keep);
    }
  }

  lemma {:induction false} RetainMap<T>(s: Slab<T>, k: nat, keep: (nat, T) -> bool)
    ensures Contents(RetainFrom(s, k, keep)) == Filter(Contents(s), k, keep)
    decreases |s.cells| - k
  {
    if k < |s.cells| {
      FilterStep(s, k, keep);
      if s.cells[k].Full? && !keep(k, s.cells[k].value) {
        RemoveMap(s, k);
        RetainMap(Remove(s, k), k + 1, keep);
      } else {
        RetainMap(s, k + 1, keep);
      }
    } else {
      SameMap(Filter(Contents(s), k, keep), Contents(s));
    }
  }

  lemma FilterStep<T>(s: Slab<T>, k: nat, keep: (nat, T) -> bool)
    requires k < |s.cells|
    ensures Filter(Contents(s), k, keep)
         == Filter(if s.cells[k].Full? && !keep(k, s.cells[k].value) then Contents(s) - {k} else Contents(s),
                   k + 1, keep)
  {
  }

  /** The pairs of `m` that a retain starting at key `k` leaves. */
  function Filter<T>(m: map<nat, T>, k: nat, keep: (nat, T) -> bool): map<nat, T> {
    map i | i in m && (i < k || keep(i, m[i])) :: m[i]
  }

  /** Following `next` visits every empty cell exactly once, in free-list order, and stops at the
      truncated capacity, even where that is key 0 of a full-sized slab. */
  lemma FollowIsFree<T>(s: Slab<T>, kt: KeyType, free: seq<nat>)
    requires Chain(s, kt, free)
    ensures Follow(s, s.next, |s.cells| - s.len) == (free, Wrap(|s.cells|, kt.count))
    ensures forall k: nat :: k < |s.cells| && s.cells[k].Empty? <==> k in free
  {
    FollowFrom(s, kt, free, 0);
    assert free[0..] == free;
  }

  lemma {:induction false} FollowFrom<T>(s: Slab<T>, kt: KeyType, free: seq<nat>, i: nat)
    requires Chain(s, kt, free) && i <= |free|
    ensures Follow(s, Link(|s.cells|, kt.count, free, i), |free| - i) == (free[i..], Wrap(|s.cells|, kt.count))
    decreases |free| - i
  {
    if i < |free| {
      assert Linked(s, kt, free, i);
      FollowFrom(s, kt, free, i + 1);
      assert free[i..] == [free[i]] + free[i + 1..];
    } else {
      assert free[i..] == [];
    }
  }

  /** The iterator yields exactly the pairs of the map, by strictly increasing key. */
  lemma {:induction false} IterAgrees<T>(s: Slab<T>, k: nat)
    ensures forall i :: 0 <= i < |IterFrom(s, k)| ==> k <= IterFrom(s, k)[i].0
    ensures forall i, j :: 0 <= i < j < |IterFrom(s, k)| ==> IterFrom(s, k)[i].0 < IterFrom(s, k)[j].0
    ensures forall i: nat, v: T :: (i, v) in IterFrom(s, k) <==> k <= i && Get(s, i) == Some(v)
    decreases |s.cells| - k
  {
    if k < |s.cells| {
      IterAgrees(s, k + 1);
      var rest := IterFrom(s, k + 1);
      if s.cells[k].Full? {
        assert IterFrom(s, k)[0] == (k, s.cells[k].value);
        forall i: nat, v: T ensures (i, v) in IterFrom(s, k) <==> k <= i && Get(s, i) == Some(v) {
          assert (i, v) in IterFrom(s, k) <==> (i, v) == (k, s.cells[k].value) || (i, v) in rest;
        }
      }
    }
  }

  // ---------------------------------------------------------------- runs

  datatype Op<!T> = InsertOp(v: T) | RemoveOp(key: nat) | RetainOp(keep: (nat, T) -> bool) | ClearOp

  /** What a caller sees of one call. */
  datatype Event<!T> =
    | Stored(key: nat, v: T)
    | Panicked                              // insert panicked: no key is left
    | Removed(key: nat, was: Option<T>)
    | Retained(keep: (nat, T) -> bool)
    | Cleared

  function Do<T>(s: Slab<T>, kt: KeyType, op: Op<T>): (Slab<T>, Event<T>)
    requires kt.count > 0
  {
    match op
    case InsertOp(v) => (var r := Insert(s, kt, v); if r.Inserted? then (r.slab, Stored(r.key, v)) else (s, Panicked))
    case RemoveOp(key) => (Remove(s, key), Removed(key, Get(s, key)))
    case RetainOp(keep) => (RetainFrom(s, 0, keep), Retained(keep))
    case ClearOp => (EmptySlab(), Cleared)
  }

  function Final<T>(s: Slab<T>, kt: KeyType, ops: seq<Op<T>>): Slab<T>
    requires kt.count > 0
    decreases |ops|
  {
    if ops == [] then s else Final(Do(s, kt, ops[0]).0, kt, ops[1..])
  }

  function Events<T>(s: Slab<T>, kt: KeyType, ops: seq<Op<T>>): seq<Event<T>>
    requires kt.count > 0
    decreases |ops|
  {
    if ops == [] then [] else [Do(s, kt, ops[0]).1] + Events(Do(s, kt, ops[0]).0, kt, ops[1..])
  }

  /** A finite map with room for `count` keys allows this event... */
  ghost predicate MapAllows<T>(m: map<nat, T>, count: nat, e: Event<T>) {
    match e
    case Stored(key, v) => key < count && key !in m
    case Panicked => |m| == count
    case Removed(key, was) => was == if key in m then Some(m[key]) else None
    case Retained(keep) => true
    case Cleared => true
  }

  /** ...and becomes this map. */
  ghost function MapAfter<T>(m: map<nat, T>, e: Event<T>): map<nat, T> {
    match e
    case Stored(key, v) => m[key := v]
    case Panicked => m
    case Removed(key, _) => m - {key}
    case Retained(keep) => Filter(m, 0, keep)
    case Cleared => map[]
  }

  ghost predicate MapRun<T>(m: map<nat, T>, count: nat, es: seq<Event<T>>, end: map<nat, T>)
    decreases |es|
  {
    if es == [] then end == m
    else MapAllows(m, count, es[0]) && MapRun(MapAfter(m, es[0]), count, es[1..], end)
  }

  /** Every run of the slab is a run of a finite map, and the free list survives it. */
  lemma {:induction false} RunRefinesMap<T>(s: Slab<T>, kt: KeyType, ops: seq<Op<T>>)
    requires Valid(s, kt)
    ensures var t := Final(s, kt, ops);
            && Valid(t, kt)
            && t.len == |Contents(t)|
            && MapRun(Contents(s), kt.count, Events(s, kt, ops), Contents(t))
    decreases |ops|
  {
    hide Valid;
    if ops == [] {
      LenBound(s, kt);
    } else {
      KeyTypeOf(s, kt);
      StepRefinesMap(s, kt, ops[0]);
      RunRefinesMap(Do(s, kt, ops[0]).0, kt, ops[1..]);
    }
  }

  lemma StepRefinesMap<T>(s: Slab<T>, kt: KeyType, op: Op<T>)
    requires Valid(s, kt)
    ensures var (t, e) := Do(s, kt, op);
            Valid(t, kt) && MapAllows(Contents(s), kt.count, e) && Contents(t) == MapAfter(Contents(s), e)
  {
    hide Valid;
    match op
    case InsertOp(v) =>
      InsertOutcome(s, kt, v);
      LenBound(s, kt);
      if Insert(s, kt, v).Inserted? { InsertContents(s, kt, v); }
    case RemoveOp(key) =>
      RemoveOutcome(s, kt, key);
      RemoveMap(s, key);
      MapOfGet(s);
    case RetainOp(keep) =>
      RetainValid(s, kt, 0, keep);
      RetainMap(s, 0, keep);
    case ClearOp =>
      KeyTypeOf(s, kt);
      EmptyValid<T>(kt);
  }

  lemma KeyTypeOf<T>(s: Slab<T>, kt: KeyType)
    requires Valid(s, kt)
    ensures kt.Valid()
  {
  }

  lemma EmptyValid<T>(kt: KeyType)
    requires kt.Valid()
    ensures Chain(EmptySlab<T>(), kt, []) && Valid(EmptySlab<T>(), kt)
    ensures Contents(EmptySlab<T>()) == map[]
  {
    assert Chain(EmptySlab<T>(), kt, []);
  }

  lemma LenBound<T>(s: Slab<T>, kt: KeyType)
    requires Valid(s, kt)
    ensures s.len <= kt.count && s.len == |Contents(s)|
  {
    var free :| Chain(s, kt, free);
    LenCountsFull(s, kt, free);
  }

  function Inserts<T>(vs: seq<T>): seq<Op<T>> {
    if vs == [] then [] else [InsertOp(vs[0])] + Inserts(vs[1..])
  }

  /** A key type with `count` keys takes exactly `count` values: of any values inserted one after the
      other, as many are stored as there is room for, and all others panic. */
  lemma {:induction false} FillsExactly<T>(s: Slab<T>, kt: KeyType, vs: seq<T>)
    requires Valid(s, kt)
    ensures var t := Final(s, kt, Inserts(vs));
            Valid(t, kt) && t.len == if s.len + |vs| <= kt.count then s.len + |vs| else kt.count
    ensures var es := Events(s, kt, Inserts(vs));
            && |es| == |vs|
            && forall i :: 0 <= i < |vs| ==>
                 if s.len + i < kt.count then es[i].Stored? && es[i].v == vs[i] else es[i] == Panicked
    decreases |vs|
  {
    hide Valid;
    LenBound(s, kt);
    if |vs| > 0 {
      InsertOutcome(s, kt, vs[0]);
      assert Inserts(vs)[1..] == Inserts(vs[1..]);
      var t := Do(s, kt, InsertOp(vs[0])).0;
      FillsExactly(t, kt, vs[1..]);
      LenBound(t, kt);
      var es, rest := Events(s, kt, Inserts(vs)), Events(t, kt, Inserts(vs[1..]));
      forall i | 0 < i < |vs| ensures es[i] == rest[i - 1] && vs[i] == vs[1..][i - 1] { }
    }
  }
}
