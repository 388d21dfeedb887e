/** One pass of evictByIndex over the eviction index: it accounts exactly for what it
    removed, and the oldest go first (storage/eviction.go). */
module Eviction {
  import opened Rows
  import opened EvictionIndex
  import opened Tally

  // ---- Batches of deletes ----

  datatype Batch = Batch(rows: set<Key>, entries: set<Entry>, backrefs: set<Key>, count: nat)

  const EMPTY := Batch({}, {}, {}, 0)

  function Write(s: Store, b: Batch): Store {
    Store(s.rows - b.rows, s.entries - b.entries, s.backrefs - b.backrefs)
  }

  /** Nothing a surviving row needs is deleted. */
  ghost predicate Harmless(s: Store, b: Batch) {
    forall k :: k in s.rows && k !in b.rows ==> k in s.backrefs && k !in b.backrefs && s.backrefs[k] !in b.entries
  }

  lemma WriteKeepsIndex(s: Store, b: Batch)
    requires Indexed(s) && Harmless(s, b)
    ensures Indexed(Write(s, b))
  {
  }

  function DropEntry(b: Batch, e: Entry): Batch {
    b.(entries := b.entries + {e}, count := b.count + 1)
  }

  function DropKey(b: Batch, e: Entry): Batch {
    Batch(b.rows + {e.key}, b.entries + {e}, b.backrefs + {e.key}, b.count + 3)
  }

  /** The batch counts every operation staged in it, and is kept small. */
  ghost predicate Bounded(b: Batch) {
    |b.rows| + |b.entries| + |b.backrefs| <= b.count < 1003
  }

  lemma VisitBounded(b: Batch, e: Entry)
    requires Bounded(b) && b.count < 1000
    ensures Bounded(DropEntry(b, e)) && Bounded(DropKey(b, e))
  {
  }

  // ---- One pass ----

  /** The rows of `ks`, in order. */
  ghost predicate RowsOf(rows: map<Key, Option<ValueMessage>>, ks: seq<Key>, vms: seq<ValueMessage>) {
    |vms| == |ks| && forall i :: 0 <= i < |ks| ==> ks[i] in rows && rows[ks[i]] == Some(vms[i])
  }

  /** What the index iterator yields: every entry once, oldest first. */
  ghost predicate Walks(order: seq<Entry>, entries: set<Entry>) {
    && (forall i, j :: 0 <= i < j < |order| ==> order[i] != order[j] && order[i].stamp <= order[j].stamp)
    && (forall e :: e in entries <==> e in order)
  }

  /** Rows of `was` that are gone from `now` are the evicted ones and undecodable ones; the rest is untouched. */
  ghost predicate Removed(was: Store, now: Store, gone: seq<Key>) {
    && now.rows.Keys <= was.rows.Keys
    && (forall k :: k in now.rows ==> now.rows[k] == was.rows[k] && k !in gone)
    && (forall k :: k in gone ==> k in was.rows && was.rows[k].Some?)
    && (forall k :: k in was.rows && k !in now.rows && k !in gone ==> was.rows[k].None?)
    && now.entries <= was.entries
    && (forall k :: k in now.backrefs ==> k in was.backrefs && now.backrefs[k] == was.backrefs[k])
  }

  /** The live bytes drop by exactly the lengths of what was evicted. */
  lemma {:induction false} RemovedTruly(was: Store, now: Store, gone: seq<Key>)
    requires Removed(was, now, gone) && Distinct(gone)
    ensures LiveBytes(now.rows) == LiveBytes(was.rows) - TotalLength(was.rows, gone)
  {
    var left := was.rows - (set k | k in gone);
    var broken := left.Keys - now.rows.Keys;
    RemovedBytes(was.rows, gone);
    UndecodedCountNothing(left, broken);
    assert left - broken == now.rows;
  }

  /** Less than one object over the target. */
  ghost predicate Barely(rows: map<Key, Option<ValueMessage>>, bytes: int, target: int, ks: seq<Key>) {
    ks == [] || exists i :: 0 <= i < |ks| && bytes - TotalLength(rows, [ks[i]]) < target
  }

  /** Everything the environment decides: reads and writes that fail, the clock, a shutdown. */
  datatype World = World(readFails: nat -> bool, backrefFails: nat -> bool, writeFails: nat -> bool,
                         clock: nat -> int, closed: nat -> bool)

  /** The counters of a pass: what is staged in the batch, and what is durable. */
  datatype Work = Work(batch: Batch, pendingBytes: int, pendingCount: nat, pendingFiles: seq<ValueMessage>,
                       committedBytes: int, evicted: nat, commits: nat)

  // What holds between two steps of a pass that started on `was`, has durably evicted
  // `gone` and has `pend` staged.

  ghost predicate StoreOk(was: Store, store: Store, b: Batch, gone: seq<Key>, pend: seq<Key>) {
    && Indexed(store) && Removed(was, store, gone) && Harmless(store, b)
    && (forall k :: k in pend ==> k in store.rows && k in b.rows && was.rows[k].Some?)
    && (forall k :: k in b.rows && k in store.rows && k !in pend ==> was.rows[k].None?)
    && (b.count == 0 ==> pend == [] && b.rows == {})
    && (forall k :: k in gone ==> k in was.backrefs && k !in store.backrefs && was.backrefs[k] !in store.entries)
    && (forall k :: k in pend ==> k in was.backrefs && k in b.backrefs && was.backrefs[k] in b.entries)
  }

  ghost predicate CountsOk(was: Store, w: Work, gone: seq<Key>, pend: seq<Key>) {
    && w.pendingCount == |pend| && w.pendingBytes == TotalLength(was.rows, pend) && RowsOf(was.rows, pend, w.pendingFiles)
    && w.evicted == |gone| && w.committedBytes == TotalLength(was.rows, gone)
  }

  /** Each key is evicted at most once, when the walk reaches its current entry. */
  ghost predicate VisitsOk(was: Store, order: seq<Entry>, i: nat, gone: seq<Key>, pend: seq<Key>)
    requires i <= |order|
  {
    && Distinct(gone + pend)
    && forall k :: k in gone + pend ==> k in was.backrefs && was.backrefs[k] in order[..i]
  }

  ghost predicate TargetOk(was: Store, w: Work, target: int, gone: seq<Key>, pend: seq<Key>) {
    && (pend != [] ==> w.committedBytes + w.pendingBytes - TotalLength(was.rows, [pend[|pend| - 1]]) < target)
    && Barely(was.rows, w.committedBytes, target, gone)
  }

  ghost predicate PassOk(was: Store, store: Store, order: seq<Entry>, i: nat, target: int, w: Work, gone: seq<Key>, pend: seq<Key>) {
    && i <= |order|
    && StoreOk(was, store, w.batch, gone, pend) && CountsOk(was, w, gone, pend)
    && VisitsOk(was, order, i, gone, pend) && TargetOk(was, w, target, gone, pend)
  }

  lemma PassStarts(was: Store, order: seq<Entry>, target: int)
    requires Indexed(was)
    ensures PassOk(was, was, order, 0, target, Work(EMPTY, 0, 0, [], 0, 0, 0), [], [])
  {
  }

  lemma PassIndexed(was: Store, store: Store, order: seq<Entry>, i: nat, target: int, w: Work, gone: seq<Key>, pend: seq<Key>)
    requires PassOk(was, store, order, i, target, w, gone, pend)
    ensures Indexed(store)
  {
  }

  /** The walk moves on, having perhaps dropped an entry no surviving row needs. */
  lemma EntryVisited(was: Store, store: Store, order: seq<Entry>, i: nat, target: int, w: Work, gone: seq<Key>, pend: seq<Key>, b: Batch)
    requires PassOk(was, store, order, i, target, w, gone, pend) && i < |order|
    requires b == w.batch ||
             (b == DropEntry(w.batch, order[i]) && (order[i].key in store.rows ==> store.backrefs[order[i].key] != order[i])) ||
             (b == DropKey(w.batch, order[i]) && order[i].key in store.rows && store.rows[order[i].key].None?)
    ensures PassOk(was, store, order, i + 1, target, w.(batch := b), gone, pend)
  {
  }

  lemma StoreStaged(was: Store, store: Store, b: Batch, e: Entry, gone: seq<Key>, pend: seq<Key>)
    requires StoreOk(was, store, b, gone, pend) && e.key in store.rows && was.rows[e.key].Some? && store.backrefs[e.key] == e
    ensures StoreOk(was, store, DropKey(b, e), gone, pend + [e.key])
  {
  }

  lemma VisitsStaged(was: Store, order: seq<Entry>, i: nat, gone: seq<Key>, pend: seq<Key>)
    requires i < |order| && VisitsOk(was, order, i, gone, pend) && Walks(order, was.entries)
    requires order[i].key in was.backrefs && was.backrefs[order[i].key] == order[i]
    ensures VisitsOk(was, order, i + 1, gone, pend + [order[i].key])
  {
    var k := order[i].key;
    assert order[..i + 1] == order[..i] + [order[i]];
    assert k !in gone + pend;
    assert gone + (pend + [k]) == (gone + pend) + [k];
  }

  /** The entry is its key's current one: the key is staged for eviction. */
  lemma KeyStaged(was: Store, store: Store, order: seq<Entry>, i: nat, target: int, w: Work,
                  gone: seq<Key>, pend: seq<Key>, vm: ValueMessage)
    requires PassOk(was, store, order, i, target, w, gone, pend) && i < |order| && Walks(order, was.entries)
    requires var k := order[i].key; k in store.rows && store.rows[k] == Some(vm) && store.backrefs[k] == order[i]
    requires w.committedBytes + w.pendingBytes < target
    ensures var w' := w.(batch := DropKey(w.batch, order[i]), pendingBytes := w.pendingBytes + vm.valueLength,
                         pendingCount := w.pendingCount + 1, pendingFiles := w.pendingFiles + [vm]);
            PassOk(was, store, order, i + 1, target, w', gone, pend + [order[i].key])
  {
    hide StoreOk, VisitsOk, CountsOk, TargetOk, DropKey, Walks;
    var k := order[i].key;
    RowWasThere(was, store, w.batch, gone, pend, k);
    StoreStaged(was, store, w.batch, order[i], gone, pend);
    VisitsStaged(was, order, i, gone, pend);
    CountsStaged(was, w, gone, pend, k, vm, DropKey(w.batch, order[i]));
    TargetStaged(was, w, target, gone, pend, k, vm, DropKey(w.batch, order[i]));
  }

  lemma RowWasThere(was: Store, store: Store, b: Batch, gone: seq<Key>, pend: seq<Key>, k: Key)
    requires StoreOk(was, store, b, gone, pend) && k in store.rows
    ensures k in was.rows && was.rows[k] == store.rows[k] && k in store.backrefs && k in was.backrefs
    ensures was.backrefs[k] == store.backrefs[k]
  {
  }

  lemma CountsStaged(was: Store, w: Work, gone: seq<Key>, pend: seq<Key>, k: Key, vm: ValueMessage, b: Batch)
    requires CountsOk(was, w, gone, pend) && k in was.rows && was.rows[k] == Some(vm)
    ensures CountsOk(was, w.(batch := b, pendingBytes := w.pendingBytes + vm.valueLength, pendingCount := w.pendingCount + 1,
                             pendingFiles := w.pendingFiles + [vm]), gone, pend + [k])
  {
    TotalLengthAppend(was.rows, pend, [k]);
  }

  lemma TargetStaged(was: Store, w: Work, target: int, gone: seq<Key>, pend: seq<Key>, k: Key, vm: ValueMessage, b: Batch)
    requires TargetOk(was, w, target, gone, pend) && k in was.rows && was.rows[k] == Some(vm)
    requires w.committedBytes + w.pendingBytes < target
    ensures TargetOk(was, w.(batch := b, pendingBytes := w.pendingBytes + vm.valueLength, pendingCount := w.pendingCount + 1,
                             pendingFiles := w.pendingFiles + [vm]), target, gone, pend + [k])
  {
  }

  lemma StoreWritten(was: Store, store: Store, b: Batch, gone: seq<Key>, pend: seq<Key>)
    requires StoreOk(was, store, b, gone, pend)
    ensures StoreOk(was, Write(store, b), EMPTY, gone + pend, [])
  {
  }

  lemma TargetWritten(was: Store, w: Work, target: int, gone: seq<Key>, pend: seq<Key>)
    requires CountsOk(was, w, gone, pend) && TargetOk(was, w, target, gone, pend)
    ensures Barely(was.rows, w.committedBytes + w.pendingBytes, target, gone + pend)
  {
    if pend != [] {
      assert (gone + pend)[|gone + pend| - 1] == pend[|pend| - 1];
    } else {
      assert gone + pend == gone;
    }
  }

  /** The batch is durable: what was staged is gone. */
  lemma BatchWritten(was: Store, store: Store, order: seq<Entry>, i: nat, target: int, w: Work, gone: seq<Key>, pend: seq<Key>)
    requires PassOk(was, store, order, i, target, w, gone, pend)
    ensures PassOk(was, Write(store, w.batch), order, i, target,
                   Work(EMPTY, 0, 0, [], w.committedBytes + w.pendingBytes, w.evicted + w.pendingCount, w.commits + 1), gone + pend, [])
  {
    StoreWritten(was, store, w.batch, gone, pend);
    TargetWritten(was, w, target, gone, pend);
    TotalLengthAppend(was.rows, gone, pend);
    assert gone + pend + [] == gone + pend;
  }

  /** The write failed: nothing was removed, nothing is counted. */
  lemma BatchLost(was: Store, store: Store, order: seq<Entry>, i: nat, target: int, w: Work, gone: seq<Key>, pend: seq<Key>)
    requires PassOk(was, store, order, i, target, w, gone, pend)
    ensures PassOk(was, store, order, i, target,
                   Work(EMPTY, 0, 0, [], w.committedBytes, w.evicted, w.commits + 1), gone, [])
  {
    assert gone + [] == gone;
    forall a, b | 0 <= a < b < |gone| ensures gone[a] != gone[b] {
      assert (gone + pend)[a] == gone[a] && (gone + pend)[b] == gone[b];
    }
    forall k | k in gone ensures k in gone + pend {
    }
  }

  // How far a pass in which nothing fails gets.

  predicate Expired(vm: ValueMessage, now: int) {
    vm.expiry > 0 && now >= vm.expiry
  }

  /** Nothing fails and nobody closes the cleaner. */
  ghost predicate Calm(world: World) {
    forall i: nat :: !world.readFails(i) && !world.backrefFails(i) && !world.writeFails(i) && !world.closed(i)
  }

  /** The row is left to the expiry sweep: it had expired when the walk came to its entry. */
  ghost predicate LeftToExpire(store: Store, order: seq<Entry>, n: nat, world: World, k: Key)
    requires k in store.rows && k in store.backrefs
  {
    && store.rows[k].Some?
    && exists i :: 0 <= i < n && i < |order| && order[i] == store.backrefs[k] && Expired(store.rows[k].value, world.clock(i))
  }

  /** Only a row with an expiry that a clock reading of the pass had reached is ever left. */
  lemma LeftMeansExpired(store: Store, order: seq<Entry>, n: nat, world: World, k: Key)
    requires k in store.rows && k in store.backrefs && LeftToExpire(store, order, n, world, k)
    ensures store.rows[k].Some? && store.rows[k].value.expiry > 0
    ensures exists i: nat :: i < n && world.clock(i) >= store.rows[k].value.expiry
  {
    var i :| 0 <= i < n && i < |order| && order[i] == store.backrefs[k] && Expired(store.rows[k].value, world.clock(i));
  }

  /** A row with no expiry, or one in the future, whose entry is its current one is always taken. */
  lemma LiveIsEvictable(s: Store, e: Entry, i: nat, world: World)
    requires !world.readFails(i) && !world.backrefFails(i) && e.key in s.rows && s.rows[e.key].Some?
    requires e.key in s.backrefs && s.backrefs[e.key] == e
    ensures Evictable(s, e, i, world) <==> s.rows[e.key].value.expiry <= 0 || world.clock(i) < s.rows[e.key].value.expiry
  {
  }

  /** Every row whose entry was passed is about to go or is left to expire. */
  ghost predicate Swept(store: Store, order: seq<Entry>, n: nat, world: World, b: Batch) {
    n <= |order| && forall k :: k in store.rows && k in store.backrefs && store.backrefs[k] in order[..n] ==>
                      k in b.rows || LeftToExpire(store, order, n, world, k)
  }

  lemma SweptStarts(store: Store, order: seq<Entry>, world: World)
    ensures Swept(store, order, 0, world, EMPTY)
  {
  }

  lemma SweptNext(store: Store, order: seq<Entry>, n: nat, world: World, b: Batch, b': Batch)
    requires Swept(store, order, n, world, b) && n < |order| && b.rows <= b'.rows
    requires order[n].key in store.rows && order[n].key in store.backrefs && store.backrefs[order[n].key] == order[n] ==>
               order[n].key in b'.rows || (store.rows[order[n].key].Some? && Expired(store.rows[order[n].key].value, world.clock(n)))
    requires forall k :: k in store.backrefs ==> store.backrefs[k].key == k
    ensures Swept(store, order, n + 1, world, b')
  {
    forall k | k in store.rows && k in store.backrefs && store.backrefs[k] in order[..n + 1]
      ensures k in b'.rows || LeftToExpire(store, order, n + 1, world, k)
    {
      if store.backrefs[k] in order[..n] {
        if k !in b.rows {
          var i :| 0 <= i < n && i < |order| && order[i] == store.backrefs[k] && Expired(store.rows[k].value, world.clock(i));
        }
      } else {
        assert order[n] == store.backrefs[k];
      }
    }
  }

  lemma SweptWritten(store: Store, order: seq<Entry>, n: nat, world: World, b: Batch)
    requires Swept(store, order, n, world, b)
    ensures Swept(Write(store, b), order, n, world, EMPTY)
  {
    var store' := Write(store, b);
    forall k | k in store'.rows && k in store'.backrefs && store'.backrefs[k] in order[..n]
      ensures LeftToExpire(store', order, n, world, k)
    {
      var i :| 0 <= i < n && i < |order| && order[i] == store.backrefs[k] && Expired(store.rows[k].value, world.clock(i));
    }
  }

  lemma AllLeftToExpire(was: Store, store: Store, order: seq<Entry>, world: World, b: Batch, gone: seq<Key>)
    requires Indexed(store) && Removed(was, store, gone) && Walks(order, was.entries)
    requires Swept(store, order, |order|, world, b) && b.rows == {}
    ensures forall k :: k in store.rows ==> LeftToExpire(store, order, |order|, world, k)
  {
    forall k | k in store.rows ensures LeftToExpire(store, order, |order|, world, k) {
      assert order[..|order|] == order && store.backrefs[k] in was.entries;
    }
  }

  /** Nothing that stays behind was due before anything evicted, except what is left to expire. */
  ghost predicate OldestGone(was: Store, store: Store, order: seq<Entry>, world: World, gone: seq<Key>) {
    forall k, kept :: k in gone && k in was.backrefs && kept in store.rows && kept in store.backrefs
                      && !LeftToExpire(store, order, |order|, world, kept) ==>
      was.backrefs[k].stamp <= store.backrefs[kept].stamp
  }

  lemma EvictedOldest(was: Store, store: Store, order: seq<Entry>, n: nat, world: World, b: Batch, gone: seq<Key>)
    requires Indexed(store) && Removed(was, store, gone) && Walks(order, was.entries) && n <= |order|
    requires forall k :: k in gone ==> k in was.backrefs && was.backrefs[k] in order[..n]
    requires Swept(store, order, n, world, b) && b.rows == {}
    ensures OldestGone(was, store, order, world, gone)
  {
    forall k, kept | k in gone && k in was.backrefs && kept in store.rows && kept in store.backrefs
                     && !LeftToExpire(store, order, |order|, world, kept)
      ensures was.backrefs[k].stamp <= store.backrefs[kept].stamp
    {
      assert store.backrefs[kept] in was.entries;
      var j :| 0 <= j < |order| && order[j] == store.backrefs[kept];
      var i :| 0 <= i < n && order[i] == was.backrefs[k];
    }
  }

  lemma {:induction false} PassEnds(was: Store, store: Store, order: seq<Entry>, i: nat, target: int, w: Work, gone: seq<Key>)
    requires PassOk(was, store, order, i, target, w, gone, [])
    ensures Indexed(store) && Removed(was, store, gone) && Distinct(gone)
    ensures w.evicted == |gone| && w.committedBytes == TotalLength(was.rows, gone)
    ensures Barely(was.rows, TotalLength(was.rows, gone), target, gone)
    ensures i <= |order| && forall k :: k in gone ==> k in was.backrefs && was.backrefs[k] in order[..i]
    ensures forall k :: k in gone ==> k !in store.backrefs && was.backrefs[k] !in store.entries
  {
    assert gone + [] == gone;
  }

  /** What was handed over since `before`: exactly the rows of `gone`, in order. */
  ghost predicate HandedOver(was: Store, before: seq<ValueMessage>, staged: seq<ValueMessage>, gone: seq<Key>) {
    && |staged| == |before| + |gone| && before <= staged
    && forall j :: 0 <= j < |gone| ==> gone[j] in was.rows && was.rows[gone[j]] == Some(staged[|before| + j])
  }

  lemma NothingHandedOver(was: Store, staged: seq<ValueMessage>)
    ensures HandedOver(was, staged, staged, [])
  {
  }

  lemma HandedOverGrows(was: Store, before: seq<ValueMessage>, staged: seq<ValueMessage>, gone: seq<Key>,
                        pend: seq<Key>, files: seq<ValueMessage>)
    requires HandedOver(was, before, staged, gone) && RowsOf(was.rows, pend, files)
    ensures HandedOver(was, before, staged + files, gone + pend)
  {
  }

  // What a pass makes of one entry.

  /** The row is there, unexpired, and this is its current entry: the key is evicted. */
  predicate Evictable(s: Store, e: Entry, i: nat, world: World) {
    && !world.readFails(i) && !world.backrefFails(i)
    && e.key in s.rows && s.rows[e.key].Some? && !Expired(s.rows[e.key].value, world.clock(i))
    && e.key in s.backrefs && s.backrefs[e.key] == e
  }

  /** The row does not decode: it goes, uncounted. */
  predicate Corrupt(s: Store, e: Entry, i: nat, world: World) {
    !world.readFails(i) && e.key in s.rows && s.rows[e.key].None?
  }

  /** Nothing is touched: a read failed, or the row is left to the expiry sweep. Any other
      entry is dropped, with its key or as an orphan or a superseded duplicate. */
  predicate Undecided(s: Store, e: Entry, i: nat, world: World) {
    || world.readFails(i)
    || (e.key in s.rows && s.rows[e.key].Some? && (Expired(s.rows[e.key].value, world.clock(i)) || world.backrefFails(i)))
  }

  class Cleaner {
    var store: Store
    var totalSize: int
    var evictedKeys: int
    var staged: seq<ValueMessage>    // rows whose backing bytes were handed over for deletion

    constructor (store: Store, totalSize: int)
      ensures this.store == store && this.totalSize == totalSize && evictedKeys == 0 && staged == []
    {
      this.store, this.totalSize, evictedKeys, staged := store, totalSize, 0, [];
    }

    /** Writes the staged batch; only a write that succeeds releases files and promotes the counts. */
    method Commit(w: Work, fails: bool, ghost was: Store, ghost order: seq<Entry>, ghost i: nat, ghost target: int,
                  ghost gone: seq<Key>, ghost pend: seq<Key>, ghost before: seq<ValueMessage>)
      returns (w': Work, ghost gone': seq<Key>)
      requires PassOk(was, store, order, i, target, w, gone, pend) && HandedOver(was, before, staged, gone)
      modifies this`store, this`staged
      ensures PassOk(was, store, order, i, target, w', gone', []) && HandedOver(was, before, staged, gone')
      ensures if w.batch.count > 0 && !fails
              then gone' == gone + pend && staged == old(staged) + w.pendingFiles
              else gone' == gone && staged == old(staged) && store == old(store)
      ensures w'.batch.count == 0 && w'.commits == w.commits + (if w.batch.count > 0 then 1 else 0) && (Bounded(w.batch) ==> Bounded(w'.batch))
      ensures w'.batch.rows == {} && (!fails ==> w'.committedBytes == w.committedBytes + w.pendingBytes)
      ensures forall world :: !fails && Swept(old(store), order, i, world, w.batch) ==> Swept(store, order, i, world, w'.batch)
    {
      if w.batch.count == 0 {
        return w, gone;
      }
      if fails {
        BatchLost(was, store, order, i, target, w, gone, pend);
        w', gone' := Work(EMPTY, 0, 0, [], w.committedBytes, w.evicted, w.commits + 1), gone;
      } else {
        BatchWritten(was, store, order, i, target, w, gone, pend);
        w' := Work(EMPTY, 0, 0, [], w.committedBytes + w.pendingBytes, w.evicted + w.pendingCount, w.commits + 1);
        gone' := gone + pend;
        HandedOverGrows(was, before, staged, gone, pend, w.pendingFiles);
        forall world | Swept(store, order, i, world, w.batch) ensures Swept(Write(store, w.batch), order, i, world, EMPTY) {
          SweptWritten(store, order, i, world, w.batch);
        }
        store, staged := Write(store, w.batch), staged + w.pendingFiles;
      }
    }

    /** The walk: visits entries oldest first until `target` bytes are freed or staged, the
        index is exhausted or the cleaner is closed, flushing batches that have grown large. */
    method Walk(order: seq<Entry>, target: int, world: World)
      returns (w: Work, i: nat, ghost gone: seq<Key>, ghost pend: seq<Key>)
      requires Indexed(store) && Walks(order, store.entries)
      modifies this`store, this`staged
      ensures PassOk(old(store), store, order, i, target, w, gone, pend)
      ensures HandedOver(old(store), old(staged), staged, gone)
      ensures Calm(world) ==> Swept(store, order, i, world, w.batch)
      ensures Calm(world) ==> i >= |order| || w.committedBytes + w.pendingBytes >= target
      ensures Bounded(w.batch)
    {
      hide PassOk, HandedOver, Swept;
      assert Bounded(EMPTY);
      ghost var was, before := store, staged;
      w := Work(EMPTY, 0, 0, [], 0, 0, 0);
      gone, pend, i := [], [], 0;
      PassStarts(was, order, target);
      SweptStarts(was, order, world);
      NothingHandedOver(was, staged);
      while i < |order|
        invariant PassOk(was, store, order, i, target, w, gone, pend)
        invariant HandedOver(was, before, staged, gone)
        invariant Calm(world) ==> Swept(store, order, i, world, w.batch)
        invariant Bounded(w.batch)
      {
        if world.closed(i) {
          break;
        }
        if w.batch.count >= 1000 {
          w, gone := Commit(w, world.writeFails(w.commits), was, order, i, target, gone, pend, before);
          pend := [];
        }
        if w.committedBytes + w.pendingBytes >= target {
          break;
        }
        w, pend := Visit(order, i, target, world, w, was, gone, pend);
        i := i + 1;
      }
    }

    /** One pass. Whatever reads and writes fail, the total drops by exactly the bytes of the
        rows durably removed, exactly their files are handed over, survivors stay indexed, and
        the target is overshot by less than one object; when nothing fails the oldest go first
        and the target is met, or only expired rows are left. */
    method EvictByIndex(order: seq<Entry>, target: int, world: World) returns (evicted: nat, ghost gone: seq<Key>)
      requires Indexed(store) && Walks(order, store.entries)
      modifies this
      ensures Indexed(store) && Removed(old(store), store, gone) && Distinct(gone)
      ensures evicted == |gone| && evictedKeys == old(evictedKeys) + evicted
      ensures forall k :: k in gone ==>
                k in old(store).backrefs && k !in store.backrefs && old(store).backrefs[k] !in store.entries
      ensures totalSize == old(totalSize) - TotalLength(old(store).rows, gone)
      ensures totalSize - LiveBytes(store.rows) == old(totalSize) - LiveBytes(old(store).rows)
      ensures HandedOver(old(store), old(staged), staged, gone)
      ensures Barely(old(store).rows, TotalLength(old(store).rows, gone), target, gone)
      ensures Calm(world) ==>
                || TotalLength(old(store).rows, gone) >= target
                || forall k :: k in store.rows ==> LeftToExpire(store, order, |order|, world, k)
      ensures Calm(world) ==> OldestGone(old(store), store, order, world, gone)
    {
      hide PassOk, Removed, Distinct, Barely, HandedOver, LeftToExpire, OldestGone, Swept, Walks, Indexed, LiveBytes, TotalLength;
      ghost var was, before := store, staged;
      var w, i;
      ghost var pend;
      w, i, gone, pend := Walk(order, target, world);
      w, gone := Commit(w, world.writeFails(w.commits), was, order, i, target, gone, pend, before);
      evicted := w.evicted;
      evictedKeys := evictedKeys + evicted;
      totalSize := totalSize - w.committedBytes;
      PassEnds(was, store, order, i, target, w, gone);
      RemovedTruly(was, store, gone);
      if Calm(world) {
        EvictedOldest(was, store, order, i, world, w.batch, gone);
        if w.committedBytes < target {
          AllLeftToExpire(was, store, order, world, w.batch, gone);
        }
      }
    }

    /** What the pass makes of one index entry. */
    method Visit(order: seq<Entry>, i: nat, target: int, world: World, w: Work,
                 ghost was: Store, ghost gone: seq<Key>, ghost pend: seq<Key>)
      returns (w': Work, ghost pend': seq<Key>)
      requires i < |order| && PassOk(was, store, order, i, target, w, gone, pend) && Walks(order, was.entries)
      requires w.committedBytes + w.pendingBytes < target
      ensures PassOk(was, store, order, i + 1, target, w', gone, pend')
      ensures pend' == if Evictable(store, order[i], i, world) then pend + [order[i].key] else pend
      ensures w'.batch.rows == w.batch.rows +
                (if Evictable(store, order[i], i, world) || Corrupt(store, order[i], i, world) then {order[i].key} else {})
      ensures w'.batch.entries == w.batch.entries + (if Undecided(store, order[i], i, world) then {} else {order[i]})
      ensures Calm(world) && Swept(store, order, i, world, w.batch) ==> Swept(store, order, i + 1, world, w'.batch)
      ensures Bounded(w.batch) && w.batch.count < 1000 ==> Bounded(w'.batch)
    {
      hide PassOk, Swept, Walks, Harmless, Bounded;
      var e := order[i];
      w', pend' := w, pend;
      PassIndexed(was, store, order, i, target, w, gone, pend);
      if world.readFails(i) {
        EntryVisited(was, store, order, i, target, w, gone, pend, w.batch);
      } else if e.key !in store.rows {
        EntryVisited(was, store, order, i, target, w, gone, pend, DropEntry(w.batch, e));
        w' := w.(batch := DropEntry(w.batch, e));
      } else if store.rows[e.key].None? {
        EntryVisited(was, store, order, i, target, w, gone, pend, DropKey(w.batch, e));
        w' := w.(batch := DropKey(w.batch, e));
      } else if Expired(store.rows[e.key].value, world.clock(i)) || world.backrefFails(i) {
        EntryVisited(was, store, order, i, target, w, gone, pend, w.batch);
      } else if e.key in store.backrefs && store.backrefs[e.key] != e {
        EntryVisited(was, store, order, i, target, w, gone, pend, DropEntry(w.batch, e));
        w' := w.(batch := DropEntry(w.batch, e));
      } else {
        var vm := store.rows[e.key].value;
        KeyStaged(was, store, order, i, target, w, gone, pend, vm);
        pend' := pend + [e.key];
        w' := w.(batch := DropKey(w.batch, e), pendingBytes := w.pendingBytes + vm.valueLength,
                 pendingCount := w.pendingCount + 1, pendingFiles := w.pendingFiles + [vm]);
      }
      if Bounded(w.batch) && w.batch.count < 1000 {
        VisitBounded(w.batch, e);
      }
      if Calm(world) && Swept(store, order, i, world, w.batch) {
        SweptNext(store, order, i, world, w.batch, w'.batch);
      }
    }
  }
}
