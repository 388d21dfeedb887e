/** Every step of the file compactor and of the segment recompactor keeps the
    invariant. */
module StorageMigration {
  import opened Rows
  import opened Merge
  import opened Storage
  import opened StorageInvariant
  import opened StorageWriters
  import opened StorageBatches

  // ---- Segments ----

  /** A step that only grows segments of its own, or opens a new one. */
  lemma SegsSound(s: State, s': State, t: Tid)
    requires RowsOk(s) && StoreOk(s) && s' == s.(segs := s'.segs)
    requires forall g :: g in s.segs ==> g in s'.segs && SegGrows(s.segs[g], s'.segs[g], t)
    requires forall g :: g in s'.segs ==> (s'.segs[g].closed ==> s'.segs[g].holder.None?) && (g in s.segs || (g != "" && g !in s.born))
    ensures Sound(s, s', t)
  {
    SegsShape(s, s', t);
    SameRowsSound(s, s', t);
  }

  lemma SegsShape(s: State, s': State, t: Tid)
    requires Shape(s) && s' == s.(segs := s'.segs)
    requires forall g :: g in s.segs ==> g in s'.segs && SegGrows(s.segs[g], s'.segs[g], t)
    requires forall g :: g in s'.segs ==> (s'.segs[g].closed ==> s'.segs[g].holder.None?) && (g in s.segs || (g != "" && g !in s.born))
    ensures Shape(s')
  {
  }

  lemma AcquireSound(s: State, t: Tid, dst: Path)
    requires RowsOk(s) && StoreOk(s) && Acquirable(s, dst)
    ensures Sound(s, Acquire(s, t, dst), t) && HeldBy(Acquire(s, t, dst), t, dst) && dst !in s.queued
  {
    SegsSound(s, Acquire(s, t, dst), t);
  }

  lemma ReleaseSound(s: State, t: Tid, dst: Path, close: bool)
    requires RowsOk(s) && StoreOk(s) && HeldBy(s, t, dst)
    ensures Sound(s, Release(s, dst, close), t)
  {
    SegsSound(s, Release(s, dst, close), t);
  }

  lemma AppendSound(s: State, t: Tid, dst: Path, offset: int, e: Entry)
    requires RowsOk(s) && StoreOk(s) && HeldBy(s, t, dst) && offset !in s.segs[dst].entries
    ensures Sound(s, Append(s, dst, offset, e), t) && HeldBy(Append(s, dst, offset, e), t, dst)
  {
    SegsSound(s, Append(s, dst, offset, e), t);
  }

  function Roll(s: State, t: Tid, full: Path, dst: Path): State
    requires full in s.segs
  {
    Acquire(Release(s, full, true), t, dst)
  }

  lemma RollSound(s: State, t: Tid, full: Path, dst: Path)
    requires RowsOk(s) && StoreOk(s) && HeldBy(s, t, full) && Acquirable(s, dst) && dst != full
    ensures Sound(s, Roll(s, t, full, dst), t)
    ensures HeldBy(Roll(s, t, full, dst), t, dst) && dst !in s.queued
  {
    SegsSound(s, Roll(s, t, full, dst), t);
  }

  // ---- The file compactor ----

  /** The compactor takes a step that leaves its staged work as it was. */
  lemma CompactMoves(s: State, s1: State, t: Tid, pc: Pc, pc': Pc)
    requires Base(s) && Sound(s, s1, t) && pc.Compacting? && CompactOk(s, t, pc) && HeldBy(s1, t, pc.out) && pc'.Compacting?
    ensures Moved(s, Go(s1, t, pc'), t) && CompactOk(Go(s1, t, pc'), t, pc)
  {
    MoveKeeps(s, s1, t, pc');
    CompactPersists(s, Go(s1, t, pc'), t, t, pc);
  }

  lemma StartCompactKeeps(s: State, t: Tid, dst: Path)
    requires Base(s) && Acquirable(s, dst)
    ensures var pc := Compacting(dst, None, [], {}, {}, {});
            var s' := Go(Acquire(s, t, dst), t, pc);
            Moved(s, s', t) && CompactOk(s', t, pc)
  {
    AcquireSound(s, t, dst);
    MoveKeeps(s, Acquire(s, t, dst), t, Compacting(dst, None, [], {}, {}, {}));
  }

  /** An index row names a file its writer has let go of, so if the key's row is
      elsewhere the file is dead. */
  lemma StaleEntryIsDead(s: State, k: Key, p: Path)
    requires RowsOk(s) && p in s.born && p !in s.private && s.born[p].key == k
    requires k in s.rows ==> !RefersRaw(s.rows[k], p)
    ensures Dead(s, p)
  {
  }

  lemma LoadEntryKeeps(s: State, t: Tid, pc: Pc, k: Key, p: Path)
    requires Base(s) && pc.Compacting? && CompactOk(s, t, pc) && k in s.rows && RefersRaw(s.rows[k], p)
    ensures var pc' := pc.(loaded := Some(Staged(k, s.rows[k])));
            Moved(s, Go(s, t, pc'), t) && CompactOk(Go(s, t, pc'), t, pc')
  {
    StaySound(s, t);
    CompactMoves(s, s, t, pc, pc.(loaded := Some(Staged(k, s.rows[k]))));
    RowIsPrev(s, k);
  }

  lemma DropEntryKeeps(s: State, t: Tid, pc: Pc, drop: set<(Key, Path)>, loaded: Option<Staged>)
    requires Base(s) && pc.Compacting? && CompactOk(s, t, pc) && loaded in {None, pc.loaded}
    ensures var pc' := pc.(drop := drop, loaded := loaded);
            Moved(s, Go(s, t, pc'), t) && CompactOk(Go(s, t, pc'), t, pc')
  {
    StaySound(s, t);
    CompactMoves(s, s, t, pc, pc.(drop := drop, loaded := loaded));
  }

  lemma DropStaleKeeps(s: State, t: Tid, pc: Pc, k: Key, p: Path, drop: set<(Key, Path)>)
    requires Base(s) && pc.Compacting? && CompactOk(s, t, pc)
    requires (k, p) in s.index && (k in s.rows ==> !RefersRaw(s.rows[k], p))
    ensures var pc' := pc.(drop := drop);
            var s' := Go(s.(queued := s.queued + {p}), t, pc');
            Moved(s, s', t) && CompactOk(s', t, pc')
  {
    StaleEntryIsDead(s, k, p);
    QueueSound(s, t, p);
    CompactMoves(s, s.(queued := s.queued + {p}), t, pc, pc.(drop := drop));
  }

  lemma ClearsAppend(batch: seq<Staged>, x: Staged, k: Key, p: Path)
    ensures Clears(batch, k, p) ==> Clears(batch + [x], k, p)
    ensures x.key == k && x.op.rawFilePath == p ==> Clears(batch + [x], k, p)
  {
    if Clears(batch, k, p) {
      var i :| 0 <= i < |batch| && batch[i].key == k && batch[i].op.rawFilePath == p;
      assert (batch + [x])[i] == batch[i];
    }
    assert (batch + [x])[|batch|] == x;
  }

  lemma SourcesAppend(s: State, batch: seq<Staged>, x: Staged, sources: set<Path>, p: Path)
    requires SourcesOk(s, batch, sources) && p in s.born && p !in s.private
    requires x.key == s.born[p].key && x.op.rawFilePath == p
    ensures SourcesOk(s, batch + [x], sources + {p})
  {
    forall q | q in sources + {p} ensures Dead(s, q) || Clears(batch + [x], s.born[q].key, q) {
      ClearsAppend(batch, x, s.born[q].key, q);
    }
  }

  lemma StageMigration(s: State, k: Key, vm: ValueMessage, dst: Path, offset: int)
    requires Shape(s) && vm.valueType == RawFile && PrevOk(s, k, Some(vm)) && dst in s.segs
    requires offset in s.segs[dst].entries
    requires s.segs[dst].entries[offset] == Entry(k, s.born[vm.rawFilePath].bytes)
    ensures FromRaw(s, k, MigrationOf(vm, vm.rawFilePath, dst, offset), {dst})
  {
  }

  lemma CopyEntryKeeps(s: State, t: Tid, pc: Pc, offset: int)
    requires Base(s) && pc.Compacting? && CompactOk(s, t, pc)
    requires pc.loaded.Some? && offset !in s.segs[pc.out].entries
    ensures var k, vm := pc.loaded.value.key, pc.loaded.value.op;
            var p := vm.rawFilePath;
            var pc' := pc.(loaded := None,
                           merges := pc.merges + [Staged(k, MigrationOf(vm, p, pc.out, offset))],
                           drop := pc.drop + {(k, p)},
                           sources := pc.sources + {p});
            var s' := Go(Append(s, pc.out, offset, Entry(k, s.born[p].bytes)), t, pc');
            Moved(s, s', t) && CompactOk(s', t, pc')
  {
    hide RowsOk, QueueOk, OneRecompactor, Evolves, SourcesOk, AllDead, FromRaw, SegGrows;
    var k, vm := pc.loaded.value.key, pc.loaded.value.op;
    var p := vm.rawFilePath;
    var e, x := Entry(k, s.born[p].bytes), Staged(k, MigrationOf(vm, p, pc.out, offset));
    var pc' := pc.(loaded := None, merges := pc.merges + [x], drop := pc.drop + {(k, p)}, sources := pc.sources + {p});
    AppendSound(s, t, pc.out, offset, e);
    CompactMoves(s, Append(s, pc.out, offset, e), t, pc, pc');
    var s' := Go(Append(s, pc.out, offset, e), t, pc');
    StageMigration(s', k, vm, pc.out, offset);
    SourcesAppend(s', pc.merges, x, pc.sources, p);
  }

  lemma DeadSource(s: State, batch: seq<Staged>, sources: set<Path>, p: Path)
    requires SourcesOk(s, batch, sources) && Dead(s, p)
    ensures SourcesOk(s, batch, sources + {p})
  {
  }

  lemma FewerSources(s: State, batch: seq<Staged>, sources: set<Path>, p: Path)
    requires SourcesOk(s, batch, sources + {p})
    ensures SourcesOk(s, batch, sources)
  {
  }

  /** A damaged or vanished file: its row is purged, or is already gone. */
  lemma DropBrokenKeeps(s: State, t: Tid, pc: Pc, k: Key, p: Path, pc': Pc)
    requires Base(s) && pc.Compacting? && CompactOk(s, t, pc)
    requires p in s.born && p !in s.private && s.born[p].key == k && p in s.damaged + s.gone
    requires pc'.Compacting? && pc' == pc.(merges := pc'.merges, drop := pc'.drop, sources := pc'.sources, loaded := pc'.loaded)
    requires pc'.loaded in {None, pc.loaded} && pc'.sources in {pc.sources, pc.sources + {p}}
    requires pc'.merges == if k in s.rows then pc.merges + [Staged(k, PurgeOf(p))] else pc.merges
    ensures Moved(s, Go(s, t, pc'), t) && CompactOk(Go(s, t, pc'), t, pc')
  {
    hide Sound, Evolves, OneRecompactor, QueueOk, FromRaw, SourcesOk, AllDead, HeldBy, RowOk;
    StaySound(s, t);
    CompactMoves(s, s, t, pc, pc');
    var s' := Go(s, t, pc');
    if k in s.rows {
      assert PurgeStaged(s', k, PurgeOf(p));
      SourcesAppend(s', pc.merges, Staged(k, PurgeOf(p)), pc.sources, p);
      FewerSources(s', pc'.merges, pc.sources, p);
    } else {
      StaleEntryIsDead(s', k, p);
      DeadSource(s', pc.merges, pc.sources, p);
    }
  }

  /** After the commit every source of the batch is dead. */
  lemma {:induction false} CommittedSourcesDie(s: State, s': State, batch: seq<Staged>, dst: Path, sources: set<Path>)
    requires CompactBatchOk(s, batch, dst) && SourcesOk(s, batch, sources) && RowsOk(s')
    requires s'.rows == ApplyBatch(s.rows, batch) && s'.born == s.born && s'.private == s.private
    ensures AllDead(s', sources)
  {
    forall p | p in sources ensures Dead(s', p) {
      BatchClearsRaw(s.rows, batch, s.born[p].key, p);
      StaleEntryIsDead(s', s.born[p].key, p);
    }
  }

  lemma {:induction false} CommitCompactMoves(s: State, t: Tid, dst: Path, batch: seq<Staged>, index: set<(Key, Path)>, pc: Pc)
    requires Base(s) && HeldBy(s, t, dst) && CompactBatchOk(s, batch, dst) && index <= s.index && pc.Compacting?
    ensures Moved(s, Go(s.(rows := ApplyBatch(s.rows, batch), index := index), t, pc), t)
  {
    assert AllStaged(s, batch, "", {dst});
    BatchSound(s, t, batch, "", {dst});
    var s1 := s.(rows := ApplyBatch(s.rows, batch));
    IndexSound(s, s1, t, index);
    MoveKeeps(s, s1.(index := index), t, pc);
  }

  lemma CommitCompactKeeps(s: State, t: Tid, pc: Pc)
    requires Base(s) && pc.Compacting? && CompactOk(s, t, pc)
    ensures var pc' := pc.(merges := [], drop := {}, sources := {}, flush := pc.flush + pc.sources);
            var s' := Go(s.(rows := ApplyBatch(s.rows, pc.merges), index := s.index - pc.drop), t, pc');
            Moved(s, s', t) && CompactOk(s', t, pc')
  {
    var pc' := pc.(merges := [], drop := {}, sources := {}, flush := pc.flush + pc.sources);
    CommitCompactMoves(s, t, pc.out, pc.merges, s.index - pc.drop, pc');
    var s' := Go(s.(rows := ApplyBatch(s.rows, pc.merges), index := s.index - pc.drop), t, pc');
    CommittedSourcesDie(s, s', pc.merges, pc.out, pc.sources);
    AllDeadPersists(s, s', t, pc.flush);
  }

  lemma QueueSourceKeeps(s: State, t: Tid, pc: Pc, p: Path, ok: bool)
    requires Base(s) && pc.Compacting? && CompactOk(s, t, pc) && p in pc.flush
    ensures var pc' := pc.(flush := pc.flush - {p});
            var s' := Go(s.(queued := if ok then s.queued + {p} else s.queued), t, pc');
            Moved(s, s', t) && CompactOk(s', t, pc')
  {
    if ok {
      QueueSound(s, t, p);
    } else {
      StaySound(s, t);
    }
    CompactMoves(s, s.(queued := if ok then s.queued + {p} else s.queued), t, pc, pc.(flush := pc.flush - {p}));
  }

  lemma RollCompactKeeps(s: State, t: Tid, pc: Pc, dst: Path)
    requires Base(s) && pc.Compacting? && CompactOk(s, t, pc)
    requires pc.merges == [] && pc.sources + pc.flush == {} && dst != pc.out && Acquirable(s, dst)
    ensures var s' := Go(Roll(s, t, pc.out, dst), t, pc.(out := dst));
            Moved(s, s', t) && CompactOk(s', t, pc.(out := dst))
  {
    RollSound(s, t, pc.out, dst);
    MoveKeeps(s, Roll(s, t, pc.out, dst), t, pc.(out := dst));
  }

  lemma ReleaseKeeps(s: State, t: Tid, dst: Path)
    requires Base(s) && HeldBy(s, t, dst)
    ensures Moved(s, Go(Release(s, dst, false), t, Idle), t)
  {
    ReleaseSound(s, t, dst, false);
    MoveKeeps(s, Release(s, dst, false), t, Idle);
  }

  // ---- The segment recompactor ----

  /** The recompactor takes a step that leaves its own bookkeeping as it was. */
  lemma RecompactMoves(s: State, s1: State, t: Tid, pc: Pc, pc': Pc)
    requires Base(s) && Sound(s, s1, t) && t in s.threads && s.threads[t] == pc && pc.Recompacting? && RecompactingOk(s, t, pc)
    requires pc'.Recompacting? && s1.queued == s.queued && s1.rows == s.rows
    ensures Moved(s, Go(s1, t, pc'), t)
    ensures RecompactBatchOk(Go(s1, t, pc'), pc.batch, pc.src, pc.dsts) && SourceSegOk(Go(s1, t, pc'), pc.src)
    ensures pc.found.Some? ==> FoundOk(Go(s1, t, pc'), pc.src, pc.todo, pc.found.value.0, pc.found.value.1)
    ensures pc.failed || Covered(Go(s1, t, pc'), pc.src, pc.todo, pc.batch)
  {
    hide RecompactBatchOk, FoundOk, Covered, RowsOk, QueueOk;
    MoveKeeps(s, s1, t, pc');
    var s' := Go(s1, t, pc');
    assert SegGrows(s.segs[pc.src], s'.segs[pc.src], t);
    assert !Owns(s, t, pc.src);
    RecompactBatchPersists(s, s', t, pc.batch, pc.src, pc.dsts);
    if pc.found.Some? {
      FoundPersists(s, s', t, pc.src, pc.todo, pc.found.value.0, pc.found.value.1);
    }
    if !pc.failed {
      CoveredPersists(s, s', t, pc.src, pc.todo, pc.batch);
    }
  }

  lemma StartRecompactKeeps(s: State, t: Tid, src: Path, dst: Path)
    requires Base(s) && SourceSegOk(s, src) && Acquirable(s, dst)
    requires forall u :: u in s.threads ==> !Recompactor(s.threads[u])
    ensures var pc := Recompacting(src, s.segs[src].entries.Keys, None, dst, {dst}, [], false);
            var s' := Go(Acquire(s, t, dst), t, pc);
            Moved(s, s', t) && RecompactingOk(s', t, pc)
  {
    AcquireSound(s, t, dst);
    var pc := Recompacting(src, s.segs[src].entries.Keys, None, dst, {dst}, [], false);
    MoveKeeps(s, Acquire(s, t, dst), t, pc);
    forall k | k in s.rows && RefersSegment(s.rows[k], src) ensures s.rows[k].segmentOffset in pc.todo {
      assert RowOk(s, k, s.rows[k]);
    }
  }

  /** The entry at `offset` is where its key's row points: it will be copied. */
  lemma VisitLiveKeeps(s: State, t: Tid, pc: Pc, offset: int)
    requires Base(s) && t in s.threads && s.threads[t] == pc && pc.Recompacting? && RecompactingOk(s, t, pc)
    requires offset in pc.todo && offset in s.segs[pc.src].entries && PointsAt(s, pc.src, offset)
    ensures var pc' := pc.(found := Some((offset, s.rows[s.segs[pc.src].entries[offset].key])));
            Moved(s, Go(s, t, pc'), t) && RecompactingOk(Go(s, t, pc'), t, pc')
  {
    var k := s.segs[pc.src].entries[offset].key;
    StaySound(s, t);
    RecompactMoves(s, s, t, pc, pc.(found := Some((offset, s.rows[k]))));
    assert RowOk(s, k, s.rows[k]);
  }

  /** It is not: no row at all points at this offset. */
  lemma VisitDeadKeeps(s: State, t: Tid, pc: Pc, offset: int)
    requires Base(s) && t in s.threads && s.threads[t] == pc && pc.Recompacting? && RecompactingOk(s, t, pc)
    requires pc.found.None? && offset in pc.todo && offset in s.segs[pc.src].entries && !PointsAt(s, pc.src, offset)
    ensures var pc' := pc.(todo := pc.todo - {offset});
            Moved(s, Go(s, t, pc'), t) && RecompactingOk(Go(s, t, pc'), t, pc')
  {
    StaySound(s, t);
    RecompactMoves(s, s, t, pc, pc.(todo := pc.todo - {offset}));
    forall k | k in s.rows && RefersSegment(s.rows[k], pc.src) ensures s.rows[k].segmentOffset != offset {
      assert RowOk(s, k, s.rows[k]);
    }
  }

  lemma StageMove(s: State, src: Path, dst: Path, dsts: set<Path>, offset: int, at: int, vm: ValueMessage, todo: set<int>)
    requires Shape(s) && FoundOk(s, src, todo, offset, vm) && dst in dsts && dst in s.segs
    requires at in s.segs[dst].entries && s.segs[dst].entries[at] == s.segs[src].entries[offset]
    ensures FromSegment(s, s.segs[src].entries[offset].key, MigrationOf(vm, src, dst, at), src, dsts)
  {
  }

  lemma CoveredAppend(s: State, src: Path, todo: set<int>, batch: seq<Staged>, offset: int, x: Staged)
    requires RowsOk(s) && Covered(s, src, todo, batch) && src in s.segs && offset in s.segs[src].entries
    requires x.key == s.segs[src].entries[offset].key && x.op.rawFilePath == src
    ensures Covered(s, src, todo - {offset}, batch + [x])
  {
    forall k | k in s.rows && RefersSegment(s.rows[k], src)
      ensures s.rows[k].segmentOffset in todo - {offset} || Clears(batch + [x], k, src)
    {
      assert RowOk(s, k, s.rows[k]);
      ClearsAppend(batch, x, k, src);
    }
  }

  lemma CopyLiveKeeps(s: State, t: Tid, pc: Pc, at: int)
    requires Base(s) && t in s.threads && s.threads[t] == pc && pc.Recompacting? && RecompactingOk(s, t, pc)
    requires pc.found.Some? && at !in s.segs[pc.dst].entries
    ensures var e := s.segs[pc.src].entries[pc.found.value.0];
            var x := Staged(e.key, MigrationOf(pc.found.value.1, pc.src, pc.dst, at));
            var pc' := pc.(found := None, todo := pc.todo - {pc.found.value.0}, batch := pc.batch + [x]);
            var s' := Go(Append(s, pc.dst, at, e), t, pc');
            Moved(s, s', t) && RecompactingOk(s', t, pc')
  {
    hide QueueOk, OneRecompactor, Evolves, Covered, FromSegment, RowOk;
    var offset, vm := pc.found.value.0, pc.found.value.1;
    var e := s.segs[pc.src].entries[offset];
    var x := Staged(e.key, MigrationOf(vm, pc.src, pc.dst, at));
    var pc' := pc.(found := None, todo := pc.todo - {offset}, batch := pc.batch + [x]);
    AppendSound(s, t, pc.dst, at, e);
    RecompactMoves(s, Append(s, pc.dst, at, e), t, pc, pc');
    var s' := Go(Append(s, pc.dst, at, e), t, pc');
    StageMove(s', pc.src, pc.dst, pc.dsts, offset, at, vm, pc.todo);
    if !pc.failed {
      CoveredAppend(s', pc.src, pc.todo, pc.batch, offset, x);
    }
  }

  lemma GiveUpKeeps(s: State, t: Tid, pc: Pc)
    requires Base(s) && t in s.threads && s.threads[t] == pc && pc.Recompacting? && RecompactingOk(s, t, pc)
    ensures var pc' := pc.(found := None, failed := true);
            Moved(s, Go(s, t, pc'), t) && RecompactingOk(Go(s, t, pc'), t, pc')
  {
    StaySound(s, t);
    RecompactMoves(s, s, t, pc, pc.(found := None, failed := true));
  }

  lemma RecompactBatchWiden(s: State, batch: seq<Staged>, src: Path, dsts: set<Path>, dst: Path)
    requires RecompactBatchOk(s, batch, src, dsts)
    ensures RecompactBatchOk(s, batch, src, dsts + {dst})
  {
  }

  lemma RollDestinationsOk(s: State, t: Tid, full: Path, dst: Path, dsts: set<Path>, pc: Pc)
    requires Shape(s) && DestinationsOk(s, t, full, dsts) && dst != full && Acquirable(s, dst) && dst !in s.queued
    ensures DestinationsOk(Go(Roll(s, t, full, dst), t, pc), t, dst, dsts + {dst})
  {
  }

  lemma RollDestinationKeeps(s: State, t: Tid, pc: Pc, dst: Path)
    requires Base(s) && t in s.threads && s.threads[t] == pc && pc.Recompacting? && RecompactingOk(s, t, pc)
    requires dst != pc.dst && Acquirable(s, dst)
    ensures var pc' := pc.(dst := dst, dsts := pc.dsts + {dst});
            var s' := Go(Roll(s, t, pc.dst, dst), t, pc');
            Moved(s, s', t) && RecompactingOk(s', t, pc')
  {
    hide Moved, RecompactBatchOk, FoundOk, Covered, RowsOk, QueueOk, OneRecompactor;
    var pc' := pc.(dst := dst, dsts := pc.dsts + {dst});
    RollSound(s, t, pc.dst, dst);
    RecompactMoves(s, Roll(s, t, pc.dst, dst), t, pc, pc');
    RollDestinationsOk(s, t, pc.dst, dst, pc.dsts, pc');
    RecompactBatchWiden(Go(Roll(s, t, pc.dst, dst), t, pc'), pc.batch, pc.src, pc.dsts, dst);
  }

  lemma ReleaseChain(s: State, s1: State, t: Tid, dst: Path)
    requires Sound(s, s1, t) && s1.segs == s.segs && s1.private == s.private && s1.owners == s.owners && s1.queued == s.queued
    requires s1.born == s.born && HeldBy(s, t, dst)
    ensures Sound(s, Release(s1, dst, false), t)
  {
    ReleaseSound(s1, t, dst, false);
    var s' := Release(s1, dst, false);
    assert Grows(s, s', t);
    forall k | k in s'.rows ensures RowChange(s, s', t, k) {
      assert RowChange(s, s1, t, k);
    }
  }

  lemma SourceEmptied(s: State, pc: Pc, rows: map<Key, ValueMessage>)
    requires pc.Recompacting? && RecompactBatchOk(s, pc.batch, pc.src, pc.dsts) && pc.src !in pc.dsts
    requires Covered(s, pc.src, {}, pc.batch) && rows == ApplyBatch(s.rows, pc.batch)
    ensures forall k :: k in rows ==> !RefersSegment(rows[k], pc.src)
  {
    forall i | 0 <= i < |pc.batch| ensures IsMigration(pc.batch[i].op) && pc.batch[i].op.segmentPath != pc.src {
      assert FromSegment(s, pc.batch[i].key, pc.batch[i].op, pc.src, pc.dsts);
    }
    forall k | k in rows ensures !RefersSegment(rows[k], pc.src) {
      BatchClearsSegment(s.rows, pc.batch, k, pc.src);
    }
  }

  lemma CommitRecompactKeeps(s: State, t: Tid, pc: Pc)
    requires Base(s) && t in s.threads && s.threads[t] == pc && pc.Recompacting? && RecompactingOk(s, t, pc)
    requires pc.todo == {} || pc.failed
    ensures var pc' := if pc.failed then Idle else Retiring(pc.src);
            var s' := Go(Release(s, pc.dst, false).(rows := ApplyBatch(s.rows, pc.batch)), t, pc');
            Moved(s, s', t) && pc.src in s'.segs && s'.segs[pc.src].closed && (!pc.failed ==> SegDead(s', pc.src))
  {
    assert AllStaged(s, pc.batch, pc.src, pc.dsts);
    BatchSound(s, t, pc.batch, pc.src, pc.dsts);
    var s1 := s.(rows := ApplyBatch(s.rows, pc.batch));
    ReleaseChain(s, s1, t, pc.dst);
    assert Release(s1, pc.dst, false) == Release(s, pc.dst, false).(rows := ApplyBatch(s.rows, pc.batch));
    MoveKeeps(s, Release(s1, pc.dst, false), t, if pc.failed then Idle else Retiring(pc.src));
    if !pc.failed {
      SourceEmptied(s, pc, s1.rows);
    }
  }

  lemma RetireKeeps(s: State, t: Tid, src: Path)
    requires Base(s) && PcOf(s, t) == Retiring(src) && src in s.segs && s.segs[src].closed && SegDead(s, src)
    ensures Moved(s, Go(s.(queued := s.queued + {src}), t, Idle), t)
  {
    SameRowsSound(s, s.(queued := s.queued + {src}), t);
    MoveKeeps(s, s.(queued := s.queued + {src}), t, Idle);
  }
}
