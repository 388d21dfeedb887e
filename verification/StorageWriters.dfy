/** Every step of a foreground writer keeps the invariant: puts, deletes,
    evictions, conditional writes, and handing paths to the deletion queue. */
module StorageWriters {
  import opened Rows
  import opened Merge
  import opened Storage
  import opened StorageInvariant

  // ---- Every step keeps the invariant ----

  /** The others can live with this step of `t`, and the store stays sound. */
  ghost predicate Moved(s: State, s': State, t: Tid) {
    Evolves(s, s', t) && RowsOk(s') && StoreOk(s') && OneRecompactor(s')
  }

  /** The same for a step that has not yet moved `t`. */
  ghost predicate Sound(s: State, s': State, t: Tid) {
    Evolves(s, s', t) && RowsOk(s') && StoreOk(s') && s'.threads == s.threads
  }

  lemma MoveKeeps(s: State, s1: State, t: Tid, pc: Pc)
    requires OneRecompactor(s) && Sound(s, s1, t)
    requires Recompactor(pc) ==> forall u :: u in s.threads && u != t ==> !Recompactor(s.threads[u])
    ensures Moved(s, Go(s1, t, pc), t)
  {
    var s' := Go(s1, t, pc);
    MoveEvolves(s, s1, t, pc);
    forall k | k in s'.rows ensures RowOk(s', k, s'.rows[k]) {
      assert RowOk(s1, k, s1.rows[k]);
    }
    MoveStoreOk(s1, t, pc);
  }

  lemma MoveEvolves(s: State, s1: State, t: Tid, pc: Pc)
    requires Evolves(s, s1, t)
    ensures Evolves(s, Go(s1, t, pc), t)
  {
    var s' := Go(s1, t, pc);
    forall k | k in s'.rows ensures RowChange(s, s', t, k) {
      assert RowChange(s, s1, t, k);
    }
    forall u: Tid | u != t ensures PcOf(s', u) == PcOf(s, u) {
      assert PcOf(s1, u) == PcOf(s, u);
    }
  }

  lemma MoveStoreOk(s: State, t: Tid, pc: Pc)
    requires StoreOk(s)
    ensures StoreOk(Go(s, t, pc))
  {
  }

  // Steps that touch rows and hand over private files, and nothing else.

  ghost predicate OnlyRows(s: State, s': State, t: Tid) {
    && s' == s.(rows := s'.rows, private := s'.private)
    && s'.private.Keys <= s.private.Keys
    && (forall p :: p in s'.private ==> s'.private[p] == s.private[p])
    && (forall p :: p in s.private && p !in s'.private ==> s.private[p] == t)
  }

  ghost predicate RowFine(s: State, s': State, t: Tid, k: Key)
    requires k in s'.rows
  {
    (k in s.rows && s'.rows[k] == s.rows[k]) || (RowChange(s, s', t, k) && RowOk(s', k, s'.rows[k]))
  }

  lemma RowsSound(s: State, s': State, t: Tid)
    requires RowsOk(s) && StoreOk(s) && OnlyRows(s, s', t)
    requires forall k :: k in s'.rows ==> RowFine(s, s', t, k)
    ensures Sound(s, s', t)
  {
    RowsEvolve(s, s', t);
    RowsStayOk(s, s', t);
    StoreStaysOk(s, s', t);
  }

  lemma RowsEvolve(s: State, s': State, t: Tid)
    requires StoreOk(s) && OnlyRows(s, s', t)
    requires forall k :: k in s'.rows ==> RowFine(s, s', t, k)
    ensures Evolves(s, s', t)
  {
    hide RowOk, QueueOk;
    forall k | k in s'.rows ensures RowChange(s, s', t, k) {
      assert RowFine(s, s', t, k);
    }
  }

  lemma RowsStayOk(s: State, s': State, t: Tid)
    requires RowsOk(s) && OnlyRows(s, s', t)
    requires forall k :: k in s'.rows ==> RowFine(s, s', t, k)
    ensures RowsOk(s')
  {
  }

  lemma StoreStaysOk(s: State, s': State, t: Tid)
    requires StoreOk(s) && OnlyRows(s, s', t)
    requires forall k :: k in s'.rows ==> RowFine(s, s', t, k)
    ensures StoreOk(s')
  {
  }

  lemma StaySound(s: State, t: Tid)
    requires RowsOk(s) && StoreOk(s)
    ensures Sound(s, s, t)
  {
  }

  lemma PublishSound(s: State, t: Tid, vm: ValueMessage)
    requires RowsOk(s) && StoreOk(s)
    requires vm.valueType == RawFile ==> vm.rawFilePath in s.private && s.private[vm.rawFilePath] == t
    ensures Sound(s, Publish(s, vm), t)
  {
    RowsSound(s, Publish(s, vm), t);
  }

  /** Putting a row of its own over a key is something only `t` can do, and never onto a queued path. */
  lemma InstallSound(s: State, t: Tid, k: Key, row: ValueMessage)
    requires RowsOk(s) && StoreOk(s) && FreshOk(s, t, k, row) && row.version <= s.lastStamp
    requires row.version == 0 || (row.version in s.owners && s.owners[row.version] == t)
    ensures Sound(s, Publish(s, row).(rows := s.rows[k := row]), t)
  {
    var s' := Publish(s, row).(rows := s.rows[k := row]);
    assert row.valueType == RawFile ==> row.rawFilePath !in s.queued;
    assert RowOk(s', k, row);
    RowsSound(s, s', t);
  }

  lemma TombstoneSound(s: State, t: Tid, k: Key, v: nat)
    requires RowsOk(s) && StoreOk(s) && v <= s.lastStamp
    requires v == 0 || (v in s.owners && s.owners[v] == t)
    ensures Sound(s, s.(rows := s.rows[k := Tombstone(v)]), t)
  {
    RowsSound(s, s.(rows := s.rows[k := Tombstone(v)]), t);
  }

  lemma RemoveSound(s: State, t: Tid, ks: set<Key>)
    requires RowsOk(s) && StoreOk(s)
    ensures Sound(s, s.(rows := s.rows - ks), t)
  {
    RowsSound(s, s.(rows := s.rows - ks), t);
  }

  // Steps that leave the rows alone.

  lemma SameRowsSound(s: State, s': State, t: Tid)
    requires RowsOk(s) && StoreOk(s)
    requires Grows(s, s', t) && Shape(s') && s'.rows == s.rows && s'.threads == s.threads
    requires forall p :: p in s'.queued && p !in s.queued ==> (p in s.born ==> Dead(s, p)) && (p in s.segs ==> SegDead(s, p))
    requires s'.queued <= s.queued + s.born.Keys + s.segs.Keys
    ensures Sound(s, s', t)
  {
    SameRowsOk(s, s', t);
    forall p | p in s'.queued && p in s'.born ensures Dead(s', p) {
      assert p in s.born && Dead(s, p);
    }
    forall g | g in s'.queued && g in s'.segs ensures SegDead(s', g) {
      assert g in s.segs && SegDead(s, g);
    }
  }

  lemma SameRowsOk(s: State, s': State, t: Tid)
    requires RowsOk(s) && Shape(s) && Grows(s, s', t) && s'.rows == s.rows
    requires forall p :: p in s'.queued && p !in s.queued ==> (p in s.born ==> Dead(s, p)) && (p in s.segs ==> SegDead(s, p))
    ensures RowsOk(s')
  {
    forall k | k in s'.rows ensures RowOk(s', k, s'.rows[k]) {
      assert RowOk(s, k, s.rows[k]);
      var vm := s.rows[k];
      if vm.valueType == Segment {
        assert SegGrows(s.segs[vm.segmentPath], s'.segs[vm.segmentPath], t);
      }
    }
  }

  lemma WriteSound(s: State, t: Tid, k: Key, vm: ValueMessage, bytes: Bytes)
    requires RowsOk(s) && StoreOk(s)
    requires vm.valueType == RawFile ==> vm.rawFilePath !in s.born && vm.rawFilePath !in s.segs && vm.rawFilePath != ""
    ensures Sound(s, WriteFile(s, t, k, vm, bytes), t)
  {
    WriteGrows(s, t, k, vm, bytes);
    SameRowsSound(s, WriteFile(s, t, k, vm, bytes), t);
  }

  lemma WriteGrows(s: State, t: Tid, k: Key, vm: ValueMessage, bytes: Bytes)
    requires Shape(s)
    requires vm.valueType == RawFile ==> vm.rawFilePath !in s.born && vm.rawFilePath !in s.segs && vm.rawFilePath != ""
    ensures Grows(s, WriteFile(s, t, k, vm, bytes), t) && Shape(WriteFile(s, t, k, vm, bytes))
  {
    assert vm.valueType == RawFile ==> vm.rawFilePath !in s.private && vm.rawFilePath !in s.queued;
  }

  /** A change of index or stamps on top of another change by the same thread. */
  lemma ChainSound(s: State, s1: State, s': State, t: Tid)
    requires Sound(s, s1, t) && Sound(s1, s', t)
    requires s' == s1.(index := s'.index, lastStamp := s'.lastStamp, owners := s'.owners)
    ensures Sound(s, s', t)
  {
    GrowsChain(s, s1, s', t);
    forall k | k in s'.rows ensures RowChange(s, s', t, k) {
      assert RowChange(s, s1, t, k);
    }
  }

  lemma GrowsChain(s: State, s1: State, s': State, t: Tid)
    requires Grows(s, s1, t) && Grows(s1, s', t)
    requires s' == s1.(index := s'.index, lastStamp := s'.lastStamp, owners := s'.owners)
    ensures Grows(s, s', t)
  {
  }

  lemma IndexSound(s: State, s1: State, t: Tid, index: set<(Key, Path)>)
    requires Sound(s, s1, t)
    requires forall e :: e in index ==> e in s1.index || (e.1 in s1.born && e.1 !in s1.private && s1.born[e.1].key == e.0)
    ensures Sound(s, s1.(index := index), t)
  {
    SameRowsSound(s1, s1.(index := index), t);
    ChainSound(s, s1, s1.(index := index), t);
  }

  lemma StampGrows(s: State, t: Tid, v: nat)
    requires Shape(s) && v > s.lastStamp
    ensures var s' := s.(lastStamp := v, owners := s.owners[v := t]); Grows(s, s', t) && Shape(s')
  {
    assert v !in s.owners;
  }

  lemma StampSound(s: State, s1: State, t: Tid, v: nat)
    requires Sound(s, s1, t) && v > s1.lastStamp
    ensures Sound(s, s1.(lastStamp := v, owners := s1.owners[v := t]), t)
  {
    hide RowsOk, QueueOk, RowChange, Dead, SegDead, Grows, Shape;
    var s' := s1.(lastStamp := v, owners := s1.owners[v := t]);
    StampGrows(s1, t, v);
    SameRowsSound(s1, s', t);
    ChainSound(s, s1, s', t);
  }

  lemma QueueSound(s: State, t: Tid, p: Path)
    requires RowsOk(s) && StoreOk(s) && Dead(s, p)
    ensures Sound(s, s.(queued := s.queued + {p}), t)
  {
    SameRowsSound(s, s.(queued := s.queued + {p}), t);
  }

  // ---- Plain puts, deletes, eviction, expiry ----

  ghost predicate Base(s: State) {
    RowsOk(s) && StoreOk(s) && OneRecompactor(s)
  }

  lemma StayMoves(s: State, t: Tid, pc: Pc)
    requires Base(s) && !Recompactor(pc)
    ensures Moved(s, Go(s, t, pc), t)
  {
    StaySound(s, t);
    MoveKeeps(s, s, t, pc);
  }

  lemma WriteMoves(s: State, t: Tid, k: Key, vm: ValueMessage, bytes: Bytes, pc: Pc)
    requires Base(s) && !Recompactor(pc)
    requires vm.valueType == RawFile ==> vm.rawFilePath !in s.born && vm.rawFilePath !in s.segs && vm.rawFilePath != ""
    ensures Moved(s, Go(WriteFile(s, t, k, vm, bytes), t, pc), t)
  {
    WriteSound(s, t, k, vm, bytes);
    MoveKeeps(s, WriteFile(s, t, k, vm, bytes), t, pc);
  }

  /** A row read earlier: once its key's row is another, its file is dead. */
  lemma PrevDies(s: State, s1: State, k: Key, prev: Option<ValueMessage>)
    requires RowsOk(s1) && PrevOk(s, k, prev)
    requires forall p :: p in s.born && p !in s.private ==> p in s1.born && p !in s1.private && s1.born[p] == s.born[p]
    requires k in s1.rows ==> RawPaths(Some(s1.rows[k])) !! RawPaths(prev)
    ensures AllDead(s1, RawPaths(prev))
  {
  }

  lemma CommitMoves(s: State, t: Tid, k: Key, row: ValueMessage, prev: Option<ValueMessage>, index: set<(Key, Path)>)
    requires Base(s) && PutOk(s, t, k, row, prev)
    requires forall e :: e in index ==> e in s.index || (row.valueType == RawFile && e == (k, row.rawFilePath))
    ensures var s' := Go(Publish(s, row).(rows := s.rows[k := row], index := index), t, Flushing(RawPaths(prev)));
            Moved(s, s', t) && AllDead(s', RawPaths(prev))
  {
    InstallSound(s, t, k, row);
    var s1 := Publish(s, row).(rows := s.rows[k := row]);
    IndexSound(s, s1, t, index);
    MoveKeeps(s, s1.(index := index), t, Flushing(RawPaths(prev)));
    PrevDies(s, Go(s1.(index := index), t, Flushing(RawPaths(prev))), k, prev);
  }

  /** A prepared file that will never be installed is dead from here on. */
  lemma DiscardMoves(s: State, t: Tid, vm: ValueMessage)
    requires Base(s)
    requires vm.valueType == RawFile ==>
               vm.rawFilePath in s.born && vm.rawFilePath in s.private && s.private[vm.rawFilePath] == t
    ensures var s' := Go(Publish(s, vm), t, Flushing(RawPaths(Some(vm))));
            Moved(s, s', t) && AllDead(s', RawPaths(Some(vm)))
  {
    PublishSound(s, t, vm);
    MoveKeeps(s, Publish(s, vm), t, Flushing(RawPaths(Some(vm))));
    forall k, q | q in RawPaths(Some(vm)) && k in s.rows ensures !RefersRaw(s.rows[k], q) {
      assert RowOk(s, k, s.rows[k]);
    }
  }

  lemma RemoveMoves(s: State, t: Tid, m: map<Key, ValueMessage>, paths: set<Path>)
    requires Base(s) && VictimsOk(s, m)
    requires forall q :: q in paths ==> exists k :: k in m && q in RawPaths(Some(m[k]))
    ensures var s' := Go(s.(rows := s.rows - m.Keys), t, Flushing(paths));
            Moved(s, s', t) && AllDead(s', paths)
  {
    RemoveSound(s, t, m.Keys);
    var s1 := s.(rows := s.rows - m.Keys);
    MoveKeeps(s, s1, t, Flushing(paths));
    var s' := Go(s1, t, Flushing(paths));
    forall q | q in paths ensures Dead(s', q) {
      var k :| k in m && q in RawPaths(Some(m[k]));
      PrevDies(s, s', k, Some(m[k]));
    }
  }

  lemma RowIsPrev(s: State, k: Key)
    requires RowsOk(s)
    ensures PrevOk(s, k, Lookup(s.rows, k))
  {
  }

  lemma StartPutKeeps(s: State, t: Tid, k: Key, row: ValueMessage, bytes: Bytes)
    requires Base(s) && Preparable(s, row, bytes) && row.version == 0
    ensures var s' := Go(WriteFile(s, t, k, row, bytes), t, PutWritten(k, row));
            Moved(s, s', t) && PutOk(s', t, k, row, None)
  {
    WriteMoves(s, t, k, row, bytes, PutWritten(k, row));
  }

  lemma ReadPrevKeeps(s: State, t: Tid, k: Key, row: ValueMessage, prev: Option<ValueMessage>)
    requires Base(s) && PutOk(s, t, k, row, None) && prev in {None, Lookup(s.rows, k)}
    ensures var s' := Go(s, t, PutStaged(k, row, prev));
            Moved(s, s', t) && PutOk(s', t, k, row, prev)
  {
    RowIsPrev(s, k);
    StayMoves(s, t, PutStaged(k, row, prev));
  }

  lemma CollectKeeps(s: State, t: Tid, m: map<Key, ValueMessage>, k: Key)
    requires Base(s) && VictimsOk(s, m) && k in s.rows
    ensures var s' := Go(s, t, Deleting(m[k := s.rows[k]]));
            Moved(s, s', t) && VictimsOk(s', m[k := s.rows[k]])
  {
    RowIsPrev(s, k);
    StayMoves(s, t, Deleting(m[k := s.rows[k]]));
  }

  lemma FlushKeeps(s: State, t: Tid, paths: set<Path>)
    requires Base(s) && AllDead(s, paths)
    ensures var s' := Go(s, t, Flushing(paths));
            Moved(s, s', t) && AllDead(s', paths)
  {
    StayMoves(s, t, Flushing(paths));
  }

  // ---- Compare and swap ----

  lemma IssueTokenKeeps(s: State, t: Tid, k: Key, stamp: nat)
    requires Base(s) && stamp > s.lastStamp
    ensures Moved(s, Go(s, t, TokenRead(k, stamp)).(lastStamp := stamp, owners := s.owners[stamp := t]), t)
  {
    StaySound(s, t);
    StampSound(s, s, t, stamp);
    MoveKeeps(s, s.(lastStamp := stamp, owners := s.owners[stamp := t]), t, TokenRead(k, stamp));
  }

  lemma StartCasMoves(s: State, t: Tid, k: Key, op: ValueMessage, bytes: Bytes)
    requires Base(s) && op.version > s.lastStamp && op.opType == CasPut && Preparable(s, Adopt(op), bytes)
    ensures var s' := Go(WriteFile(s, t, k, op, bytes), t, CasWritten(k, op))
                      .(lastStamp := op.version, owners := s.owners[op.version := t]);
            Moved(s, s', t) && CasOk(s', t, k, op, None)
  {
    hide Sound, Moved, RowsOk, QueueOk, OneRecompactor, CasOk;
    WriteSound(s, t, k, op, bytes);
    var s1 := WriteFile(s, t, k, op, bytes);
    StampSound(s, s1, t, op.version);
    var s2 := s1.(lastStamp := op.version, owners := s1.owners[op.version := t]);
    MoveKeeps(s, s2, t, CasWritten(k, op));
    StartedOk(s, t, k, op, bytes, Go(s2, t, CasWritten(k, op)));
  }

  lemma StartedOk(s: State, t: Tid, k: Key, op: ValueMessage, bytes: Bytes, s': State)
    requires RowsOk(s) && s.lastStamp >= VERSION_LEGACY
    requires op.version > s.lastStamp && op.opType == CasPut && Preparable(s, Adopt(op), bytes)
    requires var s1 := WriteFile(s, t, k, op, bytes); s'.born == s1.born && s'.private == s1.private && s'.rows == s.rows
    requires s'.lastStamp == op.version && s'.owners == s.owners[op.version := t]
    ensures CasOk(s', t, k, op, None)
  {
  }

  /** A delete that goes on will expect exactly the version of a row it found on a raw file. */
  lemma CheckDeleteKeeps(s: State, t: Tid, k: Key, expected: nat, now: int)
    requires Base(s) && Proceeds(DeleteOperand(0, expected), Lookup(s.rows, k), now)
    ensures var prev := Lookup(s.rows, k);
            var guard := Translate(DeleteOperand(0, expected), prev, now).casExpected;
            var s' := Go(s, t, CasChecked(k, guard, prev, expected));
            Moved(s, s', t) && GuardOk(s', k, guard, prev) && AskedOk(expected, guard, prev)
  {
    var prev := Lookup(s.rows, k);
    var guard := Translate(DeleteOperand(0, expected), prev, now).casExpected;
    RowIsPrev(s, k);
    StayMoves(s, t, CasChecked(k, guard, prev, expected));
    assert k in s.rows ==> RowOk(s, k, s.rows[k]);
  }

  lemma StampDeleteKeeps(s: State, t: Tid, k: Key, guard: nat, prev: Option<ValueMessage>, asked: nat, stamp: nat)
    requires Base(s) && GuardOk(s, k, guard, prev) && stamp > s.lastStamp
    ensures var op := DeleteOperand(stamp, guard);
            var s' := Go(s, t, CasStaged(k, op, prev, asked)).(lastStamp := stamp, owners := s.owners[stamp := t]);
            Moved(s, s', t) && CasOk(s', t, k, op, prev)
  {
    StaySound(s, t);
    StampSound(s, s, t, stamp);
    MoveKeeps(s, s.(lastStamp := stamp, owners := s.owners[stamp := t]), t, CasStaged(k, DeleteOperand(stamp, guard), prev, asked));
    forall k | k in s.rows ensures s.rows[k].version != stamp {
      assert RowOk(s, k, s.rows[k]);
    }
  }

  /** The operand that goes on expects exactly the version of a row it found on a raw file. */
  lemma TranslatedOk(s: State, t: Tid, k: Key, op: ValueMessage, now: int)
    requires RowsOk(s) && CasOk(s, t, k, op, None) && Proceeds(op, Lookup(s.rows, k), now)
    ensures CasOk(s, t, k, Translate(op, Lookup(s.rows, k), now), Lookup(s.rows, k))
  {
  }

  lemma MergeOutcome(rows: map<Key, ValueMessage>, k: Key, op: ValueMessage)
    requires op.opType != NoOp
    ensures var base := Lookup(rows, k);
            MergeRow(rows, k, op) ==
            if Admits(base, op) then rows[k := if op.opType == CasPut then Adopt(op) else Tombstone(op.version)]
            else if base.None? then rows[k := Tombstone(0)]
            else rows
    ensures op.opType == CasPut && k !in rows ==> Admits(Lookup(rows, k), op)
  {
    var base := Lookup(rows, k);
    assert Fold(base, [op]) == Resolve(base, op);
  }

  /** The merge itself: an admitted operand becomes the row, a refused one leaves it. */
  lemma MergeSound(s: State, t: Tid, k: Key, op: ValueMessage)
    requires RowsOk(s) && StoreOk(s) && OperandOk(s, t, k, op)
    ensures Sound(s, Publish(s, op).(rows := MergeRow(s.rows, k, op)), t)
  {
    hide Sound, RowsOk, StoreOk, MergeRow, Admits, StoredForm;
    var base := Lookup(s.rows, k);
    MergeOutcome(s.rows, k, op);
    if op.opType == CasDelete {
      assert Publish(s, op) == s;
      if Admits(base, op) || base.None? {
        TombstoneSound(s, t, k, if Admits(base, op) then op.version else 0);
      } else {
        StaySound(s, t);
      }
    } else if Admits(base, op) {
      InstallSound(s, t, k, Adopt(op));
    } else {
      PublishSound(s, t, op);
    }
  }

  /** What was read before the merge is dead after it, whoever won: had the row
      still been on that file, its version would have matched. */
  lemma MergeReplaces(s: State, t: Tid, k: Key, op: ValueMessage, prev: Option<ValueMessage>)
    requires RowsOk(s) && CasOk(s, t, k, op, prev)
    ensures RawPaths(Some(MergeRow(s.rows, k, op)[k])) !! RawPaths(prev)
  {
    var base := Lookup(s.rows, k);
    assert Fold(base, [op]) == Resolve(base, op);
    assert base.Some? ==> RowOk(s, k, base.value);
  }

  /** A refused operand leaves no trace: nobody carries its stamp or its file. */
  lemma RefusedUnseen(s: State, t: Tid, k: Key, op: ValueMessage, s': State)
    requires RowsOk(s) && OperandOk(s, t, k, op) && Unseen(s, op.version)
    requires !Admits(Lookup(s.rows, k), op)
    requires s'.rows == MergeRow(s.rows, k, op) && s'.born == s.born && s'.private == Publish(s, op).private
    ensures Unseen(s', op.version) && AllDead(s', RawPaths(Some(op)))
  {
    var base := Lookup(s.rows, k);
    assert Fold(base, [op]) == Resolve(base, op);
    forall q, k' | q in RawPaths(Some(op)) && k' in s'.rows ensures !RefersRaw(s'.rows[k'], q) {
      if k' in s.rows {
        assert RowOk(s, k', s.rows[k']);
      }
    }
  }

  lemma MergeCasMoves(s: State, t: Tid, k: Key, op: ValueMessage, prev: Option<ValueMessage>)
    requires Base(s) && CasOk(s, t, k, op, prev)
    ensures var admitted := Admits(Lookup(s.rows, k), op);
            var s' := Go(Publish(s, op).(rows := MergeRow(s.rows, k, op)), t, CasMerged(k, op, prev, admitted));
            Moved(s, s', t) && MergedOk(s', t, k, op, prev, admitted)
  {
    hide Sound, Evolves, QueueOk, Shape, RowOk, MergeRow, Admits, Unseen, OneRecompactor;
    var admitted := Admits(Lookup(s.rows, k), op);
    MergeSound(s, t, k, op);
    var s1 := Publish(s, op).(rows := MergeRow(s.rows, k, op));
    MoveKeeps(s, s1, t, CasMerged(k, op, prev, admitted));
    var s' := Go(s1, t, CasMerged(k, op, prev, admitted));
    MergeReplaces(s, t, k, op, prev);
    PrevDies(s, s', k, prev);
    if !admitted {
      RefusedUnseen(s, t, k, op, s');
    }
  }

  lemma IndexMoves(s: State, t: Tid, index: set<(Key, Path)>, pc: Pc)
    requires Base(s) && !Recompactor(pc)
    requires forall e :: e in index ==> e in s.index || (e.1 in s.born && e.1 !in s.private && s.born[e.1].key == e.0)
    ensures Moved(s, Go(s.(index := index), t, pc), t)
  {
    StaySound(s, t);
    IndexSound(s, s, t, index);
    MoveKeeps(s, s.(index := index), t, pc);
  }

  /** A put that reads back somebody else's stamp owns a file no row references. */
  lemma LostSpillIsDead(s: State, t: Tid, k: Key, op: ValueMessage, prev: Option<ValueMessage>, admitted: bool)
    requires RowsOk(s) && MergedOk(s, t, k, op, prev, admitted) && !Reports(s, k, op)
    ensures AllDead(s, RawPaths(Some(op)))
  {
  }

  lemma RefreshKeeps(s: State, t: Tid, k: Key, op: ValueMessage, now: int)
    requires Base(s) && CasOk(s, t, k, op, None) && Proceeds(op, Lookup(s.rows, k), now)
    ensures var op', prev := Translate(op, Lookup(s.rows, k), now), Lookup(s.rows, k);
            var s' := Go(s, t, CasStaged(k, op', prev, op.casExpected));
            Moved(s, s', t) && CasOk(s', t, k, op', prev) && AskedOk(op.casExpected, op'.casExpected, prev)
  {
    TranslatedOk(s, t, k, op, now);
    StayMoves(s, t, CasStaged(k, Translate(op, Lookup(s.rows, k), now), Lookup(s.rows, k), op.casExpected));
  }

  lemma WonKeeps(s: State, t: Tid, k: Key, op: ValueMessage, prev: Option<ValueMessage>, admitted: bool, index: set<(Key, Path)>)
    requires Base(s) && MergedOk(s, t, k, op, prev, admitted)
    requires forall e :: e in index ==> e in s.index || (op.valueType == RawFile && e == (k, op.rawFilePath))
    ensures var s' := Go(s.(index := index), t, Flushing(RawPaths(prev)));
            Moved(s, s', t) && AllDead(s', RawPaths(prev))
  {
    IndexMoves(s, t, index, Flushing(RawPaths(prev)));
  }

  // ---- The deletion queue ----

  lemma QueueMoves(s: State, t: Tid, p: Path, ok: bool, pc: Pc)
    requires Base(s) && Dead(s, p) && !Recompactor(pc)
    ensures Moved(s, Go(s.(queued := if ok then s.queued + {p} else s.queued), t, pc), t)
  {
    if ok {
      QueueSound(s, t, p);
      MoveKeeps(s, s.(queued := s.queued + {p}), t, pc);
    } else {
      StayMoves(s, t, pc);
    }
  }

  lemma QueueNextKeeps(s: State, t: Tid, paths: set<Path>, p: Path, ok: bool)
    requires Base(s) && AllDead(s, paths) && p in paths
    ensures var s' := Go(s.(queued := if ok then s.queued + {p} else s.queued), t, Flushing(paths - {p}));
            Moved(s, s', t) && AllDead(s', paths - {p})
  {
    QueueMoves(s, t, p, ok, Flushing(paths - {p}));
  }
}
