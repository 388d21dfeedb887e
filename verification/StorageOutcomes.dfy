/** What the writers and the compactors achieve: a conditional put reads back as given, nothing it
    replaced or wrote in vain leaks, files move into segments, and full segments stay as they are
    (storage/cas.go, storage/compaction). */
module StorageOutcomes {
  import opened Rows
  import opened Merge
  import opened Storage
  import opened StorageInvariant
  import opened StorageWriters
  import opened StorageBatches
  import opened StorageMigration
  import opened StorageSafety
  import opened StorageTheorems
  import opened StorageFences
  import opened StorageReclaim

  // ---- Following one conditional write through a run ----

  /** Where `t` is with an operand of this stamp, it is this operand up to the version it expects. */
  predicate SameWrite(s: State, t: Tid, k: Key, op: ValueMessage) {
    var pc := PcOf(s, t);
    && op.version <= s.lastStamp
    && ((pc.CasWritten? || pc.CasStaged? || pc.CasMerged?) && pc.op.version == op.version ==>
          pc.key == k && pc.op == op.(casExpected := pc.op.casExpected))
  }

  lemma CasStages(s: State, t: Tid, a: CasAction)
    ensures var pc, pc' := PcOf(s, t), PcOf(CasStep(s, t, a), t);
            pc'.CasStaged? && pc' != pc ==>
              || pc'.op.version > s.lastStamp
              || (pc.CasWritten? && pc'.key == pc.key && pc'.op == pc.op.(casExpected := pc'.op.casExpected))
  {
    hide Preparable, WriteFile, Publish, Proceeds, Classify, MergeRow, Reports, Admits, RawPaths;
  }

  lemma CasBegins(s: State, t: Tid, a: CasAction)
    ensures var pc, pc' := PcOf(s, t), PcOf(CasStep(s, t, a), t);
            && (pc'.CasWritten? && pc' != pc ==> pc'.op.version > s.lastStamp)
            && (pc'.CasMerged? && pc' != pc ==>
                  pc.CasStaged? && pc'.key == pc.key && pc'.op == pc.op && pc'.prev == pc.prev)
  {
    hide Preparable, WriteFile, Publish, Proceeds, Translate, Classify, MergeRow, Reports, Admits, RawPaths;
  }

  /** A conditional write starts under a new stamp, is staged with its operand, and merged with it. */
  lemma CasMovesOn(s: State, t: Tid, a: CasAction)
    ensures var pc, pc' := PcOf(s, t), PcOf(CasStep(s, t, a), t);
            && (pc'.CasWritten? && pc' != pc ==> pc'.op.version > s.lastStamp)
            && (pc'.CasStaged? && pc' != pc ==>
                  || pc'.op.version > s.lastStamp
                  || (pc.CasWritten? && pc'.key == pc.key && pc'.op == pc.op.(casExpected := pc'.op.casExpected)))
            && (pc'.CasMerged? && pc' != pc ==>
                  pc.CasStaged? && pc'.key == pc.key && pc'.op == pc.op && pc'.prev == pc.prev)
  {
    hide CasStep;
    CasStages(s, t, a);
    CasBegins(s, t, a);
  }

  lemma CasKeepsWrite(s: State, t: Tid, a: CasAction, k: Key, op: ValueMessage)
    requires SameWrite(s, t, k, op) && s.lastStamp <= CasStep(s, t, a).lastStamp
    ensures SameWrite(CasStep(s, t, a), t, k, op)
  {
    hide CasStep;
    CasMovesOn(s, t, a);
  }

  lemma StepKeepsWrite(s: State, a: Action, t: Tid, k: Key, op: ValueMessage)
    requires Inv(s) && SameWrite(s, t, k, op)
    ensures SameWrite(Step(s, a), t, k, op)
  {
    hide PutStep, DeleteStep, CasStep, QueueStep, CompactStep, RecompactStep, EnvironmentStep, Inv;
    StampsGrow(s, a);
    if a.Environment? || a.t != t {
      OthersStay(s, a, t);
    } else if a.Swapping? {
      CasKeepsWrite(s, t, a.cas, k, op);
    } else if InCas(PcOf(Step(s, a), t)) {
      OwnStep(s, a);
    }
  }

  lemma {:induction false} RunKeepsWrite(s: State, more: seq<Action>, t: Tid, k: Key, op: ValueMessage)
    requires Inv(s) && SameWrite(s, t, k, op)
    ensures Inv(After(s, more)) && SameWrite(After(s, more), t, k, op)
  {
    hide Inv, Step, SameWrite;
    if more != [] {
      RunKeepsWrite(s, more[..|more| - 1], t, k, op);
      StepKeepsInv(After(s, more[..|more| - 1]), more[|more| - 1]);
      StepKeepsWrite(After(s, more[..|more| - 1]), more[|more| - 1], t, k, op);
    }
  }

  /** The bytes of a prepared value are in the row or in its file. */
  predicate Carries(s: State, vm: ValueMessage, bytes: Bytes) {
    if vm.valueType == RawFile then vm.rawFilePath in s.born && s.born[vm.rawFilePath].bytes == bytes
    else vm.valueType == Inline && vm.data == bytes
  }

  lemma StartCasIs(s: State, t: Tid, k: Key, op: ValueMessage, bytes: Bytes)
    requires CanPut(s, t, op, bytes)
    ensures var s' := Step(s, Swapping(t, StartCas(k, op, bytes)));
            PcOf(s', t) == CasWritten(k, op) && s'.lastStamp == op.version && Carries(s', op, bytes) && s'.rows == s.rows
  {
  }

  lemma CarriesOn(s: State, s': State, vm: ValueMessage, bytes: Bytes)
    requires Carries(s, vm, bytes) && Persists(s, s')
    ensures Carries(s', vm, bytes)
  {
  }

  lemma AdmittedPutReads(s: State, t: Tid, bytes: Bytes)
    requires PcOf(s, t).CasStaged? && PcOf(s, t).op.opType == CasPut && Carries(s, PcOf(s, t).op, bytes)
    requires Admits(Lookup(s.rows, PcOf(s, t).key), PcOf(s, t).op)
    ensures var pc, s' := PcOf(s, t), Step(s, Swapping(t, MergeCas));
            && Meaning(s', pc.key) == Reading(bytes, pc.op.expiry, pc.op.version)
            && pc.key in s'.rows && s'.rows[pc.key].valueLength == pc.op.valueLength
            && s'.rows[pc.key].checksum == pc.op.checksum && s'.rows[pc.key].valueType == pc.op.valueType
  {
    var pc := PcOf(s, t);
    var base := Lookup(s.rows, pc.key);
    assert Fold(base, [pc.op]) == Resolve(base, pc.op);
  }

  /** What a conditional put was given is what the key reads as when it is admitted, whatever ran
      since it started. */
  lemma {:induction false} CasPutReadsBack(run: seq<Action>, more: seq<Action>, t: Tid, k: Key, op: ValueMessage, bytes: Bytes)
    requires CanPut(After(INIT, run), t, op, bytes)
    requires var s2 := After(Step(After(INIT, run), Swapping(t, StartCas(k, op, bytes))), more);
             && PcOf(s2, t).CasStaged? && PcOf(s2, t).op.version == op.version
             && Admits(Lookup(s2.rows, PcOf(s2, t).key), PcOf(s2, t).op)
    ensures var s2 := After(Step(After(INIT, run), Swapping(t, StartCas(k, op, bytes))), more);
            var s3 := Step(s2, Swapping(t, MergeCas));
            && Meaning(s3, k) == Reading(bytes, op.expiry, op.version)
            && k in s3.rows && s3.rows[k].valueLength == |bytes| && s3.rows[k].checksum == op.checksum
  {
    hide Inv, Step, Meaning, Admits, Carries, Persists;
    var s, a := After(INIT, run), Swapping(t, StartCas(k, op, bytes));
    RunKeepsInv(run);
    StepKeepsInv(s, a);
    StartCasIs(s, t, k, op, bytes);
    RunKeepsWrite(Step(s, a), more, t, k, op);
    RunPersists(Step(s, a), more);
    var s2 := After(Step(s, a), more);
    CarriesOn(Step(s, a), s2, op, bytes);
    CarriesSame(s2, op, PcOf(s2, t).op, bytes);
    AdmittedPutReads(s2, t, bytes);
  }

  lemma CarriesSame(s: State, a: ValueMessage, b: ValueMessage, bytes: Bytes)
    requires Carries(s, a, bytes) && b == a.(casExpected := b.casExpected)
    ensures Carries(s, b, bytes)
  {
  }

  // ---- What a conditional write replaced, or wrote in vain ----

  /** `t` has read the row and gone on with this operand; it never goes back to before the read. */
  predicate SameCall(s: State, t: Tid, k: Key, op: ValueMessage, prev: Option<ValueMessage>) {
    var pc := PcOf(s, t);
    && op.version <= s.lastStamp
    && (pc.CasWritten? ==> pc.op.version != op.version)
    && ((pc.CasStaged? || pc.CasMerged?) && pc.op.version == op.version ==> pc.key == k && pc.op == op && pc.prev == prev)
  }

  lemma CasKeepsCall(s: State, t: Tid, a: CasAction, k: Key, op: ValueMessage, prev: Option<ValueMessage>)
    requires SameCall(s, t, k, op, prev) && s.lastStamp <= CasStep(s, t, a).lastStamp
    ensures SameCall(CasStep(s, t, a), t, k, op, prev)
  {
    hide CasStep;
    CasMovesOn(s, t, a);
  }

  lemma StepKeepsCall(s: State, a: Action, t: Tid, k: Key, op: ValueMessage, prev: Option<ValueMessage>)
    requires Inv(s) && SameCall(s, t, k, op, prev)
    ensures SameCall(Step(s, a), t, k, op, prev)
  {
    hide PutStep, DeleteStep, CasStep, QueueStep, CompactStep, RecompactStep, EnvironmentStep, Inv;
    StampsGrow(s, a);
    if a.Environment? || a.t != t {
      OthersStay(s, a, t);
    } else if a.Swapping? {
      CasKeepsCall(s, t, a.cas, k, op, prev);
    } else if InCas(PcOf(Step(s, a), t)) {
      OwnStep(s, a);
    }
  }

  lemma {:induction false} RunKeepsCall(s: State, mid: seq<Action>, t: Tid, k: Key, op: ValueMessage, prev: Option<ValueMessage>)
    requires Inv(s) && SameCall(s, t, k, op, prev)
    ensures Inv(After(s, mid)) && SameCall(After(s, mid), t, k, op, prev)
  {
    hide Inv, Step, SameCall;
    if mid != [] {
      RunKeepsCall(s, mid[..|mid| - 1], t, k, op, prev);
      StepKeepsInv(After(s, mid[..|mid| - 1]), mid[|mid| - 1]);
      StepKeepsCall(After(s, mid[..|mid| - 1]), mid[|mid| - 1], t, k, op, prev);
    }
  }

  /** The write is known to have lost: it read back another stamp. */
  predicate Lost(s: State, end: CasAction, k: Key, op: ValueMessage) {
    end.ReadBack? && !(k in s.rows && s.rows[k].version == op.version)
  }

  lemma ReadBackGoes(s: State, t: Tid, end: CasAction)
    requires PcOf(s, t).CasMerged? && (end.ReadBack? || end.ReadBackFails?)
    ensures var pc := PcOf(s, t);
            CasStep(s, t, end) ==
              if Lost(s, end, pc.key, pc.op) then Go(s, t, Flushing(RawPaths(Some(pc.op))))
              else Go(s.(index := if end.indexed && pc.op.valueType == RawFile then s.index + {(pc.key, pc.op.rawFilePath)}
                                  else s.index), t, Flushing(RawPaths(pc.prev)))
  {
    hide Go, RawPaths, Preparable, WriteFile, Publish, Proceeds, Translate, Classify, MergeRow, Admits;
  }

  lemma ReadBackIs(s: State, t: Tid, end: CasAction)
    requires PcOf(s, t).CasMerged? && (end.ReadBack? || end.ReadBackFails?)
    ensures var pc, s' := PcOf(s, t), Step(s, Swapping(t, end));
            && s'.rows == s.rows
            && PcOf(s', t) == Flushing(RawPaths(if Lost(s, end, pc.key, pc.op) then Some(pc.op) else pc.prev))
            && s'.index == if end.indexed && pc.op.valueType == RawFile && !Lost(s, end, pc.key, pc.op)
                           then s.index + {(pc.key, pc.op.rawFilePath)} else s.index
  {
    hide RawPaths, Lost, CasStep;
    ReadBackGoes(s, t, end);
  }

  lemma ReadBackOwes(s: State, t: Tid, end: CasAction)
    requires PcOf(s, t).CasMerged? && (end.ReadBack? || end.ReadBackFails?)
    ensures var pc, s' := PcOf(s, t), Step(s, Swapping(t, end));
            && s'.rows == s.rows
            && (forall p :: OnRaw(if Lost(s, end, pc.key, pc.op) then Some(pc.op) else pc.prev, p) ==> Owes(s', t, p))
            && (end.indexed && pc.op.valueType == RawFile && !Lost(s, end, pc.key, pc.op) ==>
                  (pc.key, pc.op.rawFilePath) in s'.index)
  {
    hide Step;
    ReadBackIs(s, t, end);
  }

  /** After the merge the file of the row the write had read is reclaimed if it won or cannot tell,
      and its own if it lost; a raw file it may have published is listed for compaction. */
  lemma {:induction false} ReadBackReclaims(run: seq<Action>, mid: seq<Action>, more: seq<Action>, t: Tid, p: Path, end: CasAction)
    requires PcOf(After(INIT, run), t).CasStaged? && (end.ReadBack? || end.ReadBackFails?) && Keeps(more, t, p)
    requires var pc, s2 := PcOf(After(INIT, run), t), After(After(INIT, run), mid);
             PcOf(s2, t).CasMerged? && PcOf(s2, t).op.version == pc.op.version
    ensures var pc, s2 := PcOf(After(INIT, run), t), After(After(INIT, run), mid);
            var s3 := Step(s2, Swapping(t, end));
            && (OnRaw(if Lost(s2, end, pc.key, pc.op) then Some(pc.op) else pc.prev, p) ==>
                  Reclaimed(Step(After(s3, more), Queueing(t, QueueNext(p, true))), p))
            && (end.indexed && pc.op.valueType == RawFile && !Lost(s2, end, pc.key, pc.op) ==>
                  (pc.key, pc.op.rawFilePath) in s3.index)
  {
    hide Inv, Step, Owes, Reclaimed, Keeps, OnRaw, Lost;
    var s := After(INIT, run);
    var pc := PcOf(s, t);
    RunKeepsInv(run);
    StagedIsIssued(s, t);
    RunKeepsCall(s, mid, t, pc.key, pc.op, pc.prev);
    var s2 := After(s, mid);
    ReadBackOwes(s2, t, end);
    StepKeepsInv(s2, Swapping(t, end));
    if OnRaw(if Lost(s2, end, pc.key, pc.op) then Some(pc.op) else pc.prev, p) {
      OwedIsReclaimed(Step(s2, Swapping(t, end)), more, t, p);
    }
  }

  lemma StagedIsIssued(s: State, t: Tid)
    requires Inv(s) && PcOf(s, t).CasStaged?
    ensures PcOf(s, t).op.version <= s.lastStamp
  {
    assert PcOk(s, t);
  }

  lemma RefreshReads(s: State, t: Tid, now: int)
    requires PcOf(s, t).CasWritten?
    ensures var pc, s' := PcOf(s, t), Step(s, Swapping(t, RefreshCas(now)));
            if PcOf(s', t).CasStaged? then
              && PcOf(s', t).key == pc.key && PcOf(s', t).prev == Lookup(s.rows, pc.key) && PcOf(s', t).op.version == pc.op.version
              && RawPaths(Some(PcOf(s', t).op)) == RawPaths(Some(pc.op))
            else forall p :: OnRaw(Some(pc.op), p) ==> Owes(s', t, p)
  {
  }

  /** A conditional put goes on with the row it has just read as what it replaces, or is refused
      and has its own file reclaimed. */
  lemma {:induction false} RefusedPutReclaims(run: seq<Action>, more: seq<Action>, t: Tid, now: int, p: Path)
    requires PcOf(After(INIT, run), t).CasWritten? && Keeps(more, t, p)
    ensures var s, s1 := After(INIT, run), Step(After(INIT, run), Swapping(t, RefreshCas(now)));
            if PcOf(s1, t).CasStaged? then PcOf(s1, t).prev == Lookup(s.rows, PcOf(s, t).key)
            else OnRaw(Some(PcOf(s, t).op), p) ==> Reclaimed(Step(After(s1, more), Queueing(t, QueueNext(p, true))), p)
  {
    hide Inv, Step, Owes, Reclaimed, Keeps, OnRaw;
    var s := After(INIT, run);
    RunKeepsInv(run);
    StepKeepsInv(s, Swapping(t, RefreshCas(now)));
    RefreshReads(s, t, now);
    var s1 := Step(s, Swapping(t, RefreshCas(now)));
    if !PcOf(s1, t).CasStaged? && OnRaw(Some(PcOf(s, t).op), p) {
      OwedIsReclaimed(s1, more, t, p);
    }
  }

  lemma FailCasOwes(s: State, t: Tid)
    requires PcOf(s, t).CasWritten? || PcOf(s, t).CasStaged?
    ensures var s' := Step(s, Swapping(t, FailCas)); s'.rows == s.rows && forall p :: OnRaw(Some(PcOf(s, t).op), p) ==> Owes(s', t, p)
  {
  }

  /** A write that fails before its merge leaves the rows alone and has its own file reclaimed. */
  lemma {:induction false} FailedCasReclaims(run: seq<Action>, more: seq<Action>, t: Tid, p: Path)
    requires PcOf(After(INIT, run), t).CasWritten? || PcOf(After(INIT, run), t).CasStaged?
    requires OnRaw(Some(PcOf(After(INIT, run), t).op), p) && Keeps(more, t, p)
    ensures var s, s1 := After(INIT, run), Step(After(INIT, run), Swapping(t, FailCas));
            s1.rows == s.rows && Reclaimed(Step(After(s1, more), Queueing(t, QueueNext(p, true))), p)
  {
    hide Inv, Step, Owes, Reclaimed, Keeps, OnRaw;
    RunKeepsInv(run);
    StepKeepsInv(After(INIT, run), Swapping(t, FailCas));
    FailCasOwes(After(INIT, run), t);
    OwedIsReclaimed(Step(After(INIT, run), Swapping(t, FailCas)), more, t, p);
  }

  /** A conditional delete goes on with the row it checked as what it replaces, under the stamp it drew. */
  lemma {:induction false} DeleteChecksRow(s: State, mid: seq<Action>, t: Tid, k: Key, expected: nat, now: int, stamp: nat)
    requires PcOf(s, t).Idle? && PcOf(Step(s, Swapping(t, CheckDelete(k, expected, now))), t).CasChecked?
    requires var s1 := Step(s, Swapping(t, CheckDelete(k, expected, now)));
             PcOf(After(s1, mid), t) == PcOf(s1, t) && stamp > After(s1, mid).lastStamp
    ensures var s2 := After(Step(s, Swapping(t, CheckDelete(k, expected, now))), mid);
            var pc := PcOf(Step(s2, Swapping(t, StampDelete(stamp))), t);
            && pc.CasStaged? && pc.key == k && pc.prev == Lookup(s.rows, k) && pc.asked == expected
            && pc.op.opType == CasDelete && pc.op.version == stamp
  {
    hide Step;
    CheckIs(s, t, k, expected, now);
    StampIs(After(Step(s, Swapping(t, CheckDelete(k, expected, now))), mid), t, stamp);
  }

  // ---- Files move into segments ----

  lemma {:induction false} ApplyAppend(rows: map<Key, ValueMessage>, batch: seq<Storage.Staged>, x: Storage.Staged)
    ensures ApplyBatch(rows, batch + [x]) == MergeRow(ApplyBatch(rows, batch), x.key, x.op)
    decreases |batch|
  {
    if batch == [] {
      assert batch + [x] == [x] && [x][1..] == [];
    } else {
      assert (batch + [x])[0] == batch[0] && (batch + [x])[1..] == batch[1..] + [x];
      ApplyAppend(MergeRow(rows, batch[0].key, batch[0].op), batch[1..], x);
    }
  }

  /** The row `vm` with the location changed to this segment entry and nothing else. */
  predicate MovedTo(vm: ValueMessage, vm': ValueMessage, g: Path, offset: int) {
    && vm'.valueType == Segment && vm'.segmentPath == g && vm'.segmentOffset == offset && vm'.rawFilePath == ""
    && vm'.data == vm.data && vm'.expiry == vm.expiry && vm'.valueLength == vm.valueLength && vm'.checksum == vm.checksum
    && vm'.version == vm.version && vm'.opType == NoOp && vm'.casExpected == 0
  }

  /** The last operand of a batch moves the row, if none before it does. */
  lemma {:induction false} LastOperandMoves(rows: map<Key, ValueMessage>, batch: seq<Storage.Staged>, k: Key, source: Path,
                                            g: Path, offset: int)
    requires k in rows && StoredForm(rows[k]) && (RefersRaw(rows[k], source) || RefersSegment(rows[k], source)) && source != ""
    requires (forall i :: 0 <= i < |batch| ==> IsMigration(batch[i].op) || IsPurge(batch[i].op)) && !Clears(batch, k, source)
    ensures var after := ApplyBatch(rows, batch + [Storage.Staged(k, MigrationOf(rows[k], source, g, offset))]);
            k in after && MovedTo(rows[k], after[k], g, offset)
  {
    var op := MigrationOf(rows[k], source, g, offset);
    ApplyAppend(rows, batch, Storage.Staged(k, op));
    StaleOperandsDoNothing(rows, batch, k);
    assert Fold(Some(rows[k]), [op]) == Resolve(Some(rows[k]), op);
  }

  lemma CopyIs(s: State, t: Tid, k: Key, p: Path, offset: int)
    requires PcOf(s, t).Compacting? && PcOf(s, t).loaded.None? && (k, p) in s.index && p !in s.gone && p !in s.damaged
    requires k in s.rows && RefersRaw(s.rows[k], p) && p in s.born
    requires PcOf(s, t).out in s.segs && offset !in s.segs[PcOf(s, t).out].entries
    ensures var pc := PcOf(s, t);
            var s' := Step(Step(s, Compaction(t, LoadEntry(k, p))), Compaction(t, CopyEntry(offset)));
            && PcOf(s', t).Compacting? && PcOf(s', t).out == pc.out
            && PcOf(s', t).merges == pc.merges + [Storage.Staged(k, MigrationOf(s.rows[k], p, pc.out, offset))]
            && (k, p) in PcOf(s', t).drop && p in PcOf(s', t).sources
  {
    var pc := PcOf(s, t);
    var s1 := Step(s, Compaction(t, LoadEntry(k, p)));
    assert s1 == Go(s, t, pc.(loaded := Some(Storage.Staged(k, s.rows[k]))));
  }

  lemma CompactorKnows(s: State, t: Tid, k: Key, p: Path)
    requires Inv(s) && PcOf(s, t).Compacting? && k in s.rows && RefersRaw(s.rows[k], p)
    ensures p != "" && p in s.born && p !in s.gone && StoredForm(s.rows[k]) && PcOf(s, t).out in s.segs
    ensures forall i :: 0 <= i < |PcOf(s, t).merges| ==> IsMigration(PcOf(s, t).merges[i].op) || IsPurge(PcOf(s, t).merges[i].op)
  {
    assert PcOk(s, t) && RowOk(s, k, s.rows[k]);
  }

  lemma CommitIs(s: State, t: Tid)
    requires PcOf(s, t).Compacting?
    ensures var pc, s' := PcOf(s, t), Step(s, Compaction(t, CommitCompact));
            && s'.rows == ApplyBatch(s.rows, pc.merges) && s'.index == s.index - pc.drop
            && PcOf(s', t).Compacting? && pc.sources <= PcOf(s', t).flush
  {
  }

  /** A file listed for compaction and found intact moves: if the row is still the one that was
      loaded when the batch commits, it then leads into the segment, reads as before, the file is
      off the list, and it is queued. */
  lemma {:induction false} CompactionMoves(run: seq<Action>, mid: seq<Action>, t: Tid, k: Key, p: Path, offset: int)
    requires var s := After(INIT, run); var pc := PcOf(s, t);
             && pc.Compacting? && pc.loaded.None? && (k, p) in s.index && p !in s.damaged
             && k in s.rows && RefersRaw(s.rows[k], p) && !Clears(pc.merges, k, p)
             && pc.out in s.segs && offset !in s.segs[pc.out].entries
    requires var s := After(INIT, run);
             var s2 := Step(Step(s, Compaction(t, LoadEntry(k, p))), Compaction(t, CopyEntry(offset)));
             && PcOf(After(s2, mid), t) == PcOf(s2, t)
             && k in After(s2, mid).rows && After(s2, mid).rows[k] == s.rows[k] && p !in After(s2, mid).damaged
    ensures var s := After(INIT, run);
            var s2 := Step(Step(s, Compaction(t, LoadEntry(k, p))), Compaction(t, CopyEntry(offset)));
            var s3 := Step(After(s2, mid), Compaction(t, CommitCompact));
            && k in s3.rows && MovedTo(s.rows[k], s3.rows[k], PcOf(s, t).out, offset) && Meaning(s3, k) == Meaning(s, k)
            && (k, p) !in s3.index && Reclaimed(Step(s3, Compaction(t, QueueSource(p, true))), p)
  {
    hide Inv, Step, Meaning, MovedTo, Reclaimed, ApplyBatch, MigrationOf;
    var s := After(INIT, run);
    var load, copy, commit := Compaction(t, LoadEntry(k, p)), Compaction(t, CopyEntry(offset)), Compaction(t, CommitCompact);
    RunKeepsInv(run);
    CompactorKnows(s, t, k, p);
    CopyIs(s, t, k, p, offset);
    StepKeepsInv(s, load);
    StepKeepsInv(Step(s, load), copy);
    var s2 := Step(Step(s, load), copy);
    RunFromKeepsInv(s2, mid);
    CommitIs(After(s2, mid), t);
    LastOperandMoves(After(s2, mid).rows, PcOf(s, t).merges, k, p, PcOf(s, t).out, offset);
    StepKeepsInv(After(s2, mid), commit);
    MovedMeans(s, s2, mid, t, k);
    SourceIsQueued(Step(After(s2, mid), commit), t, p);
  }

  /** The same row means the same later, and a commit that moves it keeps the meaning. */
  lemma {:induction false} MovedMeans(s: State, s2: State, mid: seq<Action>, t: Tid, k: Key)
    requires Inv(s) && Inv(s2) && k in s.rows && k in After(s2, mid).rows && After(s2, mid).rows[k] == s.rows[k]
    requires exists a, b :: s2 == Step(Step(s, a), b)
    requires var s3 := Step(After(s2, mid), Compaction(t, CommitCompact)); k in s3.rows && s3.rows[k].valueType == Segment
    ensures Meaning(Step(After(s2, mid), Compaction(t, CommitCompact)), k) == Meaning(s, k)
  {
    hide Inv, Step, Persists;
    var a, b :| s2 == Step(Step(s, a), b);
    StepPersists(s, a);
    StepKeepsInv(s, a);
    StepPersists(Step(s, a), b);
    RunPersists(s2, mid);
    SameRowReads(s, Step(s, a), s2, After(s2, mid), k);
    StepMeaning(After(s2, mid), Compaction(t, CommitCompact), k);
  }

  lemma SameRowReads(s: State, s1: State, s2: State, s3: State, k: Key)
    requires Inv(s) && Persists(s, s1) && Persists(s1, s2) && Persists(s2, s3)
    requires k in s.rows && k in s3.rows && s3.rows[k] == s.rows[k]
    ensures Meaning(s3, k) == Meaning(s, k)
  {
    hide PcOk, StoreOk, OneRecompactor;
    PersistsChain(s, s1, s2);
    PersistsChain(s, s2, s3);
    SameRowSameMeaning(s, s3, k);
  }

  lemma SourceIsQueued(s: State, t: Tid, p: Path)
    requires Inv(s) && PcOf(s, t).Compacting? && p in PcOf(s, t).flush
    ensures Reclaimed(Step(s, Compaction(t, QueueSource(p, true))), p)
  {
    hide PcOk, RowsOk, StoreOk, OneRecompactor;
    var queue := Compaction(t, QueueSource(p, true));
    StepKeepsInv(s, queue);
    assert p in Step(s, queue).queued;
    QueuedIsUnreferenced(Step(s, queue), p);
  }

  /** An entry of the list whose row is gone or on another file has its own file queued; one whose
      row is in a segment already does not. */
  lemma {:induction false} StaleEntryIsReclaimed(run: seq<Action>, t: Tid, k: Key, p: Path)
    requires var s := After(INIT, run);
             PcOf(s, t).Compacting? && PcOf(s, t).loaded.None? && (k, p) in s.index && p !in s.gone
    requires var s := After(INIT, run); k in s.rows ==> !RefersRaw(s.rows[k], p)
    ensures var s, s' := After(INIT, run), Step(After(INIT, run), Compaction(t, LoadEntry(k, p)));
            && (k, p) in PcOf(s', t).drop && s'.rows == s.rows
            && (if k in s.rows && s.rows[k].valueType == Segment then s'.queued == s.queued else Reclaimed(s', p))
  {
    hide PcOk, RowsOk, StoreOk, OneRecompactor;
    var s := After(INIT, run);
    RunKeepsInv(run);
    StepKeepsInv(s, Compaction(t, LoadEntry(k, p)));
    var s' := Step(s, Compaction(t, LoadEntry(k, p)));
    if !(k in s.rows && s.rows[k].valueType == Segment) {
      QueuedIsUnreferenced(s', p);
    }
  }

  lemma DropMissingIs(s: State, t: Tid, k: Key, p: Path)
    requires PcOf(s, t).Compacting? && (k, p) in s.index && p in s.gone
    ensures var s' := Step(s, Compaction(t, DropMissing(k, p)));
            PcOf(s', t).Compacting? && (k, p) in PcOf(s', t).drop && s'.rows == s.rows && s'.queued == s.queued
  {
  }

  /** An entry of the list whose file is gone is off the list when the batch commits. */
  lemma {:induction false} MissingEntryIsDropped(s: State, mid: seq<Action>, t: Tid, k: Key, p: Path)
    requires PcOf(s, t).Compacting? && (k, p) in s.index && p in s.gone
    requires var s1 := Step(s, Compaction(t, DropMissing(k, p))); PcOf(After(s1, mid), t) == PcOf(s1, t)
    ensures var s2 := After(Step(s, Compaction(t, DropMissing(k, p))), mid);
            (k, p) !in Step(s2, Compaction(t, CommitCompact)).index
  {
    hide Step;
    DropMissingIs(s, t, k, p);
    CommitIs(After(Step(s, Compaction(t, DropMissing(k, p))), mid), t);
  }

  lemma {:induction false} LastOperandPurges(rows: map<Key, ValueMessage>, batch: seq<Storage.Staged>, k: Key, p: Path)
    requires k in rows && RefersRaw(rows[k], p) && p != ""
    requires (forall i :: 0 <= i < |batch| ==> IsMigration(batch[i].op) || IsPurge(batch[i].op)) && !Clears(batch, k, p)
    ensures var after := ApplyBatch(rows, batch + [Storage.Staged(k, PurgeOf(p))]); k in after && RefLess(after[k], 0)
  {
    ApplyAppend(rows, batch, Storage.Staged(k, PurgeOf(p)));
    StaleOperandsDoNothing(rows, batch, k);
    assert Fold(Some(rows[k]), [PurgeOf(p)]) == Resolve(Some(rows[k]), PurgeOf(p));
  }

  lemma DropCorruptIs(s: State, t: Tid)
    requires PcOf(s, t).Compacting? && PcOf(s, t).loaded.Some? && PcOf(s, t).loaded.value.op.rawFilePath in s.damaged
    ensures var pc, s' := PcOf(s, t), Step(s, Compaction(t, DropCorrupt));
            var k, p := pc.loaded.value.key, pc.loaded.value.op.rawFilePath;
            && PcOf(s', t).Compacting? && p in PcOf(s', t).sources && (k, p) in PcOf(s', t).drop
            && (k in s.rows ==> PcOf(s', t).merges == pc.merges + [Storage.Staged(k, PurgeOf(p))])
  {
  }

  /** A damaged file: when the batch commits with the row still on it, the key reads as deleted
      without a fence, and the file is queued. */
  lemma {:induction false} DamageIsPurged(run: seq<Action>, mid: seq<Action>, t: Tid)
    requires var s := After(INIT, run); var pc := PcOf(s, t);
             pc.Compacting? && pc.loaded.Some? && pc.loaded.value.op.rawFilePath in s.damaged
    requires var s := After(INIT, run); var pc := PcOf(s, t);
             var k, p := pc.loaded.value.key, pc.loaded.value.op.rawFilePath;
             var s1 := Step(s, Compaction(t, DropCorrupt));
             && k in s.rows && !Clears(pc.merges, k, p) && PcOf(After(s1, mid), t) == PcOf(s1, t)
             && k in After(s1, mid).rows && RefersRaw(After(s1, mid).rows[k], p)
    ensures var s := After(INIT, run); var pc := PcOf(s, t);
            var k, p := pc.loaded.value.key, pc.loaded.value.op.rawFilePath;
            var s2 := Step(After(Step(s, Compaction(t, DropCorrupt)), mid), Compaction(t, CommitCompact));
            && k in s2.rows && RefLess(s2.rows[k], 0) && (k, p) !in s2.index
            && Reclaimed(Step(s2, Compaction(t, QueueSource(p, true))), p)
  {
    hide Inv, Step, Reclaimed, ApplyBatch, PurgeOf, RefLess;
    var s := After(INIT, run);
    var pc := PcOf(s, t);
    var k, p := pc.loaded.value.key, pc.loaded.value.op.rawFilePath;
    RunKeepsInv(run);
    DropCorruptIs(s, t);
    var s1 := Step(s, Compaction(t, DropCorrupt));
    StepKeepsInv(s, Compaction(t, DropCorrupt));
    RunFromKeepsInv(s1, mid);
    CompactorKnows(After(s1, mid), t, k, p);
    MergesAreConditional(s, t);
    CommitIs(After(s1, mid), t);
    LastOperandPurges(After(s1, mid).rows, pc.merges, k, p);
    StepKeepsInv(After(s1, mid), Compaction(t, CommitCompact));
    SourceIsQueued(Step(After(s1, mid), Compaction(t, CommitCompact)), t, p);
  }

  lemma MergesAreConditional(s: State, t: Tid)
    requires Inv(s) && PcOf(s, t).Compacting?
    ensures forall i :: 0 <= i < |PcOf(s, t).merges| ==> IsMigration(PcOf(s, t).merges[i].op) || IsPurge(PcOf(s, t).merges[i].op)
  {
    assert PcOk(s, t);
  }

  // ---- Entries move out of fragmented segments ----

  lemma CopyLiveIs(s: State, t: Tid, offset: int, at: int)
    requires PcOf(s, t).Recompacting? && PcOf(s, t).found.None? && offset in PcOf(s, t).todo
    requires var pc := PcOf(s, t);
             pc.src in s.segs && offset in s.segs[pc.src].entries && pc.dst in s.segs && at !in s.segs[pc.dst].entries &&
             PointsAt(s, pc.src, offset)
    ensures var pc := PcOf(s, t);
            var k := s.segs[pc.src].entries[offset].key;
            var s' := Step(Step(s, Recompaction(t, Visit(offset))), Recompaction(t, CopyLive(at)));
            && PcOf(s', t).Recompacting? && PcOf(s', t).todo == pc.todo - {offset} && PcOf(s', t).failed == pc.failed
            && PcOf(s', t).src == pc.src && PcOf(s', t).dst == pc.dst
            && PcOf(s', t).batch == pc.batch + [Storage.Staged(k, MigrationOf(s.rows[k], pc.src, pc.dst, at))]
  {
    var pc := PcOf(s, t);
    var k := s.segs[pc.src].entries[offset].key;
    assert Step(s, Recompaction(t, Visit(offset))) == Go(s, t, pc.(found := Some((offset, s.rows[k]))));
  }

  lemma RecompactorKnows(s: State, t: Tid)
    requires Inv(s) && PcOf(s, t).Recompacting?
    ensures var pc := PcOf(s, t);
            && pc.src != "" && pc.src in s.segs && pc.dst in s.segs
            && (forall i :: 0 <= i < |pc.batch| ==> IsMigration(pc.batch[i].op) || IsPurge(pc.batch[i].op))
            && (forall k :: k in s.rows ==> StoredForm(s.rows[k]))
  {
    assert PcOk(s, t);
    forall k | k in s.rows ensures StoredForm(s.rows[k]) {
      assert RowOk(s, k, s.rows[k]);
    }
  }

  lemma CommitRecompactIs(s: State, t: Tid)
    requires PcOf(s, t).Recompacting? && PcOf(s, t).dst in s.segs && (PcOf(s, t).todo == {} || PcOf(s, t).failed)
    ensures Step(s, Recompaction(t, CommitRecompact)).rows == ApplyBatch(s.rows, PcOf(s, t).batch)
  {
  }

  /** A live entry moves: if its row is still the one that was found when the pass commits, the row
      then leads to the copy in the destination. */
  lemma {:induction false} RecompactionMoves(run: seq<Action>, mid: seq<Action>, t: Tid, offset: int, at: int)
    requires var s := After(INIT, run); var pc := PcOf(s, t);
             && pc.Recompacting? && pc.found.None? && offset in pc.todo && (pc.todo == {offset} || pc.failed)
             && pc.src in s.segs && offset in s.segs[pc.src].entries && pc.dst in s.segs && at !in s.segs[pc.dst].entries
             && PointsAt(s, pc.src, offset) && !Clears(pc.batch, s.segs[pc.src].entries[offset].key, pc.src)
    requires var s := After(INIT, run); var k := s.segs[PcOf(s, t).src].entries[offset].key;
             var s2 := Step(Step(s, Recompaction(t, Visit(offset))), Recompaction(t, CopyLive(at)));
             PcOf(After(s2, mid), t) == PcOf(s2, t) && k in After(s2, mid).rows && After(s2, mid).rows[k] == s.rows[k]
    ensures var s := After(INIT, run); var k := s.segs[PcOf(s, t).src].entries[offset].key;
            var s2 := Step(Step(s, Recompaction(t, Visit(offset))), Recompaction(t, CopyLive(at)));
            var s3 := Step(After(s2, mid), Recompaction(t, CommitRecompact));
            k in s3.rows && MovedTo(s.rows[k], s3.rows[k], PcOf(s, t).dst, at)
  {
    hide Inv, Step, MovedTo, ApplyBatch, MigrationOf;
    var s := After(INIT, run);
    var pc := PcOf(s, t);
    RunKeepsInv(run);
    RecompactorKnows(s, t);
    CopyLiveIs(s, t, offset, at);
    StepKeepsInv(s, Recompaction(t, Visit(offset)));
    StepKeepsInv(Step(s, Recompaction(t, Visit(offset))), Recompaction(t, CopyLive(at)));
    var s2 := Step(Step(s, Recompaction(t, Visit(offset))), Recompaction(t, CopyLive(at)));
    RunFromKeepsInv(s2, mid);
    RecompactorKnows(After(s2, mid), t);
    CommitRecompactIs(After(s2, mid), t);
    LastOperandMoves(After(s2, mid).rows, pc.batch, s.segs[pc.src].entries[offset].key, pc.src, pc.dst, at);
  }

  lemma GiveUpIs(s: State, t: Tid)
    requires PcOf(s, t).Recompacting?
    ensures PcOf(Step(s, Recompaction(t, GiveUp)), t).Recompacting? && PcOf(Step(s, Recompaction(t, GiveUp)), t).failed
    ensures PcOf(Step(s, Recompaction(t, GiveUp)), t).batch == PcOf(s, t).batch
  {
  }

  lemma FailedCommitIs(s: State, t: Tid)
    requires PcOf(s, t).Recompacting? && PcOf(s, t).dst in s.segs && PcOf(s, t).failed
    ensures var s' := Step(s, Recompaction(t, CommitRecompact));
            PcOf(s', t).Idle? && s'.queued == s.queued && s'.rows == ApplyBatch(s.rows, PcOf(s, t).batch)
  {
  }

  /** A pass that gave up on an entry publishes what it has copied and ends without retiring its
      segment. */
  lemma {:induction false} FailedPassKeepsSource(run: seq<Action>, mid: seq<Action>, t: Tid)
    requires PcOf(After(INIT, run), t).Recompacting?
    requires var s1 := Step(After(INIT, run), Recompaction(t, GiveUp)); PcOf(After(s1, mid), t) == PcOf(s1, t)
    ensures var s2 := After(Step(After(INIT, run), Recompaction(t, GiveUp)), mid);
            var s3 := Step(s2, Recompaction(t, CommitRecompact));
            && PcOf(s3, t).Idle? && s3.queued == s2.queued
            && s3.rows == ApplyBatch(s2.rows, PcOf(After(INIT, run), t).batch)
  {
    hide Inv, Step, ApplyBatch;
    var s := After(INIT, run);
    RunKeepsInv(run);
    GiveUpIs(s, t);
    StepKeepsInv(s, Recompaction(t, GiveUp));
    var s1 := Step(s, Recompaction(t, GiveUp));
    RunFromKeepsInv(s1, mid);
    RecompactorKnows(After(s1, mid), t);
    FailedCommitIs(After(s1, mid), t);
  }

  /** Open and nobody's. */
  predicate Free(s: State, g: Path) {
    g in s.segs && !s.segs[g].closed && s.segs[g].holder.None?
  }

  /** A compactor that stops or commits leaves its segment for the next to fill, and a crash leaves
      every open one. */
  lemma {:induction false} SegmentIsFreed(run: seq<Action>, t: Tid, g: Path)
    ensures var s := After(INIT, run);
            && (PcOf(s, t).Compacting? && PcOf(s, t).flush == {} ==> Free(Step(s, Compaction(t, StopCompact)), PcOf(s, t).out))
            && (PcOf(s, t).Recompacting? ==> Free(Step(s, Recompaction(t, AbortRecompact)), PcOf(s, t).dst))
            && (PcOf(s, t).Recompacting? && (PcOf(s, t).todo == {} || PcOf(s, t).failed) ==>
                  Free(Step(s, Recompaction(t, CommitRecompact)), PcOf(s, t).dst))
            && (g in s.segs && !s.segs[g].closed ==> Free(Step(s, Environment(Crash)), g))
  {
    hide RowsOk, StoreOk, OneRecompactor, CompactStep, RecompactStep, Free;
    var s := After(INIT, run);
    RunKeepsInv(run);
    assert PcOk(s, t);
    if PcOf(s, t).Compacting? && PcOf(s, t).flush == {} {
      CompactorFrees(s, t);
    }
    if PcOf(s, t).Recompacting? {
      RecompactorFrees(s, t);
    }
    CrashFrees(s, g);
  }

  lemma CrashFrees(s: State, g: Path)
    ensures g in s.segs && !s.segs[g].closed ==> Free(Step(s, Environment(Crash)), g)
  {
  }

  lemma CompactorFrees(s: State, t: Tid)
    requires PcOk(s, t) && PcOf(s, t).Compacting? && PcOf(s, t).flush == {}
    ensures Free(Step(s, Compaction(t, StopCompact)), PcOf(s, t).out)
  {
    hide CompactBatchOk, SourcesOk, AllDead, LoadedOk;
  }

  lemma RecompactorFrees(s: State, t: Tid)
    requires PcOk(s, t) && PcOf(s, t).Recompacting?
    ensures Free(Step(s, Recompaction(t, AbortRecompact)), PcOf(s, t).dst)
    ensures PcOf(s, t).todo == {} || PcOf(s, t).failed ==> Free(Step(s, Recompaction(t, CommitRecompact)), PcOf(s, t).dst)
  {
    hide RecompactBatchOk, FoundOk, Covered, ApplyBatch;
  }

  // ---- Full segments stay as they are ----

  predicate Frozen(s: State, g: Path, entries: map<int, Entry>) {
    g in s.segs && s.segs[g].closed && s.segs[g].entries == entries
  }

  lemma CompactStaysFrozen(s: State, t: Tid, a: CompactAction, g: Path, entries: map<int, Entry>)
    requires PcOk(s, t) && Frozen(s, g, entries)
    ensures Frozen(CompactStep(s, t, a), g, entries)
  {
    hide ApplyBatch, CompactBatchOk, SourcesOk, AllDead, LoadedOk, RefersRaw, MigrationOf, PurgeOf;
  }

  lemma RecompactStaysFrozen(s: State, t: Tid, a: RecompactAction, g: Path, entries: map<int, Entry>)
    requires PcOk(s, t) && Frozen(s, g, entries)
    ensures Frozen(RecompactStep(s, t, a), g, entries)
  {
    hide ApplyBatch, RecompactBatchOk, FoundOk, Covered, PointsAt, MigrationOf;
  }

  lemma PutLeavesSegs(s: State, t: Tid, a: PutAction)
    ensures PutStep(s, t, a).segs == s.segs
  {
  }

  lemma DeleteLeavesSegs(s: State, t: Tid, a: DeleteAction)
    ensures DeleteStep(s, t, a).segs == s.segs
  {
  }

  lemma CasLeavesSegs(s: State, t: Tid, a: CasAction)
    ensures CasStep(s, t, a).segs == s.segs
  {
    hide Preparable, Proceeds, Translate, Classify, MergeRow, Reports, Admits, RawPaths, Lookup, DeleteOperand;
  }

  lemma EnvironmentStaysFrozen(s: State, a: EnvironmentAction, g: Path, entries: map<int, Entry>)
    requires Frozen(s, g, entries)
    ensures Frozen(EnvironmentStep(s, a), g, entries)
  {
  }

  lemma StepStaysFrozen(s: State, a: Action, g: Path, entries: map<int, Entry>)
    requires Inv(s) && Frozen(s, g, entries)
    ensures Frozen(Step(s, a), g, entries)
  {
    hide PcOk, RowsOk, StoreOk, OneRecompactor, PutStep, DeleteStep, CasStep, CompactStep, RecompactStep, EnvironmentStep;
    match a
    case Putting(t, put) => PutLeavesSegs(s, t, put);
    case Removing(t, remove) => DeleteLeavesSegs(s, t, remove);
    case Swapping(t, cas) => CasLeavesSegs(s, t, cas);
    case Queueing(t, queue) =>
    case Compaction(t, compact) =>
      assert PcOk(s, t);
      CompactStaysFrozen(s, t, compact, g, entries);
    case Recompaction(t, recompact) =>
      assert PcOk(s, t);
      RecompactStaysFrozen(s, t, recompact, g, entries);
    case Environment(env) => EnvironmentStaysFrozen(s, env, g, entries);
  }

  lemma {:induction false} RunStaysFrozen(s: State, more: seq<Action>, g: Path, entries: map<int, Entry>)
    requires Inv(s) && Frozen(s, g, entries)
    ensures Inv(After(s, more)) && Frozen(After(s, more), g, entries)
  {
    hide Inv, Step, Frozen;
    if more != [] {
      RunStaysFrozen(s, more[..|more| - 1], g, entries);
      StepKeepsInv(After(s, more[..|more| - 1]), more[|more| - 1]);
      StepStaysFrozen(After(s, more[..|more| - 1]), more[|more| - 1], g, entries);
    }
  }

  lemma RollCloses(s: State, t: Tid, dst: Path)
    requires PcOf(s, t).Compacting? || PcOf(s, t).Recompacting?
    ensures var pc, a := PcOf(s, t), if PcOf(s, t).Compacting? then Compaction(t, RollCompact(dst)) else Recompaction(t, RollDestination(dst));
            var full := if pc.Compacting? then pc.out else pc.dst;
            Step(s, a) != s ==> full in s.segs && Frozen(Step(s, a), full, s.segs[full].entries)
  {
  }

  /** A segment either compactor leaves as full keeps exactly its entries, over every later run. */
  lemma RolledSegmentStays(run: seq<Action>, more: seq<Action>, t: Tid, dst: Path)
    requires PcOf(After(INIT, run), t).Compacting? || PcOf(After(INIT, run), t).Recompacting?
    requires var s := After(INIT, run);
             Step(s, if PcOf(s, t).Compacting? then Compaction(t, RollCompact(dst)) else Recompaction(t, RollDestination(dst))) != s
    ensures var s := After(INIT, run);
            var a := if PcOf(s, t).Compacting? then Compaction(t, RollCompact(dst)) else Recompaction(t, RollDestination(dst));
            var full := if PcOf(s, t).Compacting? then PcOf(s, t).out else PcOf(s, t).dst;
            full in s.segs && Frozen(After(Step(s, a), more), full, s.segs[full].entries)
  {
    hide Inv, Step, Frozen;
    var s := After(INIT, run);
    var a := if PcOf(s, t).Compacting? then Compaction(t, RollCompact(dst)) else Recompaction(t, RollDestination(dst));
    RunKeepsInv(run);
    RollCloses(s, t, dst);
    StepKeepsInv(s, a);
    RunStaysFrozen(Step(s, a), more, if PcOf(s, t).Compacting? then PcOf(s, t).out else PcOf(s, t).dst,
                   s.segs[if PcOf(s, t).Compacting? then PcOf(s, t).out else PcOf(s, t).dst].entries);
  }
}
