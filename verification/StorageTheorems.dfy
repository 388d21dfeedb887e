/** What the invariant is for: the promises of the storage layer over every run. */
module StorageTheorems {
  import opened Rows
  import opened Merge
  import opened Storage
  import opened StorageInvariant
  import opened StorageWriters
  import opened StorageBatches
  import opened StorageMigration
  import opened StorageSafety

  // ---- Nothing references what is being deleted ----

  predicate Refers(vm: ValueMessage, p: Path) {
    RefersRaw(vm, p) || RefersSegment(vm, p)
  }

  /** In every reachable state no row references a path that was ever queued for deletion. */
  lemma {:induction false} NoRowOnAQueuedPath(run: seq<Action>, k: Key, p: Path)
    requires k in After(INIT, run).rows && Refers(After(INIT, run).rows[k], p)
    ensures p !in After(INIT, run).queued && p !in After(INIT, run).gone
  {
    RunKeepsInv(run);
    var s := After(INIT, run);
    assert RowOk(s, k, s.rows[k]);
  }

  lemma {:induction false} AfterAppend(s: State, run: seq<Action>, more: seq<Action>)
    ensures After(s, run + more) == After(After(s, run), more)
  {
    if more == [] {
      assert run + more == run;
    } else {
      assert (run + more)[..|run + more| - 1] == run + more[..|more| - 1];
      AfterAppend(s, run, more[..|more| - 1]);
    }
  }

  /** Files and segment entries are never rewritten, and the queue forgets nothing. */
  ghost predicate Persists(s: State, s': State) {
    && (forall p :: p in s.born ==> p in s'.born && s'.born[p] == s.born[p])
    && (forall g :: g in s.segs ==> g in s'.segs && EntriesPersist(s.segs[g], s'.segs[g]))
    && s.queued <= s'.queued && s.damaged <= s'.damaged
  }

  ghost predicate EntriesPersist(a: Seg, b: Seg) {
    forall o :: o in a.entries ==> o in b.entries && b.entries[o] == a.entries[o]
  }

  lemma GrowthPersists(s: State, s': State, t: Tid)
    requires Grows(s, s', t)
    ensures Persists(s, s')
  {
  }

  lemma StepPersists(s: State, a: Action)
    requires Inv(s)
    ensures Persists(s, Step(s, a))
  {
    hide PcOk, RowsOk, StoreOk, OneRecompactor, RowChange, Persists, PutStep, DeleteStep, CasStep, QueueStep, CompactStep, RecompactStep;
    if !a.Environment? {
      assert PcOk(s, a.t);
      StepCarries(s, a);
      if Step(s, a) != s {
        GrowthPersists(s, Step(s, a), a.t);
      } else {
        NothingPersists(s, s);
      }
    } else if !a.env.Crash? {
      QuietSound(s, a.env, 0);
      GrowthPersists(s, Step(s, a), 0);
    } else {
      NothingPersists(s, Step(s, a));
    }
  }

  lemma NothingPersists(s: State, s': State)
    requires s' == s || s' == EnvironmentStep(s, Crash)
    ensures Persists(s, s')
  {
  }

  lemma {:induction false} RunPersists(s: State, more: seq<Action>)
    requires Inv(s)
    ensures Inv(After(s, more)) && Persists(s, After(s, more))
  {
    if more != [] {
      var s1 := After(s, more[..|more| - 1]);
      RunPersists(s, more[..|more| - 1]);
      StepKeepsInv(s1, more[|more| - 1]);
      StepPersists(s1, more[|more| - 1]);
      PersistsChain(s, s1, After(s, more));
    }
  }

  lemma PersistsChain(s: State, s1: State, s2: State)
    requires Persists(s, s1) && Persists(s1, s2)
    ensures Persists(s, s2)
  {
  }

  /** Nothing in flight can install such a reference later: whatever happens after
      a path was queued, no row references it. */
  lemma {:induction false} QueuedPathStaysUnreferenced(run: seq<Action>, more: seq<Action>, k: Key, p: Path)
    requires p in After(INIT, run).queued && k in After(INIT, run + more).rows
    ensures !Refers(After(INIT, run + more).rows[k], p)
  {
    AfterAppend(INIT, run, more);
    RunKeepsInv(run);
    RunPersists(After(INIT, run), more);
    if Refers(After(INIT, run + more).rows[k], p) {
      NoRowOnAQueuedPath(run + more, k, p);
    }
  }

  /** Every row leads to a file or segment entry that is still there and is its own key's; its
      bytes have the length the row claims, unless the file was damaged. */
  lemma {:induction false} EveryRowReads(run: seq<Action>, k: Key)
    requires k in After(INIT, run).rows && !IsTombstone(After(INIT, run).rows[k])
    ensures var s := After(INIT, run); var vm := s.rows[k];
            && (vm.valueType == Inline ==> vm.valueLength == |vm.data|)
            && (vm.valueType == RawFile ==>
                  && vm.rawFilePath in s.born && vm.rawFilePath !in s.gone && s.born[vm.rawFilePath].key == k
                  && (vm.rawFilePath in s.damaged || vm.valueLength == |s.born[vm.rawFilePath].bytes|))
            && (vm.valueType == Segment ==>
                  && vm.segmentPath in s.segs && vm.segmentPath !in s.gone && vm.segmentOffset in s.segs[vm.segmentPath].entries
                  && s.segs[vm.segmentPath].entries[vm.segmentOffset].key == k
                  && vm.valueLength == |s.segs[vm.segmentPath].entries[vm.segmentOffset].bytes|)
  {
    RunKeepsInv(run);
    assert RowOk(After(INIT, run), k, After(INIT, run).rows[k]);
  }

  // ---- Conditional writes ----

  /** The merge of `t`'s operand was run here, was admitted, and made the operand the row. */
  ghost predicate AdmittedHere(s: State, a: Action, t: Tid, k: Key, op: ValueMessage) {
    && a == Swapping(t, MergeCas)
    && PcOf(s, t).CasStaged? && PcOf(s, t).key == k && PcOf(s, t).op == op
    && Admits(Lookup(s.rows, k), op)
    && Step(s, a).rows == s.rows[k := if op.opType == CasPut then Adopt(op) else Tombstone(op.version)]
  }

  lemma OwnMerge(s: State, t: Tid, a: CasAction)
    requires PcOk(s, t) && PcOf(CasStep(s, t, a), t).CasMerged? && PcOf(CasStep(s, t, a), t).admitted
    ensures PcOf(s, t) == PcOf(CasStep(s, t, a), t) ||
            AdmittedHere(s, Swapping(t, a), t, PcOf(CasStep(s, t, a), t).key, PcOf(CasStep(s, t, a), t).op)
  {
    var pc := PcOf(s, t);
    if pc != PcOf(CasStep(s, t, a), t) {
      assert a.MergeCas? && pc.CasStaged?;
      var base := Lookup(s.rows, pc.key);
      assert Fold(base, [pc.op]) == Resolve(base, pc.op);
    }
  }

  /** In the middle of a conditional operation. */
  predicate InCas(pc: Pc) {
    pc.TokenWanted? || pc.TokenRead? || pc.CasChecked? || pc.CasWritten? || pc.CasStaged? || pc.CasMerged?
  }

  lemma PutLeavesCas(s: State, t: Tid, a: PutAction)
    ensures PutStep(s, t, a).lastStamp == s.lastStamp
    ensures InCas(PcOf(PutStep(s, t, a), t)) ==> PcOf(PutStep(s, t, a), t) == PcOf(s, t)
  {
  }

  lemma DeleteLeavesCas(s: State, t: Tid, a: DeleteAction)
    ensures DeleteStep(s, t, a).lastStamp == s.lastStamp
    ensures InCas(PcOf(DeleteStep(s, t, a), t)) ==> PcOf(DeleteStep(s, t, a), t) == PcOf(s, t)
  {
  }

  lemma QueueLeavesCas(s: State, t: Tid, a: QueueAction)
    ensures QueueStep(s, t, a).lastStamp == s.lastStamp
    ensures InCas(PcOf(QueueStep(s, t, a), t)) ==> PcOf(QueueStep(s, t, a), t) == PcOf(s, t)
  {
  }

  /** A compactor that is not running does nothing but start. */
  lemma CompactorRuns(s: State, t: Tid, a: CompactAction)
    requires !PcOf(s, t).Compacting? && CompactStep(s, t, a) != s
    ensures PcOf(s, t).Idle? && PcOf(CompactStep(s, t, a), t).Compacting? && CompactStep(s, t, a).lastStamp == s.lastStamp
  {
  }

  /** One that is running goes on or stops. */
  lemma CompactorStays(s: State, t: Tid, a: CompactAction)
    requires PcOf(s, t).Compacting?
    ensures !InCas(PcOf(CompactStep(s, t, a), t)) && CompactStep(s, t, a).lastStamp == s.lastStamp
  {
    hide ApplyBatch, Acquirable, RefersRaw, Lookup, MigrationOf, PurgeOf, InCas;
    var pc' := PcOf(CompactStep(s, t, a), t);
    assert pc'.Compacting? || pc'.Idle?;
    NotInCas(pc');
  }

  lemma NotInCas(pc: Pc)
    requires pc.Compacting? || pc.Idle?
    ensures !InCas(pc)
  {
  }

  lemma CompactorLeavesCas(s: State, t: Tid, a: CompactAction)
    ensures CompactStep(s, t, a).lastStamp == s.lastStamp
    ensures InCas(PcOf(CompactStep(s, t, a), t)) ==> PcOf(CompactStep(s, t, a), t) == PcOf(s, t)
  {
    hide CompactStep;
    if PcOf(s, t).Compacting? {
      CompactorStays(s, t, a);
    } else if CompactStep(s, t, a) != s {
      CompactorRuns(s, t, a);
    }
  }

  lemma RecompactorLeavesCas(s: State, t: Tid, a: RecompactAction)
    ensures RecompactStep(s, t, a).lastStamp == s.lastStamp
    ensures InCas(PcOf(RecompactStep(s, t, a), t)) ==> PcOf(RecompactStep(s, t, a), t) == PcOf(s, t)
  {
  }

  /** Only its own steps take a thread into and through a conditional operation. */
  lemma OwnStep(s: State, a: Action)
    requires !a.Environment? && !a.Swapping? && InCas(PcOf(Step(s, a), a.t))
    ensures PcOf(Step(s, a), a.t) == PcOf(s, a.t) && Step(s, a).lastStamp == s.lastStamp
  {
    hide PutStep, DeleteStep, QueueStep, CompactStep, RecompactStep;
    match a
    case Putting(t, put) => PutLeavesCas(s, t, put);
    case Removing(t, remove) => DeleteLeavesCas(s, t, remove);
    case Queueing(t, queue) => QueueLeavesCas(s, t, queue);
    case Compaction(t, compact) => CompactorLeavesCas(s, t, compact);
    case Recompaction(t, recompact) => RecompactorLeavesCas(s, t, recompact);
  }

  lemma OthersStay(s: State, a: Action, t: Tid)
    requires Inv(s) && (a.Environment? || a.t != t)
    ensures PcOf(Step(s, a), t) == PcOf(s, t) || PcOf(Step(s, a), t).Idle?
  {
    hide PcOk, RowsOk, StoreOk, OneRecompactor, Grows, RowChange, PutStep, DeleteStep, CasStep, QueueStep, CompactStep, RecompactStep;
    if !a.Environment? {
      assert PcOk(s, a.t);
      StepCarries(s, a);
    }
  }

  lemma MergedBefore(s: State, a: Action, t: Tid)
    requires Inv(s) && PcOf(Step(s, a), t).CasMerged? && PcOf(Step(s, a), t).admitted
    ensures PcOf(s, t) == PcOf(Step(s, a), t) ||
            AdmittedHere(s, a, t, PcOf(Step(s, a), t).key, PcOf(Step(s, a), t).op)
  {
    if a.Environment? || a.t != t {
      OthersStay(s, a, t);
    } else if a.Swapping? {
      assert PcOk(s, t);
      OwnMerge(s, t, a.cas);
    } else {
      OwnStep(s, a);
    }
  }

  lemma {:induction false} AdmittedSomewhere(run: seq<Action>, t: Tid) returns (i: nat)
    requires PcOf(After(INIT, run), t).CasMerged? && PcOf(After(INIT, run), t).admitted
    ensures i < |run|
    ensures var pc := PcOf(After(INIT, run), t); AdmittedHere(After(INIT, run[..i]), run[i], t, pc.key, pc.op)
  {
    var init := run[..|run| - 1];
    var s, a := After(INIT, init), run[|run| - 1];
    RunKeepsInv(init);
    MergedBefore(s, a, t);
    if PcOf(s, t) == PcOf(After(INIT, run), t) {
      i := AdmittedSomewhere(init, t);
      assert init[..i] == run[..i];
    } else {
      i := |run| - 1;
    }
  }

  /** A conditional write that reads back its own stamp really was admitted at its
      merge, whatever other writers and migrations did in between. */
  lemma ReportedSuccessWasAdmitted(run: seq<Action>, t: Tid) returns (i: nat)
    requires PcOf(After(INIT, run), t).CasMerged?
    requires var pc := PcOf(After(INIT, run), t); Reports(After(INIT, run), pc.key, pc.op)
    ensures i < |run|
    ensures var pc := PcOf(After(INIT, run), t); AdmittedHere(After(INIT, run[..i]), run[i], t, pc.key, pc.op)
  {
    RunKeepsInv(run);
    assert PcOk(After(INIT, run), t);
    i := AdmittedSomewhere(run, t);
  }

  lemma StepKeepsDead(s: State, a: Action, p: Path)
    requires Inv(s) && Dead(s, p)
    ensures Dead(Step(s, a), p)
  {
    hide PcOk, RowsOk, StoreOk, OneRecompactor, Dead, PutStep, DeleteStep, CasStep, QueueStep, CompactStep, RecompactStep;
    assert AllDead(s, {p});
    if !a.Environment? {
      assert PcOk(s, a.t);
      StepCarries(s, a);
      if Step(s, a) != s {
        AllDeadPersists(s, Step(s, a), a.t, {p});
      }
    } else if !a.env.Crash? {
      QuietSound(s, a.env, 0);
      AllDeadPersists(s, Step(s, a), 0, {p});
    } else {
      CrashKeepsDead(s, p);
    }
  }

  lemma CrashKeepsDead(s: State, p: Path)
    requires Dead(s, p)
    ensures Dead(EnvironmentStep(s, Crash), p)
  {
  }

  lemma {:induction false} RunKeepsDead(s: State, more: seq<Action>, p: Path)
    requires Inv(s) && Dead(s, p)
    ensures Inv(After(s, more)) && Dead(After(s, more), p)
  {
    hide Inv, Dead, Step;
    if more != [] {
      RunKeepsDead(s, more[..|more| - 1], p);
      StepKeepsInv(After(s, more[..|more| - 1]), more[|more| - 1]);
      StepKeepsDead(After(s, more[..|more| - 1]), more[|more| - 1], p);
    }
  }

  lemma DeadIsUnreferenced(s: State, p: Path)
    requires Inv(s) && Dead(s, p)
    ensures forall k :: k in s.rows ==> !Refers(s.rows[k], p)
  {
    forall k | k in s.rows ensures !Refers(s.rows[k], p) {
      assert RowOk(s, k, s.rows[k]);
    }
  }

  /** One that reads back another stamp queues a spill file that no row references, then or
      ever after. */
  lemma {:induction false} LostSpillIsUnreferenced(run: seq<Action>, more: seq<Action>, t: Tid, p: Path)
    requires PcOf(After(INIT, run), t).CasMerged?
    requires var pc := PcOf(After(INIT, run), t); !Reports(After(INIT, run), pc.key, pc.op) && p in RawPaths(Some(pc.op))
    ensures forall k :: k in After(INIT, run + more).rows ==> !Refers(After(INIT, run + more).rows[k], p)
  {
    RunKeepsInv(run);
    var s := After(INIT, run);
    var pc := PcOf(s, t);
    assert PcOk(s, t);
    LostSpillIsDead(s, t, pc.key, pc.op, pc.prev, pc.admitted);
    RunKeepsDead(s, more, p);
    AfterAppend(INIT, run, more);
    DeadIsUnreferenced(After(s, more), p);
  }

  // ---- What a key reads as ----

  datatype Reading = Reading(bytes: Bytes, expiry: int, version: nat)

  /** Bytes, expiry and version reached through the key's row; no row reads like an unstamped tombstone. */
  ghost function Meaning(s: State, k: Key): Reading {
    if k in s.rows then Reading(BytesOf(s, s.rows[k]), s.rows[k].expiry, s.rows[k].version)
    else Reading([], TOMBSTONE_EXPIRY, 0)
  }

  /** The step that commits somebody's write of `k`. */
  predicate WritesKey(s: State, a: Action, k: Key) {
    match a
    case Putting(t, CommitPut(_)) => PcOf(s, t).PutStaged? && PcOf(s, t).key == k
    case Removing(t, CommitDelete) => PcOf(s, t).Deleting? && k in PcOf(s, t).victims
    case Swapping(t, MergeCas) => PcOf(s, t).CasStaged? && PcOf(s, t).key == k
    case _ => false
  }

  /** The row was on a raw file that got damaged, and the compactor dropped it. */
  ghost predicate Dropped(s: State, s': State, k: Key) {
    && k in s.rows && s.rows[k].valueType == RawFile && s.rows[k].rawFilePath in s'.damaged
    && k in s'.rows && s'.rows[k] == Tombstone(0)
  }

  /** The key reads the same, and its row is where it was or has moved into a segment. */
  ghost predicate Unmoved(s: State, s': State, k: Key) {
    && Meaning(s', k) == Meaning(s, k)
    && (if k in s.rows
        then k in s'.rows && (s'.rows[k] == s.rows[k] || s'.rows[k].valueType == Segment)
        else k in s'.rows ==> s'.rows[k] == Tombstone(0))
  }

  predicate SameRow(s: State, s': State, k: Key) {
    Lookup(s'.rows, k) == Lookup(s.rows, k)
  }

  lemma SameRowSameMeaning(s: State, s': State, k: Key)
    requires RowsOk(s) && Persists(s, s') && SameRow(s, s', k)
    ensures Unmoved(s, s', k)
  {
  }

  lemma {:induction false} BatchMeaning(s: State, s': State, batch: seq<Staged>, src: Path, dsts: set<Path>, k: Key)
    requires RowsOk(s) && Shape(s) && AllStaged(s, batch, src, dsts) && dsts !! s.queued && src !in dsts
    requires s'.rows == ApplyBatch(s.rows, batch) && Persists(s, s')
    ensures Unmoved(s, s', k) || Dropped(s, s', k)
  {
    BatchKeepsMeaning(s, batch, src, dsts);
    if k in s'.rows {
      assert BatchRow(s, dsts, k, s'.rows[k]);
      if k in s.rows {
        assert RowOk(s, k, s.rows[k]);
        BatchRowMeaning(s, s', dsts, k);
      }
    }
  }

  lemma BatchRowMeaning(s: State, s': State, dsts: set<Path>, k: Key)
    requires RowsOk(s) && Shape(s) && Persists(s, s') && k in s.rows && k in s'.rows && BatchRow(s, dsts, k, s'.rows[k])
    ensures Unmoved(s, s', k) || Dropped(s, s', k)
  {
  }

  // Which steps touch the rows at all.

  lemma PutTouches(s: State, t: Tid, a: PutAction, k: Key)
    requires !WritesKey(s, Putting(t, a), k)
    ensures SameRow(s, PutStep(s, t, a), k)
  {
  }

  lemma DeleteTouches(s: State, t: Tid, a: DeleteAction, k: Key)
    requires !WritesKey(s, Removing(t, a), k)
    ensures SameRow(s, DeleteStep(s, t, a), k)
  {
  }

  lemma CasTouches(s: State, t: Tid, a: CasAction, k: Key)
    requires !WritesKey(s, Swapping(t, a), k)
    ensures SameRow(s, CasStep(s, t, a), k)
  {
  }

  lemma CompactTouches(s: State, t: Tid, a: CompactAction, k: Key)
    requires !a.CommitCompact?
    ensures SameRow(s, CompactStep(s, t, a), k)
  {
  }

  lemma RecompactTouches(s: State, t: Tid, a: RecompactAction, k: Key)
    requires !a.CommitRecompact?
    ensures SameRow(s, RecompactStep(s, t, a), k)
  {
  }

  lemma CompactMeaning(s: State, t: Tid, k: Key)
    requires Base(s) && PcOk(s, t) && Persists(s, CompactStep(s, t, CommitCompact))
    ensures var s' := CompactStep(s, t, CommitCompact); Unmoved(s, s', k) || Dropped(s, s', k)
  {
    var pc, s' := PcOf(s, t), CompactStep(s, t, CommitCompact);
    if pc.Compacting? {
      assert AllStaged(s, pc.merges, "", {pc.out});
      BatchMeaning(s, s', pc.merges, "", {pc.out}, k);
    } else {
      SameRowSameMeaning(s, s', k);
    }
  }

  lemma RecompactMeaning(s: State, t: Tid, k: Key)
    requires Base(s) && PcOk(s, t) && Persists(s, RecompactStep(s, t, CommitRecompact))
    ensures var s' := RecompactStep(s, t, CommitRecompact); Unmoved(s, s', k) || Dropped(s, s', k)
  {
    var pc, s' := PcOf(s, t), RecompactStep(s, t, CommitRecompact);
    if s' != s {
      assert AllStaged(s, pc.batch, pc.src, pc.dsts);
      BatchMeaning(s, s', pc.batch, pc.src, pc.dsts, k);
    } else {
      SameRowSameMeaning(s, s', k);
    }
  }

  lemma PurgeMeaning(s: State, k0: Key, p: Path, k: Key)
    requires Base(s) && Persists(s, EnvironmentStep(s, Purge(k0, p)))
    ensures Unmoved(s, EnvironmentStep(s, Purge(k0, p)), k)
  {
    var s' := EnvironmentStep(s, Purge(k0, p));
    var base := Lookup(s.rows, k0);
    assert Fold(base, [PurgeOf(p)]) == Resolve(base, PurgeOf(p));
    assert k0 in s.rows ==> RowOk(s, k0, s.rows[k0]);
    if k != k0 || k in s.rows {
      SameRowSameMeaning(s, s', k);
    }
  }

  lemma ThreadTouches(s: State, a: Action, k: Key)
    requires !a.Environment? && !WritesKey(s, a, k)
    requires !(a.Compaction? && a.compact.CommitCompact?) && !(a.Recompaction? && a.recompact.CommitRecompact?)
    ensures SameRow(s, Step(s, a), k)
  {
    match a
    case Putting(t, put) => PutTouches(s, t, put, k);
    case Removing(t, remove) => DeleteTouches(s, t, remove, k);
    case Swapping(t, cas) => CasTouches(s, t, cas, k);
    case Queueing(t, queue) =>
    case Compaction(t, compact) => CompactTouches(s, t, compact, k);
    case Recompaction(t, recompact) => RecompactTouches(s, t, recompact, k);
  }

  lemma ThreadMeaning(s: State, a: Action, k: Key)
    requires !a.Environment? && Base(s) && PcOk(s, a.t) && Persists(s, Step(s, a)) && !WritesKey(s, a, k)
    ensures Unmoved(s, Step(s, a), k) || Dropped(s, Step(s, a), k)
  {
    if a.Compaction? && a.compact.CommitCompact? {
      CompactMeaning(s, a.t, k);
    } else if a.Recompaction? && a.recompact.CommitRecompact? {
      RecompactMeaning(s, a.t, k);
    } else {
      ThreadTouches(s, a, k);
      SameRowSameMeaning(s, Step(s, a), k);
    }
  }

  /** No step but a write of `k` changes what `k` reads as, unless its file was damaged. */
  lemma StepMeaning(s: State, a: Action, k: Key)
    requires Inv(s) && !WritesKey(s, a, k)
    ensures Unmoved(s, Step(s, a), k) || Dropped(s, Step(s, a), k)
  {
    hide PcOk, StoreOk, OneRecompactor, Unmoved, Dropped, Persists, PutStep, DeleteStep, CasStep, QueueStep, CompactStep, RecompactStep;
    StepPersists(s, a);
    if !a.Environment? {
      assert PcOk(s, a.t);
      ThreadMeaning(s, a, k);
    } else if a.env.Purge? {
      PurgeMeaning(s, a.env.key, a.env.path, k);
    } else {
      SameRowSameMeaning(s, Step(s, a), k);
    }
  }

  /** No step of `more` commits a write of `k`. */
  predicate Undisturbed(s: State, more: seq<Action>, k: Key) {
    forall i :: 0 <= i < |more| ==> !WritesKey(After(s, more[..i]), more[i], k)
  }

  lemma MeaningChain(s: State, s1: State, s2: State, k: Key)
    requires Unmoved(s, s1, k) || Dropped(s, s1, k)
    requires Unmoved(s1, s2, k) || Dropped(s1, s2, k)
    requires s1.damaged <= s2.damaged && RowsOk(s2)
    ensures Unmoved(s, s2, k) || Dropped(s, s2, k)
  {
  }

  lemma OneMoreStep(s: State, s1: State, a: Action, k: Key)
    requires Inv(s1) && !WritesKey(s1, a, k) && (Unmoved(s, s1, k) || Dropped(s, s1, k))
    ensures Unmoved(s, Step(s1, a), k) || Dropped(s, Step(s1, a), k)
  {
    StepMeaning(s1, a, k);
    StepPersists(s1, a);
    StepKeepsInv(s1, a);
    MeaningChain(s, s1, Step(s1, a), k);
  }

  lemma {:induction false} UndisturbedMeaning(s: State, more: seq<Action>, k: Key)
    requires Inv(s) && Undisturbed(s, more, k)
    ensures Unmoved(s, After(s, more), k) || Dropped(s, After(s, more), k)
  {
    if more != [] {
      var init := more[..|more| - 1];
      forall i | 0 <= i < |init| ensures !WritesKey(After(s, init[..i]), init[i], k) {
        assert init[..i] == more[..i] && init[i] == more[i];
      }
      UndisturbedMeaning(s, init, k);
      RunPersists(s, init);
      OneMoreStep(s, After(s, init), more[|more| - 1], k);
    }
  }

  /** However long compaction, recompaction, the deletion queue, crashes and the
      writers of other keys run, a key nobody writes reads the same bytes, expiry and
      version, unless the raw file that held it was damaged. */
  lemma {:induction false} MeaningSurvives(run: seq<Action>, more: seq<Action>, k: Key)
    requires Undisturbed(After(INIT, run), more, k)
    ensures var s, s' := After(INIT, run), After(INIT, run + more);
            Meaning(s', k) == Meaning(s, k) || Dropped(s, s', k)
  {
    RunKeepsInv(run);
    AfterAppend(INIT, run, more);
    UndisturbedMeaning(After(INIT, run), more, k);
  }

  // ---- Writes and migrations take effect ----

  lemma CommitReads(s: State, t: Tid, k: Key, row: ValueMessage, bytes: Bytes, indexed: bool)
    requires PcOf(s, t).PutStaged? && PcOf(s, t).key == k && PcOf(s, t).row == row && row.valueType != Segment
    requires if row.valueType == RawFile then row.rawFilePath in s.born && s.born[row.rawFilePath].bytes == bytes else row.data == bytes
    ensures Meaning(PutStep(s, t, CommitPut(indexed)), k) == Reading(bytes, row.expiry, row.version)
  {
  }

  /** What a put was given is what the key reads as when it commits, whatever happened since it started. */
  lemma {:induction false} PutReadsBack(run: seq<Action>, more: seq<Action>, t: Tid, k: Key, row: ValueMessage, bytes: Bytes, indexed: bool)
    requires var s := After(INIT, run); PcOf(s, t).Idle? && Preparable(s, row, bytes) && row.version == 0
    requires var s2 := After(Step(After(INIT, run), Putting(t, StartPut(k, row, bytes))), more);
             PcOf(s2, t).PutStaged? && PcOf(s2, t).key == k && PcOf(s2, t).row == row
    ensures var s2 := After(Step(After(INIT, run), Putting(t, StartPut(k, row, bytes))), more);
            Meaning(Step(s2, Putting(t, CommitPut(indexed))), k) == Reading(bytes, row.expiry, 0)
  {
    hide Inv, Meaning;
    RunKeepsInv(run);
    var s, a := After(INIT, run), Putting(t, StartPut(k, row, bytes));
    StepKeepsInv(s, a);
    assert row.valueType == RawFile ==> Step(s, a).born[row.rawFilePath].bytes == bytes;
    RunPersists(Step(s, a), more);
    CommitReads(After(Step(s, a), more), t, k, row, bytes, indexed);
  }

  lemma CommitThenQueue(s: State, t: Tid, p: Path)
    requires PcOf(s, t).Compacting? && p in PcOf(s, t).sources
    ensures p in CompactStep(CompactStep(s, t, CommitCompact), t, QueueSource(p, true)).queued
  {
  }

  /** A file the compactor has staged is queued once its batch commits, and no row is on it then. */
  lemma {:induction false} CompactionReclaims(run: seq<Action>, t: Tid, p: Path)
    requires PcOf(After(INIT, run), t).Compacting? && p in PcOf(After(INIT, run), t).sources
    ensures var s := After(After(INIT, run), [Compaction(t, CommitCompact), Compaction(t, QueueSource(p, true))]);
            p in s.queued && forall k :: k in s.rows ==> !Refers(s.rows[k], p)
  {
    hide Inv, CompactStep;
    var s := After(INIT, run);
    var commit, queue := Compaction(t, CommitCompact), Compaction(t, QueueSource(p, true));
    AfterTwo(s, commit, queue);
    CommitThenQueue(s, t, p);
    RunKeepsInv(run);
    RunFromKeepsInv(s, [commit, queue]);
    QueuedIsUnreferenced(After(s, [commit, queue]), p);
  }

  lemma CommitThenRetire(s: State, t: Tid)
    requires PcOk(s, t) && PcOf(s, t).Recompacting? && PcOf(s, t).todo == {} && !PcOf(s, t).failed
    ensures PcOf(s, t).src in RecompactStep(RecompactStep(s, t, CommitRecompact), t, Retire).queued
  {
  }

  /** A segment whose every entry was visited without failure is retired, and no row is in it then. */
  lemma {:induction false} RecompactionRetires(run: seq<Action>, t: Tid)
    requires var pc := PcOf(After(INIT, run), t); pc.Recompacting? && pc.todo == {} && !pc.failed
    ensures var src := PcOf(After(INIT, run), t).src;
            var s := After(After(INIT, run), [Recompaction(t, CommitRecompact), Recompaction(t, Retire)]);
            src in s.queued && forall k :: k in s.rows ==> !Refers(s.rows[k], src)
  {
    hide After, PcOk, RowsOk, StoreOk, OneRecompactor, RecompactStep, Refers;
    var s := After(INIT, run);
    assert PcOk(s, t) by { RunKeepsInv(run); }
    var commit, retire := Recompaction(t, CommitRecompact), Recompaction(t, Retire);
    AfterTwo(s, commit, retire);
    RunKeepsInv(run);
    CommitThenRetire(s, t);
    RunFromKeepsInv(s, [commit, retire]);
    QueuedIsUnreferenced(After(s, [commit, retire]), PcOf(s, t).src);
  }

  lemma {:induction false} AfterTwo(s: State, a: Action, b: Action)
    ensures After(s, [a, b]) == Step(Step(s, a), b)
  {
    assert [a, b][..1] == [a] && [a][..0] == [];
    assert After(s, [a]) == Step(s, a);
  }

  lemma QueuedIsUnreferenced(s: State, p: Path)
    requires Inv(s) && p in s.queued
    ensures forall k :: k in s.rows ==> !Refers(s.rows[k], p)
  {
    forall k | k in s.rows ensures !Refers(s.rows[k], p) {
      assert RowOk(s, k, s.rows[k]);
    }
  }

  lemma {:induction false} AfterThree(s: State, a: Action, b: Action, c: Action)
    ensures After(s, [a, b, c]) == Step(Step(Step(s, a), b), c)
  {
    assert [a, b, c][..2] == [a, b] && [a, b][..1] == [a] && [a][..0] == [];
    assert After(s, []) == s;
    assert After(s, [a]) == Step(s, a);
    assert After(s, [a, b]) == Step(Step(s, a), b);
  }
}
