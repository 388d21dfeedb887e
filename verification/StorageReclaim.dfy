/** Nothing a writer leaves behind leaks: the file of every row it replaced or removed, and its
    own when it loses, is handed to the deletion queue unless the process crashes or the queue
    refuses it (storage/storage.go, storage/eviction.go, storage/cas.go). */
module StorageReclaim {
  import opened Rows
  import opened Merge
  import opened Storage
  import opened StorageInvariant
  import opened StorageSafety
  import opened StorageTheorems

  /** The row is on raw file `p`. */
  predicate OnRaw(row: Option<ValueMessage>, p: Path) {
    row.Some? && row.value.valueType == RawFile && row.value.rawFilePath == p
  }

  /** `t` has `p` to hand over. */
  predicate Owes(s: State, t: Tid, p: Path) {
    PcOf(s, t).Flushing? && p in PcOf(s, t).paths
  }

  // ---- A thread in the middle of something is moved only by its own steps ----

  lemma OthersLeave(s: State, a: Action, t: Tid)
    requires Inv(s) && a != Environment(Crash) && (a.Environment? || a.t != t)
    ensures PcOf(Step(s, a), t) == PcOf(s, t)
  {
    hide PcOk, RowsOk, StoreOk, OneRecompactor, Grows, RowChange, PutStep, DeleteStep, CasStep, QueueStep, CompactStep, RecompactStep;
    if !a.Environment? {
      assert PcOk(s, a.t);
      StepCarries(s, a);
    }
  }

  /** A put, a removal or a hand-over is under way. */
  predicate Writing(pc: Pc) {
    pc.Flushing? || pc.Deleting? || pc.PutStaged?
  }

  lemma PutFits(s: State, t: Tid, a: PutAction)
    requires Writing(PcOf(s, t)) && !PcOf(s, t).PutStaged?
    ensures PutStep(s, t, a) == s
  {
  }

  lemma DeleteFits(s: State, t: Tid, a: DeleteAction)
    requires Writing(PcOf(s, t)) && !PcOf(s, t).Deleting?
    ensures DeleteStep(s, t, a) == s
  {
  }

  lemma QueueFits(s: State, t: Tid, a: QueueAction)
    requires Writing(PcOf(s, t)) && !PcOf(s, t).Flushing?
    ensures QueueStep(s, t, a) == s
  {
  }

  lemma CasFits(s: State, t: Tid, a: CasAction)
    requires Writing(PcOf(s, t))
    ensures CasStep(s, t, a) == s
  {
    hide Preparable, WriteFile, Publish, Proceeds, Translate, MergeRow, Reports, Admits, Classify;
  }

  lemma CompactFits(s: State, t: Tid, a: CompactAction)
    requires Writing(PcOf(s, t))
    ensures CompactStep(s, t, a) == s
  {
  }

  lemma RecompactFits(s: State, t: Tid, a: RecompactAction)
    requires Writing(PcOf(s, t))
    ensures RecompactStep(s, t, a) == s
  {
  }

  /** Of the thread's own steps only those of its kind do anything. */
  lemma OnlyItsKind(s: State, a: Action)
    requires !a.Environment? && Writing(PcOf(s, a.t))
    requires !(a.Putting? && PcOf(s, a.t).PutStaged?) && !(a.Removing? && PcOf(s, a.t).Deleting?)
    requires !(a.Queueing? && PcOf(s, a.t).Flushing?)
    ensures Step(s, a) == s
  {
    hide PutStep, DeleteStep, CasStep, QueueStep, CompactStep, RecompactStep;
    match a
    case Putting(t, put) => PutFits(s, t, put);
    case Removing(t, remove) => DeleteFits(s, t, remove);
    case Swapping(t, cas) => CasFits(s, t, cas);
    case Queueing(t, queue) => QueueFits(s, t, queue);
    case Compaction(t, compact) => CompactFits(s, t, compact);
    case Recompaction(t, recompact) => RecompactFits(s, t, recompact);
  }

  // ---- What is owed is queued ----

  /** The process goes down, or the queue refuses the path. */
  predicate Loses(a: Action, t: Tid, p: Path) {
    a == Environment(Crash) || a == Queueing(t, QueueNext(p, false))
  }

  lemma StepOwes(s: State, a: Action, t: Tid, p: Path)
    requires Inv(s) && Owes(s, t, p) && !Loses(a, t, p)
    ensures Owes(Step(s, a), t, p) || p in Step(s, a).queued
  {
    hide Inv, PutStep, DeleteStep, CasStep, CompactStep, RecompactStep;
    if a.Environment? || a.t != t {
      OthersLeave(s, a, t);
    } else if !a.Queueing? {
      OnlyItsKind(s, a);
    }
  }

  ghost predicate Keeps(more: seq<Action>, t: Tid, p: Path) {
    forall i :: 0 <= i < |more| ==> !Loses(more[i], t, p)
  }

  lemma {:induction false} RunOwes(s: State, more: seq<Action>, t: Tid, p: Path)
    requires Inv(s) && Owes(s, t, p) && Keeps(more, t, p)
    ensures Inv(After(s, more)) && (Owes(After(s, more), t, p) || p in After(s, more).queued)
  {
    hide Inv, Step, Owes, Loses;
    if more != [] {
      var s1, a := After(s, more[..|more| - 1]), more[|more| - 1];
      RunOwes(s, more[..|more| - 1], t, p);
      StepKeepsInv(s1, a);
      QueueGrows(s1, a);
      if Owes(s1, t, p) {
        StepOwes(s1, a, t, p);
      }
    }
  }

  lemma QueueGrows(s: State, a: Action)
    requires Inv(s)
    ensures s.queued <= Step(s, a).queued
  {
    hide Inv, Step;
    StepPersists(s, a);
  }

  lemma HandsOver(s: State, t: Tid, p: Path)
    requires Owes(s, t, p) || p in s.queued
    ensures p in Step(s, Queueing(t, QueueNext(p, true))).queued
  {
  }

  /** The path is in the queue and no row references it. */
  ghost predicate Reclaimed(s: State, p: Path) {
    p in s.queued && forall k :: k in s.rows ==> !Refers(s.rows[k], p)
  }

  /** A path that is owed is reclaimed when its turn comes, whatever ran before. */
  lemma {:induction false} OwedIsReclaimed(s: State, more: seq<Action>, t: Tid, p: Path)
    requires Inv(s) && Owes(s, t, p) && Keeps(more, t, p)
    ensures Reclaimed(Step(After(s, more), Queueing(t, QueueNext(p, true))), p)
  {
    hide Inv, Step, Owes;
    RunOwes(s, more, t, p);
    HandsOver(After(s, more), t, p);
    StepKeepsInv(After(s, more), Queueing(t, QueueNext(p, true)));
    QueuedIsUnreferenced(Step(After(s, more), Queueing(t, QueueNext(p, true))), p);
  }

  // ---- What is queued goes, and nothing else ----

  lemma PutGone(s: State, t: Tid, a: PutAction)
    ensures PutStep(s, t, a).gone == s.gone
  {
    hide Preparable;
  }

  lemma CasGone(s: State, t: Tid, a: CasAction)
    ensures CasStep(s, t, a).gone == s.gone
  {
    hide Preparable, Proceeds, Translate, MergeRow, Reports, Admits, Classify;
  }

  lemma DeleteGone(s: State, t: Tid, a: DeleteAction)
    ensures DeleteStep(s, t, a).gone == s.gone
  {
  }

  lemma QueueGone(s: State, t: Tid, a: QueueAction)
    ensures QueueStep(s, t, a).gone == s.gone
  {
  }

  lemma CompactGone(s: State, t: Tid, a: CompactAction)
    ensures CompactStep(s, t, a).gone == s.gone
  {
    hide MergeRow, ApplyBatch;
  }

  lemma RecompactGone(s: State, t: Tid, a: RecompactAction)
    ensures RecompactStep(s, t, a).gone == s.gone
  {
    hide MergeRow, ApplyBatch;
  }

  /** A path leaves the disk exactly when the queue unlinks it, and only if it was queued. */
  lemma GoneExactly(s: State, a: Action, p: Path)
    ensures p in Step(s, a).gone <==> p in s.gone || (a == Environment(Unlink(p)) && p in s.queued)
  {
    hide PutStep, DeleteStep, CasStep, QueueStep, CompactStep, RecompactStep;
    match a
    case Putting(t, put) => PutGone(s, t, put);
    case Removing(t, remove) => DeleteGone(s, t, remove);
    case Swapping(t, cas) => CasGone(s, t, cas);
    case Queueing(t, queue) => QueueGone(s, t, queue);
    case Compaction(t, compact) => CompactGone(s, t, compact);
    case Recompaction(t, recompact) => RecompactGone(s, t, recompact);
    case Environment(_) =>
  }

  lemma {:induction false} RunQueued(s: State, more: seq<Action>, p: Path)
    requires Inv(s) && p in s.queued
    ensures Inv(After(s, more)) && p in After(s, more).queued
  {
    hide Inv, Step;
    if more != [] {
      RunQueued(s, more[..|more| - 1], p);
      StepKeepsInv(After(s, more[..|more| - 1]), more[|more| - 1]);
      QueueGrows(After(s, more[..|more| - 1]), more[|more| - 1]);
    }
  }

  /** A path queued at any point of a run is off the disk when the queue gets to it, whatever ran
      before, and no row is on it. */
  lemma {:induction false} QueuedIsUnlinked(run: seq<Action>, more: seq<Action>, p: Path)
    requires p in After(INIT, run).queued
    ensures var s := Step(After(After(INIT, run), more), Environment(Unlink(p)));
            p in s.gone && Reclaimed(s, p)
  {
    hide Inv, Step;
    RunKeepsInv(run);
    RunQueued(After(INIT, run), more, p);
    var s := After(After(INIT, run), more);
    GoneExactly(s, Environment(Unlink(p)), p);
    StepKeepsInv(s, Environment(Unlink(p)));
    QueueGrows(s, Environment(Unlink(p)));
    QueuedIsUnreferenced(Step(s, Environment(Unlink(p))), p);
  }

  // ---- Deletes, evictions, expiry ----

  /** `t` holds the row of `k` as it was when it looked. */
  predicate Holds(s: State, t: Tid, k: Key, vm: ValueMessage) {
    PcOf(s, t).Deleting? && k in PcOf(s, t).victims && PcOf(s, t).victims[k] == vm
  }

  predicate EndsRemoval(a: Action, t: Tid) {
    a == Environment(Crash) || a == Removing(t, CommitDelete) || a == Removing(t, AbandonDelete)
  }

  lemma StepHolds(s: State, a: Action, t: Tid, k: Key, vm: ValueMessage)
    requires Inv(s) && Holds(s, t, k, vm) && !EndsRemoval(a, t)
    ensures Holds(Step(s, a), t, k, vm)
  {
    hide Inv, PutStep, QueueStep, CasStep, CompactStep, RecompactStep;
    if a.Environment? || a.t != t {
      OthersLeave(s, a, t);
    } else if !a.Removing? {
      OnlyItsKind(s, a);
    }
  }

  lemma {:induction false} RunHolds(s: State, mid: seq<Action>, t: Tid, k: Key, vm: ValueMessage)
    requires Inv(s) && Holds(s, t, k, vm) && forall i :: 0 <= i < |mid| ==> !EndsRemoval(mid[i], t)
    ensures Inv(After(s, mid)) && Holds(After(s, mid), t, k, vm)
  {
    hide Inv, Step, Holds, EndsRemoval;
    if mid != [] {
      RunHolds(s, mid[..|mid| - 1], t, k, vm);
      StepKeepsInv(After(s, mid[..|mid| - 1]), mid[|mid| - 1]);
      StepHolds(After(s, mid[..|mid| - 1]), mid[|mid| - 1], t, k, vm);
    }
  }

  lemma CollectHolds(s: State, t: Tid, k: Key)
    requires k in s.rows && (PcOf(s, t).Idle? || (PcOf(s, t).Deleting? && k !in PcOf(s, t).victims))
    ensures Holds(Step(s, Removing(t, Collect(k))), t, k, s.rows[k])
  {
  }

  lemma CommitDeleteOwes(s: State, t: Tid, k: Key, vm: ValueMessage)
    requires Holds(s, t, k, vm)
    ensures var s' := Step(s, Removing(t, CommitDelete));
            k !in s'.rows && forall p :: OnRaw(Some(vm), p) ==> Owes(s', t, p)
  {
    assert k in PcOf(s, t).victims;
  }

  /** A row that was collected is gone when the removal commits, and the raw file it was on is
      reclaimed, whatever runs before the commit and after it. */
  lemma {:induction false} RemovalReclaims(run: seq<Action>, mid: seq<Action>, more: seq<Action>, t: Tid, k: Key, p: Path)
    requires var s := After(INIT, run); k in s.rows && (PcOf(s, t).Idle? || (PcOf(s, t).Deleting? && k !in PcOf(s, t).victims))
    requires (forall i :: 0 <= i < |mid| ==> !EndsRemoval(mid[i], t)) && Keeps(more, t, p)
    ensures var s := After(INIT, run);
            var s1 := After(Step(s, Removing(t, Collect(k))), mid);
            var s2 := Step(s1, Removing(t, CommitDelete));
            && k !in s2.rows
            && (OnRaw(Some(s.rows[k]), p) ==> Reclaimed(Step(After(s2, more), Queueing(t, QueueNext(p, true))), p))
  {
    hide Inv, Step, Holds, Owes, EndsRemoval, Reclaimed, Keeps;
    var s := After(INIT, run);
    RunKeepsInv(run);
    StepKeepsInv(s, Removing(t, Collect(k)));
    CollectHolds(s, t, k);
    RunHolds(Step(s, Removing(t, Collect(k))), mid, t, k, s.rows[k]);
    var s1 := After(Step(s, Removing(t, Collect(k))), mid);
    CommitDeleteOwes(s1, t, k, s.rows[k]);
    StepKeepsInv(s1, Removing(t, CommitDelete));
    if OnRaw(Some(s.rows[k]), p) {
      OwedIsReclaimed(Step(s1, Removing(t, CommitDelete)), more, t, p);
    }
  }

  // ---- Plain puts ----

  predicate Staged(s: State, t: Tid, k: Key, row: ValueMessage, prev: Option<ValueMessage>) {
    PcOf(s, t) == PutStaged(k, row, prev)
  }

  predicate EndsPut(a: Action, t: Tid) {
    a == Environment(Crash) || (a.Putting? && a.t == t && (a.put.CommitPut? || a.put.FailPut?))
  }

  lemma StepStaged(s: State, a: Action, t: Tid, k: Key, row: ValueMessage, prev: Option<ValueMessage>)
    requires Inv(s) && Staged(s, t, k, row, prev) && !EndsPut(a, t)
    ensures Staged(Step(s, a), t, k, row, prev)
  {
    hide Inv, DeleteStep, QueueStep, CasStep, CompactStep, RecompactStep;
    if a.Environment? || a.t != t {
      OthersLeave(s, a, t);
    } else if !a.Putting? {
      OnlyItsKind(s, a);
    }
  }

  lemma {:induction false} RunStaged(s: State, mid: seq<Action>, t: Tid, k: Key, row: ValueMessage, prev: Option<ValueMessage>)
    requires Inv(s) && Staged(s, t, k, row, prev) && forall i :: 0 <= i < |mid| ==> !EndsPut(mid[i], t)
    ensures Inv(After(s, mid)) && Staged(After(s, mid), t, k, row, prev)
  {
    hide Inv, Step, Staged, EndsPut;
    if mid != [] {
      RunStaged(s, mid[..|mid| - 1], t, k, row, prev);
      StepKeepsInv(After(s, mid[..|mid| - 1]), mid[|mid| - 1]);
      StepStaged(After(s, mid[..|mid| - 1]), mid[|mid| - 1], t, k, row, prev);
    }
  }

  lemma ReadPrevStages(s: State, t: Tid, k: Key, row: ValueMessage)
    requires PcOf(s, t) == PutWritten(k, row)
    ensures Staged(Step(s, Putting(t, ReadPrev(false))), t, k, row, Lookup(s.rows, k))
  {
  }

  lemma CommitPutOwes(s: State, t: Tid, k: Key, row: ValueMessage, prev: Option<ValueMessage>, indexed: bool)
    requires Staged(s, t, k, row, prev)
    ensures var s' := Step(s, Putting(t, CommitPut(indexed)));
            && k in s'.rows && s'.rows[k] == row
            && (forall p :: OnRaw(prev, p) ==> Owes(s', t, p))
            && (indexed && row.valueType == RawFile ==> (k, row.rawFilePath) in s'.index)
  {
  }

  lemma FailPutOwes(s: State, t: Tid, k: Key, row: ValueMessage, prev: Option<ValueMessage>)
    requires Staged(s, t, k, row, prev)
    ensures var s' := Step(s, Putting(t, FailPut)); s'.rows == s.rows && forall p :: OnRaw(Some(row), p) ==> Owes(s', t, p)
  {
  }

  /** The raw file of the row a put found is reclaimed once the put has replaced it, and its own
      when it fails, whatever runs in between; a medium-sized file is listed for compaction. */
  lemma {:induction false} PutReclaims(run: seq<Action>, mid: seq<Action>, more: seq<Action>, t: Tid, p: Path, end: PutAction)
    requires PcOf(After(INIT, run), t).PutWritten? && (end.CommitPut? || end.FailPut?)
    requires (forall i :: 0 <= i < |mid| ==> !EndsPut(mid[i], t)) && Keeps(more, t, p)
    ensures var s := After(INIT, run);
            var pc := PcOf(s, t);
            var s1 := After(Step(s, Putting(t, ReadPrev(false))), mid);
            var s2 := Step(s1, Putting(t, end));
            && (end.CommitPut? ==> pc.key in s2.rows && s2.rows[pc.key] == pc.row)
            && (end.CommitPut? && end.indexed && pc.row.valueType == RawFile ==> (pc.key, pc.row.rawFilePath) in s2.index)
            && (end.FailPut? ==> s2.rows == s1.rows)
            && (OnRaw(if end.CommitPut? then Lookup(s.rows, pc.key) else Some(pc.row), p) ==>
                  Reclaimed(Step(After(s2, more), Queueing(t, QueueNext(p, true))), p))
  {
    hide Inv, Step, Staged, Owes, EndsPut, Reclaimed, Keeps, OnRaw;
    var s := After(INIT, run);
    var pc, read := PcOf(s, t), Putting(t, ReadPrev(false));
    RunKeepsInv(run);
    StepKeepsInv(s, read);
    ReadPrevStages(s, t, pc.key, pc.row);
    RunStaged(Step(s, read), mid, t, pc.key, pc.row, Lookup(s.rows, pc.key));
    var s1 := After(Step(s, read), mid);
    StepKeepsInv(s1, Putting(t, end));
    if end.CommitPut? {
      CommitPutOwes(s1, t, pc.key, pc.row, Lookup(s.rows, pc.key), end.indexed);
    } else {
      FailPutOwes(s1, t, pc.key, pc.row, Lookup(s.rows, pc.key));
    }
    if OnRaw(if end.CommitPut? then Lookup(s.rows, pc.key) else Some(pc.row), p) {
      OwedIsReclaimed(Step(s1, Putting(t, end)), more, t, p);
    }
  }
}
