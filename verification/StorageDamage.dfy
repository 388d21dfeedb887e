/** Where the compactor's care runs out: a damaged file whose row cannot be re-read
    (storage/compaction/compactor.go). */
module StorageDamage {
  import opened Rows
  import opened Merge
  import opened Storage
  import opened StorageInvariant
  import opened StorageWriters
  import opened StorageBatches
  import opened StorageMigration
  import opened StorageSafety
  import opened StorageTheorems

  predicate OnFile(s: State, k: Key, p: Path) {
    k in s.rows && RefersRaw(s.rows[k], p)
  }

  /** The step takes the row of `k` off raw file `p`: a put or a delete of the key, a conditional
      write that is admitted, or a compaction batch that moves or purges it. */
  predicate TakesOff(s: State, a: Action, k: Key, p: Path) {
    if a.Compaction? then a.compact.CommitCompact? && PcOf(s, a.t).Compacting? && Clears(PcOf(s, a.t).merges, k, p)
    else WritesKey(s, a, k) && (a.Swapping? ==> Admits(Lookup(s.rows, k), PcOf(s, a.t).op))
  }

  lemma PutTakesOff(s: State, a: Action, k: Key, p: Path)
    requires Base(s) && !a.Environment? && PcOk(s, a.t) && OnFile(s, k, p) && WritesKey(s, a, k) && !a.Swapping?
    ensures !OnFile(Step(s, a), k, p)
  {
    assert RowOk(s, k, s.rows[k]);
  }

  lemma MergeTakesOff(s: State, t: Tid, k: Key, p: Path)
    requires Base(s) && PcOk(s, t) && OnFile(s, k, p) && WritesKey(s, Swapping(t, MergeCas), k)
    ensures OnFile(Step(s, Swapping(t, MergeCas)), k, p) <==> !Admits(Lookup(s.rows, k), PcOf(s, t).op)
  {
    assert RowOk(s, k, s.rows[k]);
    var op, base := PcOf(s, t).op, Lookup(s.rows, k);
    assert Fold(base, [op]) == Resolve(base, op);
  }

  lemma CompactTakesOff(s: State, t: Tid, k: Key, p: Path)
    requires Base(s) && PcOk(s, t) && PcOf(s, t).Compacting? && OnFile(s, k, p)
    ensures OnFile(CompactStep(s, t, CommitCompact), k, p) <==> !Clears(PcOf(s, t).merges, k, p)
  {
    var batch := PcOf(s, t).merges;
    if Clears(batch, k, p) {
      BatchClearsRaw(s.rows, batch, k, p);
    } else {
      StaleOperandsDoNothing(s.rows, batch, k);
    }
  }

  lemma RecompactLeavesOn(s: State, t: Tid, k: Key, p: Path)
    requires Base(s) && PcOk(s, t) && OnFile(s, k, p)
    ensures OnFile(RecompactStep(s, t, CommitRecompact), k, p)
  {
    var pc := PcOf(s, t);
    if pc.Recompacting? {
      assert RowOk(s, k, s.rows[k]);
      assert p != pc.src;
      StaleOperandsDoNothing(s.rows, pc.batch, k);
    }
  }

  lemma EnvironmentLeavesOn(s: State, a: EnvironmentAction, k: Key, p: Path)
    requires Base(s) && OnFile(s, k, p)
    ensures OnFile(EnvironmentStep(s, a), k, p)
  {
    assert RowOk(s, k, s.rows[k]);
    if a.Purge? {
      var base := Lookup(s.rows, a.key);
      assert Fold(base, [PurgeOf(a.path)]) == Resolve(base, PurgeOf(a.path));
    }
  }

  /** Nothing else takes a row off a raw file. */
  lemma StepTakesOffExactly(s: State, a: Action, k: Key, p: Path)
    requires Inv(s) && OnFile(s, k, p)
    ensures OnFile(Step(s, a), k, p) <==> !TakesOff(s, a, k, p)
  {
    hide PutStep, DeleteStep, CasStep, QueueStep, CompactStep, RecompactStep, EnvironmentStep, RefersRaw, RowsOk, StoreOk, PcOk;
    if a.Environment? {
      EnvironmentLeavesOn(s, a.env, k, p);
    } else {
      assert PcOk(s, a.t);
      if WritesKey(s, a, k) {
        if a.Swapping? {
          MergeTakesOff(s, a.t, k, p);
        } else {
          PutTakesOff(s, a, k, p);
        }
      } else if a.Compaction? && a.compact.CommitCompact? && PcOf(s, a.t).Compacting? {
        CompactTakesOff(s, a.t, k, p);
      } else if a.Recompaction? && a.recompact.CommitRecompact? {
        RecompactLeavesOn(s, a.t, k, p);
      } else {
        OtherwiseSame(s, a, k);
      }
    }
  }

  lemma OtherwiseSame(s: State, a: Action, k: Key)
    requires !a.Environment? && !WritesKey(s, a, k) && !(a.Recompaction? && a.recompact.CommitRecompact?)
    requires a.Compaction? && a.compact.CommitCompact? ==> !PcOf(s, a.t).Compacting?
    ensures SameRow(s, Step(s, a), k)
  {
    hide PutStep, DeleteStep, CasStep, QueueStep, RecompactStep;
    if !(a.Compaction? && a.compact.CommitCompact?) {
      ThreadTouches(s, a, k);
    }
  }

  /** No step of the run does. */
  ghost predicate Untaken(s: State, more: seq<Action>, k: Key, p: Path) {
    forall i :: 0 <= i < |more| ==> !TakesOff(After(s, more[..i]), more[i], k, p)
  }

  /** Once off a file, a row never comes back to it. */
  lemma {:induction false} RunTakesOffExactly(s: State, more: seq<Action>, k: Key, p: Path)
    requires Inv(s) && p in s.born && p !in s.private && s.born[p].key == k
    ensures Inv(After(s, more)) && (OnFile(After(s, more), k, p) <==> OnFile(s, k, p) && Untaken(s, more, k, p))
    ensures p in After(s, more).born && After(s, more).born[p].key == k
  {
    hide Inv, Dead, TakesOff, Step, OnFile;
    if !OnFile(s, k, p) {
      OffIsDead(s, k, p);
      RunKeepsDead(s, more, p);
      RunPersists(s, more);
      DeadIsOff(After(s, more), k, p);
    } else if more != [] {
      var init, a := more[..|more| - 1], more[|more| - 1];
      var s1 := After(s, init);
      RunTakesOffExactly(s, init, k, p);
      UntakenNext(s, more, k, p);
      StepKeepsInv(s1, a);
      StepPersists(s1, a);
      if OnFile(s1, k, p) {
        StepTakesOffExactly(s1, a, k, p);
      } else {
        RunPrivate(s, init, p);
        OffIsDead(s1, k, p);
        StepKeepsDead(s1, a, p);
        DeadIsOff(Step(s1, a), k, p);
      }
    }
  }

  lemma {:induction false} UntakenNext(s: State, more: seq<Action>, k: Key, p: Path)
    requires more != []
    ensures var init := more[..|more| - 1];
            Untaken(s, more, k, p) <==> Untaken(s, init, k, p) && !TakesOff(After(s, init), more[|more| - 1], k, p)
  {
    hide TakesOff, Step;
    var init := more[..|more| - 1];
    forall i | 0 <= i < |init| ensures init[..i] == more[..i] && init[i] == more[i] {
    }
  }

  lemma OffIsDead(s: State, k: Key, p: Path)
    requires Inv(s) && p in s.born && p !in s.private && s.born[p].key == k && !OnFile(s, k, p)
    ensures Dead(s, p)
  {
    StaleEntryIsDead(s, k, p);
  }

  lemma DeadIsOff(s: State, k: Key, p: Path)
    requires Dead(s, p)
    ensures !OnFile(s, k, p)
  {
  }

  /** A file that has left its writer's hands stays so. */
  lemma {:induction false} RunPrivate(s: State, more: seq<Action>, p: Path)
    requires Inv(s) && p in s.born && p !in s.private
    ensures Inv(After(s, more)) && p in After(s, more).born && p !in After(s, more).private
  {
    hide Inv, Step;
    if more != [] {
      RunPrivate(s, more[..|more| - 1], p);
      StepKeepsInv(After(s, more[..|more| - 1]), more[|more| - 1]);
      StepPrivate(After(s, more[..|more| - 1]), more[|more| - 1], p);
    }
  }

  lemma StepPrivate(s: State, a: Action, p: Path)
    requires Inv(s) && p in s.born && p !in s.private
    ensures p in Step(s, a).born && p !in Step(s, a).private
  {
    hide PcOk, RowsOk, StoreOk, OneRecompactor, RowChange, PutStep, DeleteStep, CasStep, QueueStep, CompactStep, RecompactStep;
    if !a.Environment? {
      assert PcOk(s, a.t);
      StepCarries(s, a);
    }
  }

  // ---- The drop ----

  /** A file of the wrong size whose metadata cannot be re-read: its index entry goes with the
      next batch and no purge is staged, yet the file will be queued. */
  function DropUnread(s: State, t: Tid): State
    requires PcOf(s, t).Compacting? && PcOf(s, t).loaded.Some?
  {
    var pc := PcOf(s, t);
    Go(s, t, pc.(loaded := None, drop := pc.drop + {(pc.loaded.value.key, pc.loaded.value.op.rawFilePath)}))
  }

  function QueueUnread(s: State, p: Path): State {
    s.(queued := s.queued + {p})
  }

  /** Some row references the file after it was queued. */
  ghost predicate Dangles(s: State, p: Path) {
    p in s.queued && exists k :: k in s.rows && RefersRaw(s.rows[k], p)
  }

  lemma DropUnreadKeeps(s: State, t: Tid)
    requires Inv(s) && PcOf(s, t).Compacting? && PcOf(s, t).loaded.Some?
    ensures Inv(DropUnread(s, t))
    ensures var p := PcOf(s, t).loaded.value.op.rawFilePath;
            p in s.born && p !in s.private && s.born[p].key == PcOf(s, t).loaded.value.key
  {
    hide RowsOk, StoreOk, OneRecompactor;
    var pc := PcOf(s, t);
    assert PcOk(s, t);
    var drop := pc.drop + {(pc.loaded.value.key, pc.loaded.value.op.rawFilePath)};
    DropEntryKeeps(s, t, pc, drop, None);
    Conclude(s, DropUnread(s, t), t);
  }

  lemma DanglesExactly(s: State, k: Key, p: Path)
    requires Inv(s) && p in s.born && s.born[p].key == k
    ensures Dangles(QueueUnread(s, p), p) <==> OnFile(s, k, p)
  {
    forall k' | k' in s.rows && RefersRaw(s.rows[k'], p) ensures k' == k {
      assert RowOk(s, k', s.rows[k']);
    }
  }

  /** Whatever runs between the drop and the queueing, the queued file is one a row still
      references exactly when the row was on it at the drop and no step since took it off. */
  lemma {:induction false} UnreadDropExactly(run: seq<Action>, more: seq<Action>, t: Tid)
    requires PcOf(After(INIT, run), t).Compacting? && PcOf(After(INIT, run), t).loaded.Some?
    ensures var s := After(INIT, run);
            var s1 := DropUnread(s, t);
            var k, p := PcOf(s, t).loaded.value.key, PcOf(s, t).loaded.value.op.rawFilePath;
            Dangles(QueueUnread(After(s1, more), p), p) <==> OnFile(s, k, p) && Untaken(s1, more, k, p)
  {
    hide Inv, Dangles, QueueUnread, Untaken;
    var s := After(INIT, run);
    var k, p := PcOf(s, t).loaded.value.key, PcOf(s, t).loaded.value.op.rawFilePath;
    RunKeepsInv(run);
    DropUnreadKeeps(s, t);
    RunTakesOffExactly(DropUnread(s, t), more, k, p);
    DanglesExactly(After(DropUnread(s, t), more), k, p);
  }

  /** A row that dangles is repaired by the read that finds its file unlinked: the key then reads
      as a plain miss. A row that has moved on, and every other row, is left alone. */
  lemma DanglingIsPurged(s: State, k: Key, p: Path)
    requires p in s.queued && p != "" && k in s.rows
    ensures var s' := Step(Step(s, Environment(Unlink(p))), Environment(Purge(k, p)));
            && s'.rows.Keys == s.rows.Keys && (forall k' :: k' in s.rows && k' != k ==> s'.rows[k'] == s.rows[k'])
            && s'.rows[k] == if RefersRaw(s.rows[k], p) then Tombstone(0) else s.rows[k]
  {
    assert Fold(Some(s.rows[k]), [PurgeOf(p)]) == Resolve(Some(s.rows[k]), PurgeOf(p));
  }

  // ---- It does happen ----

  const EXAMPLE_ROW := ValueMessage(RawFile, [], 0, "f", "", 0, 1, 0, 0, NoOp, 0)

  const EXAMPLE_STORE := INIT.(born := map["f" := Birth("k", [7], 0, 0)], rows := map["k" := EXAMPLE_ROW],
                               index := {("k", "f")}, threads := map[0 := Flushing({})])

  lemma ExamplePut(a: Action, b: Action, c: Action)
    requires a == Putting(0, StartPut("k", EXAMPLE_ROW, [7])) && b == Putting(0, ReadPrev(false)) && c == Putting(0, CommitPut(true))
    ensures Step(Step(Step(INIT, a), b), c) == EXAMPLE_STORE
  {
    var s1 := Step(INIT, a);
    assert s1 == INIT.(born := map["f" := Birth("k", [7], 0, 0)], private := map["f" := 0],
                       threads := map[0 := PutWritten("k", EXAMPLE_ROW)]);
    assert Step(s1, b) == s1.(threads := map[0 := PutStaged("k", EXAMPLE_ROW, None)]);
  }

  lemma ExampleLoad(a: Action, b: Action, c: Action)
    requires a == Environment(Damage("f")) && b == Compaction(1, StartCompact("g")) && c == Compaction(1, LoadEntry("k", "f"))
    ensures var s := Step(Step(Step(EXAMPLE_STORE, a), b), c);
            s.rows == EXAMPLE_STORE.rows && PcOf(s, 1) == Compacting("g", Some(Staged("k", EXAMPLE_ROW)), [], {}, {}, {})
  {
    var s1 := Step(EXAMPLE_STORE, a);
    assert s1 == EXAMPLE_STORE.(damaged := {"f"});
    assert Step(s1, b) == Go(Acquire(s1, 1, "g"), 1, Compacting("g", None, [], {}, {}, {}));
  }

  /** One put, damage to its file, and a compaction of it: the file is queued after the commit
      with the row still on it. */
  lemma UnreadDropDangles() returns (run: seq<Action>)
    ensures PcOf(After(INIT, run), 1).Compacting? && PcOf(After(INIT, run), 1).loaded.Some?
    ensures Dangles(QueueUnread(After(DropUnread(After(INIT, run), 1), [Compaction(1, CommitCompact)]), "f"), "f")
  {
    var a, b, c := Putting(0, StartPut("k", EXAMPLE_ROW, [7])), Putting(0, ReadPrev(false)), Putting(0, CommitPut(true));
    var d, e, f := Environment(Damage("f")), Compaction(1, StartCompact("g")), Compaction(1, LoadEntry("k", "f"));
    run := [a, b, c] + [d, e, f];
    AfterAppend(INIT, [a, b, c], [d, e, f]);
    AfterThree(INIT, a, b, c);
    ExamplePut(a, b, c);
    AfterThree(EXAMPLE_STORE, d, e, f);
    ExampleLoad(d, e, f);
    var commit := Compaction(1, CommitCompact);
    UnreadDropExactly(run, [commit], 1);
    assert [commit][..0] == [];
    assert Untaken(DropUnread(After(INIT, run), 1), [commit], "k", "f");
  }
}
