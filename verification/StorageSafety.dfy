/** Safety of the storage machine over every interleaving and every crash: no row
    ever references a path that has been queued for deletion, nothing in flight
    can install such a reference later, and what a key reads as changes only when
    somebody writes it. */
module StorageSafety {
  import opened Rows
  import opened Merge
  import opened Storage
  import opened StorageInvariant
  import opened StorageWriters
  import opened StorageBatches
  import opened StorageMigration

  // ---- Every step keeps the invariant ----

  /** Nothing happened, or a step of `t` that everybody can live with. */
  ghost predicate Carries(s: State, s': State, t: Tid) {
    s' == s || (Moved(s, s', t) && PcOk(s', t))
  }

  lemma CommitPutCarries(s: State, t: Tid, indexed: bool)
    requires Base(s) && PcOk(s, t)
    ensures Carries(s, PutStep(s, t, CommitPut(indexed)), t)
  {
    hide Moved, RowsOk, StoreOk, OneRecompactor, PutOk, AllDead;
    var pc, s' := PcOf(s, t), PutStep(s, t, CommitPut(indexed));
    if pc.PutStaged? {
      CommitMoves(s, t, pc.key, pc.row, pc.prev, s'.index);
    }
  }

  lemma FailPutCarries(s: State, t: Tid)
    requires Base(s) && PcOk(s, t)
    ensures Carries(s, PutStep(s, t, FailPut), t)
  {
    hide Moved, RowsOk, StoreOk, OneRecompactor;
    var pc := PcOf(s, t);
    if pc.PutStaged? {
      DiscardMoves(s, t, pc.row);
    }
  }

  lemma PutCarries(s: State, t: Tid, a: PutAction)
    requires Base(s) && PcOk(s, t)
    ensures Carries(s, PutStep(s, t, a), t)
  {
    hide Moved, RowsOk, StoreOk, OneRecompactor, PutOk, Preparable;
    var pc := PcOf(s, t);
    match a
    case StartPut(k, row, bytes) => if PutStep(s, t, a) != s { StartPutKeeps(s, t, k, row, bytes); }
    case ReadPrev(fails) =>
      if pc.PutWritten? {
        ReadPrevKeeps(s, t, pc.key, pc.row, if fails then None else Lookup(s.rows, pc.key));
      }
    case CommitPut(indexed) => CommitPutCarries(s, t, indexed);
    case FailPut => FailPutCarries(s, t);
  }

  lemma LandDeleting(s: State, t: Tid, m: map<Key, ValueMessage>)
    requires Moved(s, Go(s, t, Deleting(m)), t) && VictimsOk(Go(s, t, Deleting(m)), m)
    ensures Carries(s, Go(s, t, Deleting(m)), t)
  {
  }

  lemma CollectCarries(s: State, t: Tid, k: Key)
    requires Base(s) && PcOk(s, t)
    ensures Carries(s, DeleteStep(s, t, Collect(k)), t)
  {
    var pc, s' := PcOf(s, t), DeleteStep(s, t, Collect(k));
    if s' != s {
      var m := if pc.Idle? then map[] else pc.victims;
      assert VictimsOk(s, m);
      assert s' == Go(s, t, Deleting(m[k := s.rows[k]]));
      CollectKeeps(s, t, m, k);
      LandDeleting(s, t, m[k := s.rows[k]]);
    }
  }

  lemma RemoveCarries(s: State, t: Tid)
    requires Base(s) && PcOk(s, t)
    ensures Carries(s, DeleteStep(s, t, CommitDelete), t)
  {
    hide Moved, RowsOk, StoreOk, OneRecompactor, VictimsOk, AllDead;
    var pc := PcOf(s, t);
    if pc.Deleting? {
      var m := pc.victims;
      RemoveMoves(s, t, m, set k | k in m && m[k].valueType == RawFile :: m[k].rawFilePath);
    }
  }

  lemma DeleteCarries(s: State, t: Tid, a: DeleteAction)
    requires Base(s) && PcOk(s, t)
    ensures Carries(s, DeleteStep(s, t, a), t)
  {
    match a
    case Collect(k) => CollectCarries(s, t, k);
    case CommitDelete => RemoveCarries(s, t);
    case AbandonDelete => StayMoves(s, t, Idle);
  }

  lemma DiscardCasCarries(s: State, t: Tid, k: Key, op: ValueMessage, prev: Option<ValueMessage>)
    requires Base(s) && CasOk(s, t, k, op, prev)
    ensures Carries(s, Go(Publish(s, op), t, Flushing(RawPaths(Some(op)))), t)
  {
    var s' := Go(Publish(s, op), t, Flushing(RawPaths(Some(op))));
    assert PcOf(s', t) == Flushing(RawPaths(Some(op)));
    DiscardMoves(s, t, op);
  }

  lemma WonCarries(s: State, t: Tid, index: set<(Key, Path)>)
    requires Base(s) && PcOk(s, t) && PcOf(s, t).CasMerged?
    requires var pc := PcOf(s, t);
             forall e :: e in index ==> e in s.index || (pc.op.valueType == RawFile && e == (pc.key, pc.op.rawFilePath))
    ensures Carries(s, Go(s.(index := index), t, Flushing(RawPaths(PcOf(s, t).prev))), t)
  {
    var pc := PcOf(s, t);
    WonKeeps(s, t, pc.key, pc.op, pc.prev, pc.admitted, index);
  }

  lemma LostCarries(s: State, t: Tid)
    requires Base(s) && PcOk(s, t) && PcOf(s, t).CasMerged? && !Reports(s, PcOf(s, t).key, PcOf(s, t).op)
    ensures Carries(s, Go(s, t, Flushing(RawPaths(Some(PcOf(s, t).op)))), t)
  {
    var pc := PcOf(s, t);
    LostSpillIsDead(s, t, pc.key, pc.op, pc.prev, pc.admitted);
    FlushKeeps(s, t, RawPaths(Some(pc.op)));
  }

  lemma ReadBackCarries(s: State, t: Tid, a: CasAction)
    requires Base(s) && PcOk(s, t) && (a.ReadBack? || a.ReadBackFails?)
    ensures Carries(s, CasStep(s, t, a), t)
  {
    hide Carries, PcOk, Base, Reports;
    var pc, s' := PcOf(s, t), CasStep(s, t, a);
    if !pc.CasMerged? {
      StayCarries(s, t);
    } else if a.ReadBack? && !Reports(s, pc.key, pc.op) {
      LostCarries(s, t);
    } else {
      WonCarries(s, t, s'.index);
      assert s' == Go(s.(index := s'.index), t, Flushing(RawPaths(pc.prev)));
    }
  }

  lemma RefreshCarries(s: State, t: Tid, now: int)
    requires Base(s) && PcOk(s, t)
    ensures Carries(s, CasStep(s, t, RefreshCas(now)), t)
  {
    hide Moved, RowsOk, StoreOk, OneRecompactor, CasOk, AskedOk, Proceeds, Translate, AllDead;
    var pc := PcOf(s, t);
    if pc.CasWritten? {
      if Proceeds(pc.op, Lookup(s.rows, pc.key), now) {
        RefreshKeeps(s, t, pc.key, pc.op, now);
      } else {
        DiscardCasCarries(s, t, pc.key, pc.op, None);
      }
    }
  }

  lemma MergeCarries(s: State, t: Tid)
    requires Base(s) && PcOk(s, t)
    ensures Carries(s, CasStep(s, t, MergeCas), t)
  {
    hide Moved, RowsOk, StoreOk, OneRecompactor, CasOk, AskedOk, MergedOk, Admits, MergeRow;
    var pc := PcOf(s, t);
    if pc.CasStaged? {
      MergeCasMoves(s, t, pc.key, pc.op, pc.prev);
    }
  }

  lemma DeleteIfCarries(s: State, t: Tid, a: CasAction)
    requires Base(s) && PcOk(s, t) && (a.CheckDelete? || a.StampDelete?)
    ensures Carries(s, CasStep(s, t, a), t)
  {
    hide Moved, RowsOk, StoreOk, OneRecompactor, CasOk, GuardOk, AskedOk, Proceeds, Translate;
    var pc := PcOf(s, t);
    if CasStep(s, t, a) != s {
      match a
      case CheckDelete(k, expected, now) => CheckDeleteKeeps(s, t, k, expected, now);
      case StampDelete(stamp) => StampDeleteKeeps(s, t, pc.key, pc.guard, pc.prev, pc.asked, stamp);
    }
  }

  lemma TokenCarries(s: State, t: Tid, a: CasAction)
    requires Base(s) && PcOk(s, t) && (a.ReadAbsent? || a.IssueToken? || a.ReturnToken?)
    ensures Carries(s, CasStep(s, t, a), t)
  {
    hide Base, Moved;
    var pc, s' := PcOf(s, t), CasStep(s, t, a);
    if s' != s {
      if a.IssueToken? {
        IssueTokenKeeps(s, t, pc.key, a.stamp);
      } else {
        StayMoves(s, t, PcOf(s', t));
      }
    }
  }

  lemma StartCasCarries(s: State, t: Tid, k: Key, op: ValueMessage, bytes: Bytes)
    requires Base(s) && PcOk(s, t)
    ensures Carries(s, CasStep(s, t, StartCas(k, op, bytes)), t)
  {
    hide Moved, RowsOk, StoreOk, OneRecompactor, CasOk, Preparable, WriteFile;
    if CasStep(s, t, StartCas(k, op, bytes)) != s {
      StartCasMoves(s, t, k, op, bytes);
    }
  }

  lemma FailCasCarries(s: State, t: Tid)
    requires Base(s) && PcOk(s, t)
    ensures Carries(s, CasStep(s, t, FailCas), t)
  {
    hide Moved, RowsOk, StoreOk, OneRecompactor, CasOk, AskedOk, AllDead;
    var pc := PcOf(s, t);
    if pc.CasChecked? {
      StayMoves(s, t, Idle);
    } else if pc.CasWritten? {
      DiscardCasCarries(s, t, pc.key, pc.op, None);
    } else if pc.CasStaged? {
      DiscardCasCarries(s, t, pc.key, pc.op, pc.prev);
    }
  }

  lemma CasCarries(s: State, t: Tid, a: CasAction)
    requires Base(s) && PcOk(s, t)
    ensures Carries(s, CasStep(s, t, a), t)
  {
    hide Carries, PcOk, Base, CasStep;
    match a
    case ReadAbsent(_, _) => TokenCarries(s, t, a);
    case IssueToken(_) => TokenCarries(s, t, a);
    case ReturnToken => TokenCarries(s, t, a);
    case StartCas(k, op, bytes) => StartCasCarries(s, t, k, op, bytes);
    case RefreshCas(now) => RefreshCarries(s, t, now);
    case CheckDelete(_, _, _) => DeleteIfCarries(s, t, a);
    case StampDelete(_) => DeleteIfCarries(s, t, a);
    case FailCas => FailCasCarries(s, t);
    case MergeCas => MergeCarries(s, t);
    case ReadBack(_) => ReadBackCarries(s, t, a);
    case ReadBackFails(_) => ReadBackCarries(s, t, a);
  }

  lemma QueueCarries(s: State, t: Tid, a: QueueAction)
    requires Base(s) && PcOk(s, t)
    ensures Carries(s, QueueStep(s, t, a), t)
  {
    var s' := QueueStep(s, t, a);
    if s' != s {
      var pc := PcOf(s, t);
      match a {
        case QueueNext(p, ok) => QueueNextKeeps(s, t, pc.paths, p, ok);
        case FinishFlush => StayMoves(s, t, Idle);
      }
    }
  }

  lemma DropCarries(s: State, t: Tid, a: CompactAction)
    requires Base(s) && PcOk(s, t) && (a.DropCorrupt? || a.DropMissing?)
    ensures Carries(s, CompactStep(s, t, a), t)
  {
    hide Moved, RowsOk, QueueOk, OneRecompactor, SourcesOk, CompactBatchOk, AllDead, HeldBy;
    var pc, s' := PcOf(s, t), CompactStep(s, t, a);
    if s' != s {
      var (k, p) := if a.DropMissing? then (a.key, a.path) else (pc.loaded.value.key, pc.loaded.value.op.rawFilePath);
      DropBrokenKeeps(s, t, pc, k, p, PcOf(s', t));
    }
  }

  lemma StaleCarries(s: State, t: Tid, k: Key, p: Path)
    requires Base(s) && PcOk(s, t) && PcOf(s, t).Compacting?
    requires (k, p) in s.index && (k in s.rows ==> !RefersRaw(s.rows[k], p))
    ensures var pc := PcOf(s, t);
            Carries(s, Go(s.(queued := s.queued + {p}), t, pc.(drop := pc.drop + {(k, p)})), t)
  {
    var pc := PcOf(s, t);
    DropStaleKeeps(s, t, pc, k, p, pc.drop + {(k, p)});
  }

  lemma FoundCarries(s: State, t: Tid, k: Key, p: Path)
    requires Base(s) && PcOk(s, t) && PcOf(s, t).Compacting? && k in s.rows
    ensures var pc := PcOf(s, t);
            && Carries(s, Go(s, t, pc.(drop := pc.drop + {(k, p)})), t)
            && (RefersRaw(s.rows[k], p) ==> Carries(s, Go(s, t, pc.(loaded := Some(Staged(k, s.rows[k])))), t))
  {
    var pc := PcOf(s, t);
    DropEntryKeeps(s, t, pc, pc.drop + {(k, p)}, pc.loaded);
    if RefersRaw(s.rows[k], p) {
      LoadEntryKeeps(s, t, pc, k, p);
    }
  }

  lemma LoadCarries(s: State, t: Tid, k: Key, p: Path)
    requires Base(s) && PcOk(s, t)
    ensures Carries(s, CompactStep(s, t, LoadEntry(k, p)), t)
  {
    hide Carries, PcOk, Base;
    if CompactStep(s, t, LoadEntry(k, p)) != s {
      if k in s.rows && (s.rows[k].valueType == Segment || RefersRaw(s.rows[k], p)) {
        FoundCarries(s, t, k, p);
      } else {
        StaleCarries(s, t, k, p);
      }
    } else {
      StayCarries(s, t);
    }
  }

  lemma StayCarries(s: State, t: Tid)
    ensures Carries(s, s, t)
  {
  }

  lemma CompactCarries(s: State, t: Tid, a: CompactAction)
    requires Base(s) && PcOk(s, t)
    ensures Carries(s, CompactStep(s, t, a), t)
  {
    hide Moved, RowsOk, StoreOk, OneRecompactor, LoadedOk, CompactBatchOk, SourcesOk, AllDead, HeldBy,
         PutOk, VictimsOk, GuardOk, CasOk, MergedOk, RecompactingOk, SegDead;
    var pc, s' := PcOf(s, t), CompactStep(s, t, a);
    if s' != s {
      match a
      case StartCompact(dst) => StartCompactKeeps(s, t, dst);
      case LoadEntry(k, p) => LoadCarries(s, t, k, p);
      case CopyEntry(offset) => CopyEntryKeeps(s, t, pc, offset);
      case SkipEntry => DropEntryKeeps(s, t, pc, pc.drop, None);
      case DropCorrupt => DropCarries(s, t, a);
      case DropMissing(_, _) => DropCarries(s, t, a);
      case CommitCompact => CommitCompactKeeps(s, t, pc);
      case QueueSource(p, ok) => QueueSourceKeeps(s, t, pc, p, ok);
      case RollCompact(dst) => RollCompactKeeps(s, t, pc, dst);
      case StopCompact => ReleaseKeeps(s, t, pc.out);
    }
  }

  lemma LandRecompacting(s: State, s1: State, t: Tid, pc: Pc)
    requires pc.Recompacting? && Moved(s, Go(s1, t, pc), t) && RecompactingOk(Go(s1, t, pc), t, pc)
    ensures Carries(s, Go(s1, t, pc), t)
  {
    hide Moved, RecompactingOk;
  }

  lemma IsRecompacting(s: State, t: Tid)
    requires PcOk(s, t) && PcOf(s, t).Recompacting?
    ensures t in s.threads && RecompactingOk(s, t, PcOf(s, t))
  {
    hide RecompactingOk;
  }

  lemma VisitCarries(s: State, t: Tid, offset: int)
    requires Base(s) && PcOk(s, t)
    ensures Carries(s, RecompactStep(s, t, Visit(offset)), t)
  {
    hide Carries, PcOk, Base, Moved, RecompactingOk;
    var pc := PcOf(s, t);
    if RecompactStep(s, t, Visit(offset)) == s {
      StayCarries(s, t);
    } else {
      IsRecompacting(s, t);
      if PointsAt(s, pc.src, offset) {
        VisitLiveKeeps(s, t, pc, offset);
        LandRecompacting(s, s, t, pc.(found := Some((offset, s.rows[s.segs[pc.src].entries[offset].key]))));
      } else {
        VisitDeadKeeps(s, t, pc, offset);
        LandRecompacting(s, s, t, pc.(todo := pc.todo - {offset}));
      }
    }
  }

  lemma StartRecompactCarries(s: State, t: Tid, src: Path, dst: Path)
    requires Base(s) && PcOk(s, t)
    ensures Carries(s, RecompactStep(s, t, StartRecompact(src, dst)), t)
  {
    hide Moved, RowsOk, StoreOk, OneRecompactor, RecompactingOk, Acquirable, Acquire;
    if RecompactStep(s, t, StartRecompact(src, dst)) != s {
      StartRecompactKeeps(s, t, src, dst);
    }
  }

  /** A running recompactor goes on. */
  lemma RecompactWorkCarries(s: State, t: Tid, a: RecompactAction)
    requires Base(s) && PcOk(s, t) && (a.CopyLive? || a.GiveUp? || a.RollDestination?)
    ensures Carries(s, RecompactStep(s, t, a), t)
  {
    hide Carries, PcOk, Base, Moved, Acquirable;
    var pc, s' := PcOf(s, t), RecompactStep(s, t, a);
    if s' == s {
      StayCarries(s, t);
    } else {
      IsRecompacting(s, t);
      match a
      case CopyLive(offset) =>
        CopyLiveKeeps(s, t, pc, offset);
        LandRecompacting(s, Append(s, pc.dst, offset, s.segs[pc.src].entries[pc.found.value.0]), t, PcOf(s', t));
      case GiveUp =>
        GiveUpKeeps(s, t, pc);
        LandRecompacting(s, s, t, PcOf(s', t));
      case RollDestination(dst) =>
        RollDestinationKeeps(s, t, pc, dst);
        LandRecompacting(s, Roll(s, t, pc.dst, dst), t, PcOf(s', t));
    }
  }

  /** It commits or gives up, and retires its source. */
  lemma RecompactEndCarries(s: State, t: Tid, a: RecompactAction)
    requires Base(s) && PcOk(s, t) && (a.CommitRecompact? || a.AbortRecompact? || a.Retire?)
    ensures Carries(s, RecompactStep(s, t, a), t)
  {
    hide Moved, RowsOk, StoreOk, OneRecompactor, RecompactBatchOk, FoundOk, Covered, SegDead, HeldBy, ApplyBatch, SourceSegOk;
    var pc := PcOf(s, t);
    if RecompactStep(s, t, a) != s {
      match a
      case CommitRecompact => CommitRecompactKeeps(s, t, pc);
      case AbortRecompact => ReleaseKeeps(s, t, pc.dst);
      case Retire => RetireKeeps(s, t, pc.src);
    }
  }

  lemma RecompactCarries(s: State, t: Tid, a: RecompactAction)
    requires Base(s) && PcOk(s, t)
    ensures Carries(s, RecompactStep(s, t, a), t)
  {
    hide Carries, PcOk, Base, RecompactStep;
    match a
    case StartRecompact(src, dst) => StartRecompactCarries(s, t, src, dst);
    case Visit(offset) => VisitCarries(s, t, offset);
    case CopyLive(_) => RecompactWorkCarries(s, t, a);
    case GiveUp => RecompactWorkCarries(s, t, a);
    case RollDestination(_) => RecompactWorkCarries(s, t, a);
    case CommitRecompact => RecompactEndCarries(s, t, a);
    case AbortRecompact => RecompactEndCarries(s, t, a);
    case Retire => RecompactEndCarries(s, t, a);
  }

  // ---- Steps of nobody's ----

  lemma UnlinkSound(s: State, t: Tid, p: Path)
    requires Base(s) && p in s.queued
    ensures Sound(s, s.(gone := s.gone + {p}), t)
  {
    SameRowsSound(s, s.(gone := s.gone + {p}), t);
  }

  lemma DamageSound(s: State, t: Tid, p: Path)
    requires Base(s) && p in s.born
    ensures Sound(s, s.(damaged := s.damaged + {p}), t)
  {
    SameRowsSound(s, s.(damaged := s.damaged + {p}), t);
  }

  /** A late purge finds no row on the vanished file. */
  lemma PurgeSound(s: State, t: Tid, k: Key, p: Path)
    requires Base(s) && p in s.gone
    ensures Sound(s, s.(rows := MergeRow(s.rows, k, PurgeOf(p))), t)
  {
    var base := Lookup(s.rows, k);
    assert Fold(base, [PurgeOf(p)]) == Resolve(base, PurgeOf(p));
    if base.Some? {
      assert RowOk(s, k, s.rows[k]);
      assert s.(rows := MergeRow(s.rows, k, PurgeOf(p))) == s;
      StaySound(s, t);
    } else {
      TombstoneSound(s, t, k, 0);
    }
  }

  lemma QuietSound(s: State, a: EnvironmentAction, t: Tid)
    requires Base(s) && !a.Crash?
    ensures Sound(s, EnvironmentStep(s, a), t)
  {
    StaySound(s, t);
    match a {
      case Unlink(p) => if p in s.queued { UnlinkSound(s, t, p); }
      case Damage(p) => if p in s.born { DamageSound(s, t, p); }
      case Purge(k, p) => if p in s.gone { PurgeSound(s, t, k, p); }
    }
  }

  lemma CrashKeepsRows(s: State, s': State)
    requires RowsOk(s) && s' == EnvironmentStep(s, Crash)
    ensures RowsOk(s')
  {
    forall k | k in s'.rows ensures RowOk(s', k, s'.rows[k]) {
      assert RowOk(s, k, s.rows[k]);
    }
  }

  lemma CrashKeepsStore(s: State, s': State)
    requires StoreOk(s) && s' == EnvironmentStep(s, Crash)
    ensures StoreOk(s')
  {
    forall p | p in s'.queued && p in s'.born ensures Dead(s', p) {
      assert Dead(s, p);
    }
    forall g | g in s'.queued && g in s'.segs ensures SegDead(s', g) {
      assert SegDead(s, g);
    }
  }

  lemma CrashKeepsInv(s: State)
    requires Inv(s)
    ensures Inv(EnvironmentStep(s, Crash))
  {
    hide RowsOk, StoreOk;
    CrashKeepsRows(s, EnvironmentStep(s, Crash));
    CrashKeepsStore(s, EnvironmentStep(s, Crash));
  }

  // ---- All of them ----

  lemma Conclude(s: State, s': State, t: Tid)
    requires Inv(s) && Carries(s, s', t)
    ensures Inv(s')
  {
    if s' != s {
      forall u: Tid ensures PcOk(s', u) {
        if u != t {
          OthersPersist(s, s', t, u);
        }
      }
    }
  }

  lemma QuietKeepsInv(s: State, a: EnvironmentAction)
    requires Inv(s) && !a.Crash?
    ensures Inv(EnvironmentStep(s, a))
  {
    var s' := EnvironmentStep(s, a);
    QuietSound(s, a, 0);
    forall u: Tid ensures PcOk(s', u) {
      QuietSound(s, a, u + 1);
      OthersPersist(s, s', u + 1, u);
    }
  }

  lemma StepCarries(s: State, a: Action)
    requires !a.Environment? && Base(s) && PcOk(s, a.t)
    ensures Carries(s, Step(s, a), a.t)
  {
    hide Carries, PcOk, Base, PutStep, DeleteStep, CasStep, QueueStep, CompactStep, RecompactStep;
    match a
    case Putting(t, put) => PutCarries(s, t, put);
    case Removing(t, remove) => DeleteCarries(s, t, remove);
    case Swapping(t, cas) => CasCarries(s, t, cas);
    case Queueing(t, queue) => QueueCarries(s, t, queue);
    case Compaction(t, compact) => CompactCarries(s, t, compact);
    case Recompaction(t, recompact) => RecompactCarries(s, t, recompact);
  }

  lemma StepKeepsInv(s: State, a: Action)
    requires Inv(s)
    ensures Inv(Step(s, a))
  {
    hide Carries, PcOk, RowsOk, StoreOk, OneRecompactor, PutStep, DeleteStep, CasStep, QueueStep, CompactStep, RecompactStep;
    if !a.Environment? {
      assert PcOk(s, a.t);
      StepCarries(s, a);
      Conclude(s, Step(s, a), a.t);
    } else if a.env.Crash? {
      CrashKeepsInv(s);
    } else {
      QuietKeepsInv(s, a.env);
    }
  }

  lemma {:induction false} RunFromKeepsInv(s: State, run: seq<Action>)
    requires Inv(s)
    ensures Inv(After(s, run))
  {
    if run != [] {
      RunFromKeepsInv(s, run[..|run| - 1]);
      StepKeepsInv(After(s, run[..|run| - 1]), run[|run| - 1]);
    }
  }

  /** The invariant holds after every run from the empty store. */
  lemma {:induction false} RunKeepsInv(run: seq<Action>)
    ensures Inv(After(INIT, run))
  {
    RunFromKeepsInv(INIT, run);
  }
}
