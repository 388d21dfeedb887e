/** The storage layer as one state machine: foreground puts and deletes,
    compare-and-swap writes, eviction and expiry, the file compactor, the segment
    recompactor, the deletion queue and crashes, each cut into the atomic steps
    between which the others may run (storage/storage.go, storage/cas.go,
    storage/eviction.go, storage/compaction, storage/deletion/queue.go). */
module Storage {
  import opened Rows
  import opened Merge

  type Tid = nat

  /** What was fixed when a raw file was written; its path is never used again. */
  datatype Birth = Birth(key: Key, bytes: Bytes, expiry: int, version: nat)

  datatype Entry = Entry(key: Key, bytes: Bytes)

  /** A segment file; `holder` is the caller that has it reserved. */
  datatype Seg = Seg(entries: map<int, Entry>, closed: bool, holder: Option<Tid>)

  /** A merge staged in a write batch. */
  datatype Staged = Staged(key: Key, op: ValueMessage)

  /** Where a thread is between two of its atomic steps. `asked` is the version the caller of
      a conditional write named, whatever its operand expects. */
  datatype Pc =
    | Idle
    | PutWritten(key: Key, row: ValueMessage)
    | PutStaged(key: Key, row: ValueMessage, prev: Option<ValueMessage>)
    | Deleting(victims: map<Key, ValueMessage>)
    | TokenWanted(key: Key)
    | TokenRead(key: Key, token: nat)
    | CasChecked(key: Key, guard: nat, prev: Option<ValueMessage>, asked: nat)
    | CasWritten(key: Key, op: ValueMessage)
    | CasStaged(key: Key, op: ValueMessage, prev: Option<ValueMessage>, asked: nat)
    | CasMerged(key: Key, op: ValueMessage, prev: Option<ValueMessage>, admitted: bool)
    | Flushing(paths: set<Path>)
    | Compacting(out: Path, loaded: Option<Staged>, merges: seq<Staged>,
                 drop: set<(Key, Path)>, sources: set<Path>, flush: set<Path>)
    | Recompacting(src: Path, todo: set<int>, found: Option<(int, ValueMessage)>,
                   dst: Path, dsts: set<Path>, batch: seq<Staged>, failed: bool)
    | Retiring(src: Path)

  datatype State = State(
    rows: map<Key, ValueMessage>,
    born: map<Path, Birth>,          // every raw file ever written
    private: map<Path, Tid>,         // raw files no row has referenced yet, with their writer
    segs: map<Path, Seg>,            // every segment ever created
    index: set<(Key, Path)>,         // the compaction index
    queued: set<Path>,               // every path ever handed to the deletion queue
    gone: set<Path>,                 // paths the queue has unlinked
    damaged: set<Path>,              // raw files whose size no longer matches
    lastStamp: nat,
    owners: map<nat, Tid>,           // who drew each stamp
    threads: map<Tid, Pc>)

  const INIT := State(map[], map[], map[], map[], {}, {}, {}, {}, VERSION_LEGACY, map[], map[])

  /** A plain put: write the file, read the row it will replace, commit or fail. */
  datatype PutAction =
    | StartPut(key: Key, row: ValueMessage, bytes: Bytes)
    | ReadPrev(fails: bool)
    | CommitPut(indexed: bool)
    | FailPut

  /** A delete, an eviction or an expiry sweep: collect rows, then remove them in one batch. */
  datatype DeleteAction =
    | Collect(key: Key)
    | CommitDelete
    | AbandonDelete

  /** A read of an absent key returns its fence, or draws a stamp as the token. A conditional
      put draws its stamp, spills, and reads the row again; a conditional delete reads the row
      and then draws its stamp. Both then merge and read back. */
  datatype CasAction =
    | ReadAbsent(key: Key, now: int)
    | IssueToken(stamp: nat)
    | ReturnToken
    | StartCas(key: Key, op: ValueMessage, bytes: Bytes)
    | RefreshCas(now: int)
    | CheckDelete(key: Key, expected: nat, now: int)
    | StampDelete(stamp: nat)
    | FailCas
    | MergeCas
    | ReadBack(indexed: bool)
    | ReadBackFails(indexed: bool)

  /** Handing the paths a writer left behind to the deletion queue. */
  datatype QueueAction =
    | QueueNext(path: Path, ok: bool)
    | FinishFlush

  /** The file compactor. */
  datatype CompactAction =
    | StartCompact(dst: Path)
    | LoadEntry(key: Key, path: Path)
    | CopyEntry(offset: int)
    | SkipEntry
    | DropCorrupt
    | DropMissing(key: Key, path: Path)
    | CommitCompact
    | QueueSource(path: Path, ok: bool)
    | RollCompact(dst: Path)
    | StopCompact

  /** The segment recompactor. */
  datatype RecompactAction =
    | StartRecompact(src: Path, dst: Path)
    | Visit(offset: int)
    | CopyLive(offset: int)
    | GiveUp
    | RollDestination(dst: Path)
    | CommitRecompact
    | AbortRecompact
    | Retire

  /** The queue unlinking a file, a reader purging a vanished one, damage, a crash. */
  datatype EnvironmentAction =
    | Unlink(path: Path)
    | Purge(key: Key, path: Path)
    | Damage(path: Path)
    | Crash

  datatype Action =
    | Putting(t: Tid, put: PutAction)
    | Removing(t: Tid, remove: DeleteAction)
    | Swapping(t: Tid, cas: CasAction)
    | Queueing(t: Tid, queue: QueueAction)
    | Compaction(t: Tid, compact: CompactAction)
    | Recompaction(t: Tid, recompact: RecompactAction)
    | Environment(env: EnvironmentAction)

  function PcOf(s: State, t: Tid): Pc {
    if t in s.threads then s.threads[t] else Idle
  }

  function Go(s: State, t: Tid, pc: Pc): State {
    s.(threads := s.threads[t := pc])
  }

  // ---- Pieces of the steps ----

  /** The raw file a row or operand names, if any. */
  function RawPaths(vm: Option<ValueMessage>): set<Path> {
    if vm.Some? && vm.value.valueType == RawFile then {vm.value.rawFilePath} else {}
  }

  function MergeRow(rows: map<Key, ValueMessage>, k: Key, op: ValueMessage): map<Key, ValueMessage> {
    rows[k := Merged(Lookup(rows, k), [op])]
  }

  /** An atomic batch of merges, in order. */
  function ApplyBatch(rows: map<Key, ValueMessage>, batch: seq<Staged>): map<Key, ValueMessage>
    decreases |batch|
  {
    if batch == [] then rows else ApplyBatch(MergeRow(rows, batch[0].key, batch[0].op), batch[1..])
  }

  datatype CasState = CasAbsent | CasFenced | CasLive

  /** casClassify: the state of a row read at `now`, and the version that goes with it. */
  function Classify(row: Option<ValueMessage>, now: int): (CasState, nat) {
    match row
    case None => (CasAbsent, 0)
    case Some(vm) =>
      if IsTombstone(vm) then if vm.version == 0 then (CasAbsent, 0) else (CasFenced, vm.version)
      else if vm.expiry > 0 && now >= vm.expiry then (CasAbsent, 0)
      else (CasLive, EffectiveRowVersion(vm))
  }

  predicate CasAdmits(state: CasState, cur: nat, expected: nat) {
    match state
    case CasLive => cur == expected
    case CasFenced => expected == 0 || expected >= cur
    case CasAbsent => true
  }

  /** The pre-merge check: a delete on a plainly absent key must carry 0. */
  predicate Proceeds(op: ValueMessage, prev: Option<ValueMessage>, now: int) {
    var (state, cur) := Classify(prev, now);
    if op.opType == CasDelete && state == CasAbsent then op.casExpected == 0
    else CasAdmits(state, cur, op.casExpected)
  }

  /** The operator is clock-blind, so an expired live row's precondition becomes its stored version. */
  function Translate(op: ValueMessage, prev: Option<ValueMessage>, now: int): ValueMessage {
    if Classify(prev, now).0 == CasAbsent && prev.Some? && !IsTombstone(prev.value)
    then op.(casExpected := EffectiveRowVersion(prev.value))
    else op
  }

  /** Records a raw file on its way out of `t`'s hands. */
  function Publish(s: State, vm: ValueMessage): State {
    s.(private := s.private - RawPaths(Some(vm)))
  }

  /** Writes the raw file of a new row or operand, if it has one. */
  function WriteFile(s: State, t: Tid, k: Key, vm: ValueMessage, bytes: Bytes): State {
    if vm.valueType != RawFile then s
    else s.(born := s.born[vm.rawFilePath := Birth(k, bytes, vm.expiry, vm.version)],
            private := s.private[vm.rawFilePath := t])
  }

  /** A row a writer may prepare: inline, or in a raw file of its own under a fresh path. */
  predicate Preparable(s: State, vm: ValueMessage, bytes: Bytes) {
    && StoredForm(vm) && !IsTombstone(vm)
    && vm.valueType != Segment
    && vm.valueLength == |bytes|
    && (vm.valueType == Inline ==> vm.data == bytes)
    && (vm.valueType == RawFile ==> vm.rawFilePath !in s.born && vm.rawFilePath !in s.segs)
  }

  predicate Acquirable(s: State, dst: Path) {
    if dst in s.segs then !s.segs[dst].closed && s.segs[dst].holder.None?
    else dst != "" && dst !in s.born
  }

  function Acquire(s: State, t: Tid, dst: Path): State {
    s.(segs := s.segs[dst := Seg(if dst in s.segs then s.segs[dst].entries else map[], false, Some(t))])
  }

  function Release(s: State, dst: Path, close: bool): State
    requires dst in s.segs
  {
    s.(segs := s.segs[dst := s.segs[dst].(closed := close, holder := None)])
  }

  function Append(s: State, dst: Path, offset: int, e: Entry): State
    requires dst in s.segs
  {
    s.(segs := s.segs[dst := s.segs[dst].(entries := s.segs[dst].entries[offset := e])])
  }

  /** The migration operand: the row with its new location, and the path it was read at as precondition. */
  function MigrationOf(vm: ValueMessage, source: Path, dst: Path, offset: int): ValueMessage {
    vm.(valueType := Segment, rawFilePath := source, segmentPath := dst, segmentOffset := offset)
  }

  function PurgeOf(p: Path): ValueMessage {
    Tombstone(0).(expiry := 0, valueType := RawFile, rawFilePath := p)
  }

  /** The row of the entry's key is this very entry. */
  predicate PointsAt(s: State, src: Path, offset: int)
    requires src in s.segs && offset in s.segs[src].entries
  {
    var k := s.segs[src].entries[offset].key;
    k in s.rows && RefersSegment(s.rows[k], src) && s.rows[k].segmentOffset == offset
  }

  predicate Recompactor(pc: Pc) {
    pc.Recompacting? || pc.Retiring?
  }

  // ---- The steps ----

  function PutStep(s: State, t: Tid, a: PutAction): State {
    match a
    case StartPut(k, row, bytes) =>
      if PcOf(s, t).Idle? && Preparable(s, row, bytes) && row.version == 0
      then Go(WriteFile(s, t, k, row, bytes), t, PutWritten(k, row)) else s
    case ReadPrev(fails) =>
      (match PcOf(s, t)
       case PutWritten(k, row) => Go(s, t, PutStaged(k, row, if fails then None else Lookup(s.rows, k)))
       case _ => s)
    case CommitPut(indexed) =>
      (match PcOf(s, t)
       case PutStaged(k, row, prev) =>
         Go(Publish(s, row).(rows := s.rows[k := row],
                             index := if indexed && row.valueType == RawFile then s.index + {(k, row.rawFilePath)} else s.index),
            t, Flushing(RawPaths(prev)))
       case _ => s)
    case FailPut =>
      (match PcOf(s, t)
       case PutStaged(k, row, prev) => Go(Publish(s, row), t, Flushing(RawPaths(Some(row))))
       case _ => s)
  }

  function DeleteStep(s: State, t: Tid, a: DeleteAction): State {
    match a
    case Collect(k) =>
      if k !in s.rows then s
      else
        (match PcOf(s, t)
         case Idle => Go(s, t, Deleting(map[k := s.rows[k]]))
         case Deleting(m) => if k in m then s else Go(s, t, Deleting(m[k := s.rows[k]]))
         case _ => s)
    case CommitDelete =>
      (match PcOf(s, t)
       case Deleting(m) =>
         Go(s.(rows := s.rows - m.Keys), t,
            Flushing(set k | k in m && m[k].valueType == RawFile :: m[k].rawFilePath))
       case _ => s)
    case AbandonDelete => if PcOf(s, t).Deleting? then Go(s, t, Idle) else s
  }

  function CasStep(s: State, t: Tid, a: CasAction): State {
    match a
    case ReadAbsent(k, now) =>
      var (state, fence) := Classify(Lookup(s.rows, k), now);
      if !PcOf(s, t).Idle? || state == CasLive then s
      else Go(s, t, if state == CasFenced then TokenRead(k, fence) else TokenWanted(k))
    case IssueToken(stamp) =>
      (match PcOf(s, t)
       case TokenWanted(k) =>
         if stamp <= s.lastStamp then s
         else Go(s, t, TokenRead(k, stamp)).(lastStamp := stamp, owners := s.owners[stamp := t])
       case _ => s)
    case ReturnToken => if PcOf(s, t).TokenWanted? || PcOf(s, t).TokenRead? then Go(s, t, Idle) else s
    case StartCas(k, op, bytes) =>
      if PcOf(s, t).Idle? && op.version > s.lastStamp && op.opType == CasPut && Preparable(s, Adopt(op), bytes)
      then Go(WriteFile(s, t, k, op, bytes), t, CasWritten(k, op))
           .(lastStamp := op.version, owners := s.owners[op.version := t])
      else s
    case RefreshCas(now) =>
      (match PcOf(s, t)
       case CasWritten(k, op) =>
         var prev := Lookup(s.rows, k);
         if Proceeds(op, prev, now) then Go(s, t, CasStaged(k, Translate(op, prev, now), prev, op.casExpected))
         else Go(Publish(s, op), t, Flushing(RawPaths(Some(op))))
       case _ => s)
    case CheckDelete(k, expected, now) =>
      var guarded, prev := DeleteOperand(0, expected), Lookup(s.rows, k);
      if PcOf(s, t).Idle? && Proceeds(guarded, prev, now)
      then Go(s, t, CasChecked(k, Translate(guarded, prev, now).casExpected, prev, expected)) else s
    case StampDelete(stamp) =>
      (match PcOf(s, t)
       case CasChecked(k, guard, prev, asked) =>
         if stamp <= s.lastStamp then s
         else Go(s, t, CasStaged(k, DeleteOperand(stamp, guard), prev, asked)).(lastStamp := stamp, owners := s.owners[stamp := t])
       case _ => s)
    case FailCas =>
      (match PcOf(s, t)
       case CasChecked(_, _, _, _) => Go(s, t, Idle)
       case CasWritten(k, op) => Go(Publish(s, op), t, Flushing(RawPaths(Some(op))))
       case CasStaged(k, op, prev, _) => Go(Publish(s, op), t, Flushing(RawPaths(Some(op))))
       case _ => s)
    case MergeCas =>
      (match PcOf(s, t)
       case CasStaged(k, op, prev, _) =>
         Go(Publish(s, op).(rows := MergeRow(s.rows, k, op)),
            t, CasMerged(k, op, prev, Admits(Lookup(s.rows, k), op)))
       case _ => s)
    case ReadBack(indexed) =>
      (match PcOf(s, t)
       case CasMerged(k, op, prev, admitted) =>
         if Reports(s, k, op) then
           Go(s.(index := if indexed && op.valueType == RawFile then s.index + {(k, op.rawFilePath)} else s.index),
              t, Flushing(RawPaths(prev)))
         else Go(s, t, Flushing(RawPaths(Some(op))))
       case _ => s)
    case ReadBackFails(indexed) =>
      (match PcOf(s, t)
       case CasMerged(k, op, prev, admitted) =>
         Go(s.(index := if indexed && op.valueType == RawFile then s.index + {(k, op.rawFilePath)} else s.index),
            t, Flushing(RawPaths(prev)))
       case _ => s)
  }

  /** The read-back reports success: the row carries the operand's own stamp. */
  predicate Reports(s: State, k: Key, op: ValueMessage) {
    k in s.rows && s.rows[k].version == op.version
  }

  function QueueStep(s: State, t: Tid, a: QueueAction): State {
    match a
    case QueueNext(p, ok) =>
      (match PcOf(s, t)
       case Flushing(paths) =>
         if p !in paths then s
         else Go(s.(queued := if ok then s.queued + {p} else s.queued), t, Flushing(paths - {p}))
       case _ => s)
    case FinishFlush => if PcOf(s, t) == Flushing({}) then Go(s, t, Idle) else s
  }

  function CompactStep(s: State, t: Tid, a: CompactAction): State {
    var pc := PcOf(s, t);
    match a
    case StartCompact(dst) =>
      if pc.Idle? && Acquirable(s, dst) then Go(Acquire(s, t, dst), t, Compacting(dst, None, [], {}, {}, {})) else s
    case LoadEntry(k, p) =>
      if !pc.Compacting? || pc.loaded.Some? || (k, p) !in s.index || p in s.gone then s
      else
        var row := Lookup(s.rows, k);
        var dropped := pc.(drop := pc.drop + {(k, p)});
        if row.Some? && row.value.valueType == Segment then Go(s, t, dropped)
        else if row.Some? && RefersRaw(row.value, p) then Go(s, t, pc.(loaded := Some(Staged(k, row.value))))
        else Go(s.(queued := s.queued + {p}), t, dropped)
    case CopyEntry(offset) =>
      if !pc.Compacting? || pc.loaded.None? || pc.out !in s.segs || offset in s.segs[pc.out].entries then s
      else
        var k, vm := pc.loaded.value.key, pc.loaded.value.op;
        var p := vm.rawFilePath;
        if p !in s.born || p in s.gone || p in s.damaged then s
        else
          Go(Append(s, pc.out, offset, Entry(k, s.born[p].bytes)), t,
             pc.(loaded := None,
                 merges := pc.merges + [Staged(k, MigrationOf(vm, p, pc.out, offset))],
                 drop := pc.drop + {(k, p)},
                 sources := pc.sources + {p}))
    case SkipEntry => if pc.Compacting? then Go(s, t, pc.(loaded := None)) else s
    case DropCorrupt =>
      if !pc.Compacting? || pc.loaded.None? || pc.loaded.value.op.rawFilePath !in s.damaged then s
      else
        var k, p := pc.loaded.value.key, pc.loaded.value.op.rawFilePath;
        Go(s, t, pc.(loaded := None,
                     merges := if k in s.rows then pc.merges + [Staged(k, PurgeOf(p))] else pc.merges,
                     drop := pc.drop + {(k, p)},
                     sources := pc.sources + {p}))
    case DropMissing(k, p) =>
      if !pc.Compacting? || (k, p) !in s.index || p !in s.gone then s
      else
        Go(s, t, pc.(merges := if k in s.rows then pc.merges + [Staged(k, PurgeOf(p))] else pc.merges,
                     drop := pc.drop + {(k, p)}))
    case CommitCompact =>
      if !pc.Compacting? then s
      else Go(s.(rows := ApplyBatch(s.rows, pc.merges), index := s.index - pc.drop), t,
              pc.(merges := [], drop := {}, sources := {}, flush := pc.flush + pc.sources))
    case QueueSource(p, ok) =>
      if !pc.Compacting? || p !in pc.flush then s
      else Go(s.(queued := if ok then s.queued + {p} else s.queued), t, pc.(flush := pc.flush - {p}))
    case RollCompact(dst) =>
      if !pc.Compacting? || pc.merges != [] || pc.sources + pc.flush != {} || pc.out !in s.segs ||
         dst == pc.out || !Acquirable(s, dst) then s
      else Go(Acquire(Release(s, pc.out, true), t, dst), t, pc.(out := dst))
    case StopCompact =>
      if !pc.Compacting? || pc.flush != {} || pc.out !in s.segs then s
      else Go(Release(s, pc.out, false), t, Idle)
  }

  function RecompactStep(s: State, t: Tid, a: RecompactAction): State {
    var pc := PcOf(s, t);
    match a
    case StartRecompact(src, dst) =>
      if && pc.Idle? && src in s.segs && s.segs[src].closed && src !in s.queued
         && (forall u :: u in s.threads ==> !Recompactor(s.threads[u])) && Acquirable(s, dst)
      then Go(Acquire(s, t, dst), t,
              Recompacting(src, s.segs[src].entries.Keys, None, dst, {dst}, [], false))
      else s
    case Visit(offset) =>
      if !pc.Recompacting? || pc.found.Some? || offset !in pc.todo ||
         pc.src !in s.segs || offset !in s.segs[pc.src].entries then s
      else
        if PointsAt(s, pc.src, offset)
        then Go(s, t, pc.(found := Some((offset, s.rows[s.segs[pc.src].entries[offset].key]))))
        else Go(s, t, pc.(todo := pc.todo - {offset}))
    case CopyLive(offset) =>
      if !pc.Recompacting? || pc.found.None? || pc.src !in s.segs || pc.dst !in s.segs ||
         pc.found.value.0 !in s.segs[pc.src].entries || offset in s.segs[pc.dst].entries then s
      else
        var e := s.segs[pc.src].entries[pc.found.value.0];
        Go(Append(s, pc.dst, offset, e), t,
           pc.(found := None, todo := pc.todo - {pc.found.value.0},
               batch := pc.batch + [Staged(e.key, MigrationOf(pc.found.value.1, pc.src, pc.dst, offset))]))
    case GiveUp => if pc.Recompacting? then Go(s, t, pc.(found := None, failed := true)) else s
    case RollDestination(dst) =>
      if !pc.Recompacting? || pc.dst !in s.segs || dst == pc.dst || !Acquirable(s, dst) then s
      else Go(Acquire(Release(s, pc.dst, true), t, dst), t, pc.(dst := dst, dsts := pc.dsts + {dst}))
    case CommitRecompact =>
      if !pc.Recompacting? || pc.dst !in s.segs || (pc.todo != {} && !pc.failed) then s
      else Go(Release(s, pc.dst, false).(rows := ApplyBatch(s.rows, pc.batch)), t,
              if pc.failed then Idle else Retiring(pc.src))
    case AbortRecompact =>
      if !pc.Recompacting? || pc.dst !in s.segs then s
      else Go(Release(s, pc.dst, false), t, Idle)
    case Retire =>
      if !pc.Retiring? then s else Go(s.(queued := s.queued + {pc.src}), t, Idle)
  }

  function EnvironmentStep(s: State, a: EnvironmentAction): State {
    match a
    case Unlink(p) => if p in s.queued then s.(gone := s.gone + {p}) else s
    case Purge(k, p) => if p in s.gone && p != "" then s.(rows := MergeRow(s.rows, k, PurgeOf(p))) else s
    case Damage(p) => if p in s.born then s.(damaged := s.damaged + {p}) else s
    case Crash => s.(threads := map[], segs := map g | g in s.segs :: s.segs[g].(holder := None))
  }

  /** One atomic step; an action that is not enabled does nothing. */
  function Step(s: State, a: Action): State {
    match a
    case Putting(t, put) => PutStep(s, t, put)
    case Removing(t, remove) => DeleteStep(s, t, remove)
    case Swapping(t, cas) => CasStep(s, t, cas)
    case Queueing(t, queue) => QueueStep(s, t, queue)
    case Compaction(t, compact) => CompactStep(s, t, compact)
    case Recompaction(t, recompact) => RecompactStep(s, t, recompact)
    case Environment(env) => EnvironmentStep(s, env)
  }

  function After(s: State, run: seq<Action>): State {
    if run == [] then s else Step(After(s, run[..|run| - 1]), run[|run| - 1])
  }
}
