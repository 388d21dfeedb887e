/** What holds in every state of the storage machine: what each row promises,
    what each thread may rely on between its steps, and how little of it a step
    of another thread can disturb. */
module StorageInvariant {
  import opened Rows
  import opened Merge
  import opened Storage

  // ---- What each thread may rely on ----

  /** No row references `p` and none ever will again. */
  ghost predicate Dead(s: State, p: Path) {
    && p in s.born && p !in s.private
    && (forall k :: k in s.rows ==> !RefersRaw(s.rows[k], p))
  }

  ghost predicate SegDead(s: State, g: Path) {
    forall k :: k in s.rows ==> !RefersSegment(s.rows[k], g)
  }

  ghost predicate Unseen(s: State, stamp: nat) {
    forall k :: k in s.rows ==> s.rows[k].version != stamp
  }

  /** A row or put operand `t` has prepared and not installed. */
  ghost predicate FreshOk(s: State, t: Tid, k: Key, vm: ValueMessage) {
    && StoredForm(vm) && !IsTombstone(vm) && vm.valueType != Segment
    && (vm.valueType == Inline ==> vm.valueLength == |vm.data|)
    && (vm.valueType == RawFile ==>
          && vm.rawFilePath in s.born && vm.rawFilePath in s.private && s.private[vm.rawFilePath] == t
          && BirthMatches(s, k, vm))
  }

  ghost predicate BirthMatches(s: State, k: Key, vm: ValueMessage)
    requires vm.rawFilePath in s.born
  {
    var b := s.born[vm.rawFilePath];
    b.key == k && b.expiry == vm.expiry && b.version == vm.version && vm.valueLength == |b.bytes|
  }

  /** A row `t` read earlier and may now be stale. */
  ghost predicate PrevOk(s: State, k: Key, prev: Option<ValueMessage>) {
    prev.Some? && prev.value.valueType == RawFile ==>
      && prev.value.rawFilePath in s.born && prev.value.rawFilePath !in s.private
      && BirthMatches(s, k, prev.value) && StoredForm(prev.value)
  }

  ghost predicate OperandOk(s: State, t: Tid, k: Key, op: ValueMessage) {
    && op.opType != NoOp
    && op.version in s.owners && s.owners[op.version] == t
    && VERSION_LEGACY < op.version <= s.lastStamp
    && (op.opType == CasPut ==> FreshOk(s, t, k, Adopt(op)))
    && (op.opType == CasDelete ==> op == DeleteOperand(op.version, op.casExpected))
  }

  /** A staged migration of a row of `k` out of `op.rawFilePath` into one of `dsts`. */
  ghost predicate TargetOk(s: State, k: Key, op: ValueMessage, dsts: set<Path>) {
    && IsMigration(op) && op.casExpected == 0 && !IsTombstone(op)
    && op.segmentPath in dsts && op.segmentPath in s.segs && op.segmentPath != ""
    && op.segmentOffset in s.segs[op.segmentPath].entries
    && s.segs[op.segmentPath].entries[op.segmentOffset].key == k
    && op.valueLength == |TargetBytes(s, op)|
  }

  ghost function TargetBytes(s: State, op: ValueMessage): Bytes
    requires op.segmentPath in s.segs && op.segmentOffset in s.segs[op.segmentPath].entries
  {
    s.segs[op.segmentPath].entries[op.segmentOffset].bytes
  }

  ghost predicate FromRaw(s: State, k: Key, op: ValueMessage, dsts: set<Path>) {
    && TargetOk(s, k, op, dsts)
    && op.rawFilePath in s.born && op.rawFilePath !in s.private
    && s.born[op.rawFilePath].key == k
    && s.born[op.rawFilePath].expiry == op.expiry
    && s.born[op.rawFilePath].bytes == TargetBytes(s, op)
  }

  /** Any row of `k` still in segment `src` is the entry at `offset` with this expiry. */
  ghost predicate OnlyAt(s: State, k: Key, src: Path, offset: int, expiry: int) {
    k in s.rows && RefersSegment(s.rows[k], src) ==> s.rows[k].segmentOffset == offset && s.rows[k].expiry == expiry
  }

  ghost predicate FromSegment(s: State, k: Key, op: ValueMessage, src: Path, dsts: set<Path>) {
    && TargetOk(s, k, op, dsts)
    && op.rawFilePath == src && src in s.segs
    && exists o :: o in s.segs[src].entries && s.segs[src].entries[o].bytes == TargetBytes(s, op)
                   && OnlyAt(s, k, src, o, op.expiry)
  }

  ghost predicate PurgeStaged(s: State, k: Key, op: ValueMessage) {
    && op == PurgeOf(op.rawFilePath) && op.rawFilePath != ""
    && op.rawFilePath in s.damaged + s.gone
  }

  ghost predicate CompactBatchOk(s: State, batch: seq<Staged>, dst: Path) {
    forall i :: 0 <= i < |batch| ==>
      FromRaw(s, batch[i].key, batch[i].op, {dst}) || PurgeStaged(s, batch[i].key, batch[i].op)
  }

  ghost predicate RecompactBatchOk(s: State, batch: seq<Staged>, src: Path, dsts: set<Path>) {
    forall i :: 0 <= i < |batch| ==> FromSegment(s, batch[i].key, batch[i].op, src, dsts)
  }

  /** Some staged operand takes the row of `k` off path `p`. */
  predicate Clears(batch: seq<Staged>, k: Key, p: Path) {
    exists i :: 0 <= i < |batch| && batch[i].key == k && batch[i].op.rawFilePath == p
  }

  ghost predicate PutOk(s: State, t: Tid, k: Key, row: ValueMessage, prev: Option<ValueMessage>) {
    FreshOk(s, t, k, row) && row.version == 0 && PrevOk(s, k, prev)
  }

  ghost predicate VictimsOk(s: State, m: map<Key, ValueMessage>) {
    forall k :: k in m ==> PrevOk(s, k, Some(m[k]))
  }

  /** What a conditional write will expect at its merge: if it saw a row on a raw file,
      exactly that row's version. */
  ghost predicate GuardOk(s: State, k: Key, guard: nat, prev: Option<ValueMessage>) {
    PrevOk(s, k, prev) && (prev.Some? && prev.value.valueType == RawFile ==> guard == EffectiveRowVersion(prev.value))
  }

  /** It expects what its caller asked for, or the version of a row it found expired. */
  ghost predicate AskedOk(asked: nat, guard: nat, prev: Option<ValueMessage>) {
    guard == asked ||
    (prev.Some? && !IsTombstone(prev.value) && prev.value.expiry > 0 && guard == EffectiveRowVersion(prev.value))
  }

  /** A conditional write before its merge: its stamp is nobody's. */
  ghost predicate CasOk(s: State, t: Tid, k: Key, op: ValueMessage, prev: Option<ValueMessage>) {
    OperandOk(s, t, k, op) && Unseen(s, op.version) && GuardOk(s, k, op.casExpected, prev)
  }

  /** After its merge: what it replaced is dead, and if it was refused so is its own file. */
  ghost predicate MergedOk(s: State, t: Tid, k: Key, op: ValueMessage, prev: Option<ValueMessage>, admitted: bool) {
    && op.version in s.owners && s.owners[op.version] == t && op.version > VERSION_LEGACY
    && (!admitted ==> Unseen(s, op.version))
    && AllDead(s, RawPaths(prev))
    && (!admitted ==> AllDead(s, RawPaths(Some(op))))
    && (forall q :: q in RawPaths(Some(op)) ==>
          q in s.born && q !in s.private && s.born[q].key == k && s.born[q].version == op.version)
  }

  ghost predicate AllDead(s: State, paths: set<Path>) {
    forall p :: p in paths ==> Dead(s, p)
  }

  ghost predicate LoadedOk(s: State, loaded: Option<Staged>) {
    loaded.Some? ==> loaded.value.op.valueType == RawFile && PrevOk(s, loaded.value.key, Some(loaded.value.op))
  }

  ghost predicate SourcesOk(s: State, batch: seq<Staged>, sources: set<Path>) {
    forall p :: p in sources ==> p in s.born && p !in s.private && (Dead(s, p) || Clears(batch, s.born[p].key, p))
  }

  ghost predicate HeldBy(s: State, t: Tid, dst: Path) {
    dst in s.segs && !s.segs[dst].closed && s.segs[dst].holder == Some(t)
  }

  ghost predicate CompactOk(s: State, t: Tid, pc: Pc)
    requires pc.Compacting?
  {
    && HeldBy(s, t, pc.out) && LoadedOk(s, pc.loaded) && CompactBatchOk(s, pc.merges, pc.out)
    && SourcesOk(s, pc.merges, pc.sources) && AllDead(s, pc.flush)
  }

  ghost predicate SourceSegOk(s: State, src: Path) {
    src in s.segs && s.segs[src].closed && src !in s.queued
  }

  ghost predicate DestinationsOk(s: State, t: Tid, dst: Path, dsts: set<Path>) {
    && dst in dsts && HeldBy(s, t, dst)
    && dsts <= s.segs.Keys && dsts !! s.queued
    && (forall g :: g in dsts && g != dst ==> s.segs[g].closed)
  }

  /** Every row still in the source segment is yet to be visited or has its move staged. */
  ghost predicate Covered(s: State, src: Path, todo: set<int>, batch: seq<Staged>) {
    forall k :: k in s.rows && RefersSegment(s.rows[k], src) ==> s.rows[k].segmentOffset in todo || Clears(batch, k, src)
  }

  ghost predicate RecompactingOk(s: State, t: Tid, pc: Pc)
    requires pc.Recompacting?
  {
    && SourceSegOk(s, pc.src) && pc.src !in pc.dsts
    && DestinationsOk(s, t, pc.dst, pc.dsts)
    && RecompactBatchOk(s, pc.batch, pc.src, pc.dsts)
    && (pc.found.Some? ==> FoundOk(s, pc.src, pc.todo, pc.found.value.0, pc.found.value.1))
    && (pc.failed || Covered(s, pc.src, pc.todo, pc.batch))
  }

  ghost predicate PcOk(s: State, t: Tid) {
    match PcOf(s, t)
    case Idle => true
    case PutWritten(k, row) => PutOk(s, t, k, row, None)
    case PutStaged(k, row, prev) => PutOk(s, t, k, row, prev)
    case Deleting(m) => VictimsOk(s, m)
    case TokenWanted(_) => true
    case TokenRead(_, _) => true
    case CasChecked(k, guard, prev, asked) => GuardOk(s, k, guard, prev) && AskedOk(asked, guard, prev)
    case CasWritten(k, op) => CasOk(s, t, k, op, None)
    case CasStaged(k, op, prev, asked) => CasOk(s, t, k, op, prev) && AskedOk(asked, op.casExpected, prev)
    case CasMerged(k, op, prev, admitted) => MergedOk(s, t, k, op, prev, admitted)
    case Flushing(paths) => AllDead(s, paths)
    case Compacting(_, _, _, _, _, _) => CompactOk(s, t, PcOf(s, t))
    case Recompacting(_, _, _, _, _, _, _) => RecompactingOk(s, t, PcOf(s, t))
    case Retiring(src) => src in s.segs && s.segs[src].closed && SegDead(s, src)
  }

  ghost predicate FoundOk(s: State, src: Path, todo: set<int>, offset: int, vm: ValueMessage) {
    && src in s.segs && offset in todo && offset in s.segs[src].entries
    && StoredForm(vm) && !IsTombstone(vm)
    && vm.valueLength == |s.segs[src].entries[offset].bytes|
    && OnlyAt(s, s.segs[src].entries[offset].key, src, offset, vm.expiry)
  }

  // ---- The invariant ----

  ghost predicate RowOk(s: State, k: Key, vm: ValueMessage) {
    && StoredForm(vm) && vm.version <= s.lastStamp
    && (vm.valueType == Inline && !IsTombstone(vm) ==> vm.valueLength == |vm.data|)
    && (vm.valueType == RawFile ==>
          && vm.rawFilePath in s.born && vm.rawFilePath !in s.private && vm.rawFilePath !in s.queued
          && BirthMatches(s, k, vm))
    && (vm.valueType == Segment ==>
          && vm.segmentPath in s.segs && vm.segmentPath !in s.queued
          && vm.segmentOffset in s.segs[vm.segmentPath].entries
          && s.segs[vm.segmentPath].entries[vm.segmentOffset].key == k
          && vm.valueLength == |s.segs[vm.segmentPath].entries[vm.segmentOffset].bytes|)
  }

  ghost predicate RowsOk(s: State) {
    forall k :: k in s.rows ==> RowOk(s, k, s.rows[k])
  }

  ghost predicate StoreOk(s: State) {
    Shape(s) && QueueOk(s)
  }

  /** Only dead paths are ever queued. */
  ghost predicate QueueOk(s: State) {
    && (forall p :: p in s.queued && p in s.born ==> Dead(s, p))
    && (forall g :: g in s.queued && g in s.segs ==> SegDead(s, g))
  }

  ghost predicate Shape(s: State) {
    && s.lastStamp >= VERSION_LEGACY
    && s.born.Keys !! s.segs.Keys && "" !in s.born && "" !in s.segs
    && s.private.Keys <= s.born.Keys
    && s.gone <= s.queued && s.queued <= s.born.Keys + s.segs.Keys
    && s.damaged <= s.born.Keys
    && (forall g :: g in s.queued && g in s.segs ==> s.segs[g].closed)
    && (forall g :: g in s.segs && s.segs[g].closed ==> s.segs[g].holder.None?)
    && (forall e :: e in s.index ==> e.1 in s.born && e.1 !in s.private && s.born[e.1].key == e.0)
    && (forall v :: v in s.owners ==> v <= s.lastStamp)
  }

  ghost predicate OneRecompactor(s: State) {
    forall t, u :: t in s.threads && u in s.threads && Recompactor(s.threads[t]) && Recompactor(s.threads[u]) ==> t == u
  }

  ghost predicate Inv(s: State) {
    && RowsOk(s) && StoreOk(s) && OneRecompactor(s)
    && (forall t: Tid :: PcOk(s, t))
  }

  // ---- Interference: how a step of `t` looks to everybody else ----

  /** `t` may add references to this segment. */
  ghost predicate Owns(s: State, t: Tid, g: Path) {
    || (g in s.segs && s.segs[g].holder == Some(t))
    || (PcOf(s, t).Recompacting? && g in PcOf(s, t).dsts)
  }

  ghost predicate SegGrows(a: Seg, b: Seg, t: Tid) {
    && (forall o :: o in a.entries ==> o in b.entries && b.entries[o] == a.entries[o])
    && (a.closed ==> b.closed)
    && (a.holder.Some? && a.holder != Some(t) ==> b.closed == a.closed && b.holder == a.holder)
  }

  ghost predicate Evolves(s: State, s': State, t: Tid) {
    && Grows(s, s', t)
    && (forall k :: k in s'.rows ==> RowChange(s, s', t, k))
    && (forall u: Tid :: u != t ==> PcOf(s', u) == PcOf(s, u))
  }

  /** Files, segments, stamps and the queue only grow, and nobody takes what is another's. */
  ghost predicate Grows(s: State, s': State, t: Tid) {
    && (forall p :: p in s.born ==> p in s'.born && s'.born[p] == s.born[p])
    && (forall p :: p in s.private && s.private[p] != t ==> p in s'.private && s'.private[p] == s.private[p])
    && (forall p :: p in s.born && p !in s.private ==> p !in s'.private)
    && (forall g :: g in s.segs ==> g in s'.segs && SegGrows(s.segs[g], s'.segs[g], t))
    && (forall v :: v in s.owners ==> v in s'.owners && s'.owners[v] == s.owners[v])
    && s.lastStamp <= s'.lastStamp && s.gone <= s'.gone && s.damaged <= s'.damaged && s.queued <= s'.queued
    && (forall g :: g in s'.queued && g !in s.queued && g in s.segs ==> Recompactor(PcOf(s, t)))
  }

  /** How one row may have changed: not at all, or to something only `t` could put there. */
  ghost predicate RowChange(s: State, s': State, t: Tid, k: Key)
    requires k in s'.rows
  {
    var vm := s'.rows[k];
    || (k in s.rows && vm == s.rows[k])
    || (&& (vm.valueType == RawFile && vm.rawFilePath in s.born ==> vm.rawFilePath in s.private && s.private[vm.rawFilePath] == t)
        && (vm.valueType == Segment ==> Owns(s, t, vm.segmentPath))
        && (vm.version == 0 || (k in s.rows && vm.version == s.rows[k].version) ||
            (vm.version in s'.owners && s'.owners[vm.version] == t)))
  }

  lemma CompactBatchPersists(s: State, s': State, t: Tid, batch: seq<Staged>, dst: Path)
    requires Evolves(s, s', t) && CompactBatchOk(s, batch, dst)
    ensures CompactBatchOk(s', batch, dst)
  {
  }

  lemma AllDeadPersists(s: State, s': State, t: Tid, paths: set<Path>)
    requires Evolves(s, s', t) && AllDead(s, paths)
    ensures AllDead(s', paths)
  {
  }

  lemma SourcesPersist(s: State, s': State, t: Tid, batch: seq<Staged>, sources: set<Path>)
    requires Evolves(s, s', t) && SourcesOk(s, batch, sources)
    ensures SourcesOk(s', batch, sources)
  {
  }

  lemma HeldPersists(s: State, s': State, t: Tid, u: Tid, dst: Path)
    requires Grows(s, s', t) && u != t && HeldBy(s, u, dst)
    ensures HeldBy(s', u, dst)
  {
  }

  lemma CompactPersists(s: State, s': State, t: Tid, u: Tid, pc: Pc)
    requires pc.Compacting? && Evolves(s, s', t) && CompactOk(s, u, pc) && HeldBy(s', u, pc.out)
    ensures CompactOk(s', u, pc)
  {
    CompactBatchPersists(s, s', t, pc.merges, pc.out);
    SourcesPersist(s, s', t, pc.merges, pc.sources);
    AllDeadPersists(s, s', t, pc.flush);
  }

  lemma CompactingPersists(s: State, s': State, t: Tid, u: Tid)
    requires PcOk(s, u) && Evolves(s, s', t) && u != t && PcOf(s, u).Compacting?
    ensures PcOk(s', u)
  {
    var pc := PcOf(s, u);
    assert PcOf(s', u) == pc;
    HeldPersists(s, s', t, u, pc.out);
    CompactPersists(s, s', t, u, pc);
  }

  lemma DestinationsPersist(s: State, s': State, t: Tid, u: Tid, dst: Path, dsts: set<Path>)
    requires Grows(s, s', t) && u != t && DestinationsOk(s, u, dst, dsts) && !Recompactor(PcOf(s, t))
    ensures DestinationsOk(s', u, dst, dsts)
  {
  }

  lemma RecompactBatchPersists(s: State, s': State, t: Tid, batch: seq<Staged>, src: Path, dsts: set<Path>)
    requires Evolves(s, s', t) && !Owns(s, t, src) && RecompactBatchOk(s, batch, src, dsts)
    ensures RecompactBatchOk(s', batch, src, dsts)
  {
  }

  lemma FoundPersists(s: State, s': State, t: Tid, src: Path, todo: set<int>, offset: int, vm: ValueMessage)
    requires Evolves(s, s', t) && !Owns(s, t, src) && FoundOk(s, src, todo, offset, vm)
    ensures FoundOk(s', src, todo, offset, vm)
  {
  }

  lemma CoveredPersists(s: State, s': State, t: Tid, src: Path, todo: set<int>, batch: seq<Staged>)
    requires Evolves(s, s', t) && !Owns(s, t, src) && Covered(s, src, todo, batch)
    ensures Covered(s', src, todo, batch)
  {
  }

  lemma RecompactingPersists(s: State, s': State, t: Tid, u: Tid)
    requires Shape(s) && OneRecompactor(s) && PcOk(s, u)
    requires Evolves(s, s', t) && u != t && PcOf(s, u).Recompacting?
    ensures PcOk(s', u)
  {
    var pc := PcOf(s, u);
    assert PcOf(s', u) == pc;
    assert !Recompactor(PcOf(s, t));
    assert !Owns(s, t, pc.src);
    assert SegGrows(s.segs[pc.src], s'.segs[pc.src], t);
    DestinationsPersist(s, s', t, u, pc.dst, pc.dsts);
    RecompactBatchPersists(s, s', t, pc.batch, pc.src, pc.dsts);
    if pc.found.Some? {
      FoundPersists(s, s', t, pc.src, pc.todo, pc.found.value.0, pc.found.value.1);
    }
    if !pc.failed {
      CoveredPersists(s, s', t, pc.src, pc.todo, pc.batch);
    }
  }

  lemma RetiringPersists(s: State, s': State, t: Tid, u: Tid)
    requires Shape(s) && OneRecompactor(s) && PcOk(s, u)
    requires Evolves(s, s', t) && u != t && PcOf(s, u).Retiring?
    ensures PcOk(s', u)
  {
    var pc := PcOf(s, u);
    assert PcOf(s', u) == pc;
    assert SegGrows(s.segs[pc.src], s'.segs[pc.src], t);
    forall k | k in s'.rows ensures !RefersSegment(s'.rows[k], pc.src) {
      assert RowChange(s, s', t, k);
    }
  }

  lemma CasPersists(s: State, s': State, t: Tid, u: Tid, k: Key, op: ValueMessage, prev: Option<ValueMessage>)
    requires Evolves(s, s', t) && u != t && CasOk(s, u, k, op, prev)
    ensures CasOk(s', u, k, op, prev)
  {
  }

  lemma MergedPersists(s: State, s': State, t: Tid, u: Tid, pc: Pc)
    requires Evolves(s, s', t) && u != t && pc.CasMerged? && MergedOk(s, u, pc.key, pc.op, pc.prev, pc.admitted)
    ensures MergedOk(s', u, pc.key, pc.op, pc.prev, pc.admitted)
  {
  }

  lemma WriterPersists(s: State, s': State, t: Tid, u: Tid)
    requires PcOk(s, u) && Evolves(s, s', t) && u != t
    requires var pc := PcOf(s, u); !pc.Compacting? && !pc.Recompacting? && !pc.Retiring?
    ensures PcOk(s', u)
  {
    var pc := PcOf(s, u);
    assert PcOf(s', u) == pc;
    match pc
    case CasWritten(k, op) => CasPersists(s, s', t, u, k, op, None);
    case CasStaged(k, op, prev, _) => CasPersists(s, s', t, u, k, op, prev);
    case CasMerged(_, _, _, _) => MergedPersists(s, s', t, u, pc);
    case Flushing(paths) => AllDeadPersists(s, s', t, paths);
    case _ =>
  }

  /** What the other threads rely on survives any step of `t` that evolves the state this way. */
  lemma OthersPersist(s: State, s': State, t: Tid, u: Tid)
    requires Shape(s) && OneRecompactor(s) && PcOk(s, u) && Evolves(s, s', t) && u != t
    ensures PcOk(s', u)
  {
    var pc := PcOf(s, u);
    if pc.Compacting? {
      CompactingPersists(s, s', t, u);
    } else if pc.Recompacting? {
      RecompactingPersists(s, s', t, u);
    } else if pc.Retiring? {
      RetiringPersists(s, s', t, u);
    } else {
      WriterPersists(s, s', t, u);
    }
  }
}
