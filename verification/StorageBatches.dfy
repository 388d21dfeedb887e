/** What an atomic batch of migrations and purges does to the rows: the meaning
    of every row survives it, and no row is left on a path it leads away from. */
module StorageBatches {
  import opened Rows
  import opened Merge
  import opened Storage
  import opened StorageInvariant
  import opened StorageWriters

  // ---- Batches of merges ----

  /** The bytes a row leads to. */
  ghost function BytesOf(s: State, vm: ValueMessage): Bytes {
    match vm.valueType
    case Inline => vm.data
    case RawFile => if vm.rawFilePath in s.born then s.born[vm.rawFilePath].bytes else []
    case Segment =>
      if vm.segmentPath in s.segs && vm.segmentOffset in s.segs[vm.segmentPath].entries
      then s.segs[vm.segmentPath].entries[vm.segmentOffset].bytes else []
  }

  ghost predicate SameMeaning(s: State, a: ValueMessage, b: ValueMessage) {
    a.expiry == b.expiry && a.version == b.version && BytesOf(s, a) == BytesOf(s, b)
  }

  /** All a batch of migrations and purges may do to a row. */
  ghost predicate BatchRow(s: State, dsts: set<Path>, k: Key, vm: ValueMessage) {
    || (k in s.rows && vm == s.rows[k])
    || (vm == Tombstone(0) && (k in s.rows ==> s.rows[k].valueType == RawFile && s.rows[k].rawFilePath in s.damaged + s.gone))
    || (&& k in s.rows && s.rows[k].valueType != Inline
        && vm.valueType == Segment && vm.segmentPath in dsts
        && RowOk(s, k, vm) && SameMeaning(s, s.rows[k], vm))
  }

  ghost predicate StagedOk(s: State, k: Key, op: ValueMessage, src: Path, dsts: set<Path>) {
    FromRaw(s, k, op, dsts) || FromSegment(s, k, op, src, dsts) || PurgeStaged(s, k, op)
  }

  ghost predicate AllStaged(s: State, batch: seq<Staged>, src: Path, dsts: set<Path>) {
    forall i :: 0 <= i < |batch| ==> StagedOk(s, batch[i].key, batch[i].op, src, dsts)
  }

  lemma StagedRow(s: State, k: Key, op: ValueMessage, src: Path, dsts: set<Path>)
    requires RowsOk(s) && Shape(s) && StagedOk(s, k, op, src, dsts) && dsts !! s.queued && src !in dsts
    ensures BatchRow(s, dsts, k, Merged(Lookup(s.rows, k), [op]))
  {
    var base := Lookup(s.rows, k);
    assert Fold(base, [op]) == Resolve(base, op);
    assert base.Some? ==> RowOk(s, k, base.value);
    if IsMigration(op) && base.Some? && MigrationMatches(base.value, op) {
      MigratedRow(s, k, op, src, dsts);
    }
  }

  lemma MigratedRow(s: State, k: Key, op: ValueMessage, src: Path, dsts: set<Path>)
    requires RowsOk(s) && Shape(s) && dsts !! s.queued
    requires FromRaw(s, k, op, dsts) || FromSegment(s, k, op, src, dsts)
    requires k in s.rows && MigrationMatches(s.rows[k], op)
    ensures RowOk(s, k, Migrated(s.rows[k], op)) && SameMeaning(s, s.rows[k], Migrated(s.rows[k], op))
  {
  }

  lemma BatchRowChain(s: State, s1: State, dsts: set<Path>, k: Key, vm: ValueMessage)
    requires s1 == s.(rows := s1.rows) && BatchRow(s1, dsts, k, vm)
    requires if k in s1.rows then BatchRow(s, dsts, k, s1.rows[k]) else k !in s.rows
    ensures BatchRow(s, dsts, k, vm)
  {
  }

  lemma StagedPersists(s: State, s1: State, k: Key, op: ValueMessage, src: Path, dsts: set<Path>)
    requires s1 == s.(rows := s1.rows) && StagedOk(s, k, op, src, dsts) && src !in dsts
    requires forall k' :: k' in s1.rows ==> BatchRow(s, dsts, k', s1.rows[k'])
    ensures StagedOk(s1, k, op, src, dsts)
  {
  }

  lemma FirstMerge(s: State, k: Key, op: ValueMessage, src: Path, dsts: set<Path>)
    requires RowsOk(s) && Shape(s) && StagedOk(s, k, op, src, dsts) && dsts !! s.queued && src !in dsts
    ensures var s1 := s.(rows := MergeRow(s.rows, k, op));
            RowsOk(s1) && forall k' :: k' in s1.rows ==> BatchRow(s, dsts, k', s1.rows[k'])
  {
    StagedRow(s, k, op, src, dsts);
    var s1 := s.(rows := MergeRow(s.rows, k, op));
    forall k' | k' in s1.rows ensures RowOk(s1, k', s1.rows[k']) && BatchRow(s, dsts, k', s1.rows[k']) {
      assert k' in s.rows ==> RowOk(s, k', s.rows[k']);
    }
  }

  /** Over a whole batch every row either stays, or moves with its meaning kept,
      or was on a damaged or vanished file and is dropped. */
  lemma {:induction false} BatchKeepsMeaning(s: State, batch: seq<Staged>, src: Path, dsts: set<Path>)
    requires RowsOk(s) && Shape(s) && AllStaged(s, batch, src, dsts) && dsts !! s.queued && src !in dsts
    ensures s.rows.Keys <= ApplyBatch(s.rows, batch).Keys
    ensures forall k :: k in ApplyBatch(s.rows, batch) ==> BatchRow(s, dsts, k, ApplyBatch(s.rows, batch)[k])
    decreases |batch|
  {
    if batch != [] {
      var k0, op := batch[0].key, batch[0].op;
      var s1 := s.(rows := MergeRow(s.rows, k0, op));
      FirstMerge(s, k0, op, src, dsts);
      forall i | 0 <= i < |batch[1..]| ensures StagedOk(s1, batch[1..][i].key, batch[1..][i].op, src, dsts) {
        StagedPersists(s, s1, batch[i + 1].key, batch[i + 1].op, src, dsts);
      }
      BatchKeepsMeaning(s1, batch[1..], src, dsts);
      forall k | k in ApplyBatch(s.rows, batch) ensures BatchRow(s, dsts, k, ApplyBatch(s.rows, batch)[k]) {
        BatchRowChain(s, s1, dsts, k, ApplyBatch(s.rows, batch)[k]);
      }
    }
  }

  lemma ClearsFirst(batch: seq<Staged>, k: Key, p: Path)
    requires batch != [] && Clears(batch, k, p)
    ensures (batch[0].key == k && batch[0].op.rawFilePath == p) || Clears(batch[1..], k, p)
  {
  }

  /** No row is left on a raw path that some staged operand takes it off. */
  lemma {:induction false} BatchClearsRaw(rows: map<Key, ValueMessage>, batch: seq<Staged>, k: Key, p: Path)
    requires forall i :: 0 <= i < |batch| ==> IsMigration(batch[i].op) || IsPurge(batch[i].op)
    requires Clears(batch, k, p) || (k in rows ==> !RefersRaw(rows[k], p))
    ensures k in ApplyBatch(rows, batch) ==> !RefersRaw(ApplyBatch(rows, batch)[k], p)
    decreases |batch|
  {
    if batch != [] {
      var base := Lookup(rows, batch[0].key);
      assert Fold(base, [batch[0].op]) == Resolve(base, batch[0].op);
      if Clears(batch, k, p) {
        ClearsFirst(batch, k, p);
      }
      BatchClearsRaw(MergeRow(rows, batch[0].key, batch[0].op), batch[1..], k, p);
    }
  }

  /** The same for a segment that every staged operand leads away from. */
  lemma {:induction false} BatchClearsSegment(rows: map<Key, ValueMessage>, batch: seq<Staged>, k: Key, g: Path)
    requires forall i :: 0 <= i < |batch| ==> IsMigration(batch[i].op) && batch[i].op.segmentPath != g
    requires Clears(batch, k, g) || (k in rows ==> !RefersSegment(rows[k], g))
    ensures k in ApplyBatch(rows, batch) ==> !RefersSegment(ApplyBatch(rows, batch)[k], g)
    decreases |batch|
  {
    if batch != [] {
      var base := Lookup(rows, batch[0].key);
      assert Fold(base, [batch[0].op]) == Resolve(base, batch[0].op);
      if Clears(batch, k, g) {
        ClearsFirst(batch, k, g);
      }
      BatchClearsSegment(MergeRow(rows, batch[0].key, batch[0].op), batch[1..], k, g);
    }
  }

  lemma {:induction false} BatchSound(s: State, t: Tid, batch: seq<Staged>, src: Path, dsts: set<Path>)
    requires RowsOk(s) && StoreOk(s) && AllStaged(s, batch, src, dsts) && dsts !! s.queued && src !in dsts
    requires forall g :: g in dsts ==> Owns(s, t, g)
    ensures Sound(s, s.(rows := ApplyBatch(s.rows, batch)), t)
  {
    BatchKeepsMeaning(s, batch, src, dsts);
    var s' := s.(rows := ApplyBatch(s.rows, batch));
    forall k | k in s'.rows ensures RowFine(s, s', t, k) {
      assert BatchRow(s, dsts, k, s'.rows[k]);
      assert k in s.rows ==> RowOk(s, k, s.rows[k]);
    }
    RowsSound(s, s', t);
  }

  /** A newer write always wins: operands read off another path than the row's leave it alone. */
  lemma {:induction false} StaleOperandsDoNothing(rows: map<Key, ValueMessage>, batch: seq<Staged>, k: Key)
    requires k in rows
    requires forall i :: 0 <= i < |batch| ==> IsMigration(batch[i].op) || IsPurge(batch[i].op)
    requires forall i :: 0 <= i < |batch| && batch[i].key == k ==> !MigrationMatches(rows[k], batch[i].op)
    ensures k in ApplyBatch(rows, batch) && ApplyBatch(rows, batch)[k] == rows[k]
    decreases |batch|
  {
    if batch != [] {
      var base := Lookup(rows, batch[0].key);
      assert Fold(base, [batch[0].op]) == Resolve(base, batch[0].op);
      StaleOperandsDoNothing(MergeRow(rows, batch[0].key, batch[0].op), batch[1..], k);
    }
  }
}
