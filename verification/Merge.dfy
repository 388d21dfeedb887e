/** The metadata merge operator of storage/merge/operator.go. */
module Merge {
  import opened Rows

  /** The value RocksDB hands to the operator. */
  datatype Cell = Missing | Garbled(raw: Bytes) | Decoded(vm: ValueMessage)

  /** A tombstone admits an operand that declined to order itself, or whose
      observation is at or after the delete. */
  predicate FenceAdmits(tombstone: ValueMessage, expected: nat) {
    expected == 0 || expected >= tombstone.version
  }

  /** Whether a compare-and-swap operand applies to `base`. */
  predicate Admits(base: Option<ValueMessage>, op: ValueMessage) {
    match base
    case None => op.opType == CasPut || op.casExpected == 0
    case Some(b) =>
      if IsTombstone(b) then FenceAdmits(b, op.casExpected)
      else EffectiveRowVersion(b) == op.casExpected
  }

  /** A put operand with its operand-only fields stripped. */
  function Adopt(op: ValueMessage): ValueMessage {
    op.(opType := NoOp, casExpected := 0)
  }

  /** The operand of a conditional delete. */
  function DeleteOperand(stamp: nat, expected: nat): ValueMessage {
    ValueMessage(Inline, [], 0, "", "", 0, 0, 0, stamp, CasDelete, expected)
  }

  predicate IsPurge(op: ValueMessage) {
    op.opType == NoOp && op.valueType == RawFile && op.rawFilePath != ""
  }

  predicate IsMigration(op: ValueMessage) {
    op.opType == NoOp && op.valueType == Segment && op.rawFilePath != ""
  }

  /** The base still references the path the migrator observed. */
  predicate MigrationMatches(b: ValueMessage, op: ValueMessage) {
    RefersRaw(b, op.rawFilePath) || RefersSegment(b, op.rawFilePath)
  }

  /** The row a matching migration leaves: the operand's location, the base's version. */
  function Migrated(b: ValueMessage, op: ValueMessage): ValueMessage {
    op.(rawFilePath := "", version := b.version, opType := NoOp, casExpected := 0)
  }

  /** One operand against one base: the body of the operator's loop. */
  function Resolve(base: Option<ValueMessage>, op: ValueMessage): Option<ValueMessage> {
    match op.opType
    case CasPut => if Admits(base, op) then Some(Adopt(op)) else base
    case CasDelete =>
      if Admits(base, op) then Some(Tombstone(op.version))
      else if base.None? then Some(Tombstone(0))
      else base
    case NoOp =>
      if IsPurge(op) then
        if base.Some? && RefersRaw(base.value, op.rawFilePath) then Some(Tombstone(0)) else base
      else if IsMigration(op) && base.Some? && MigrationMatches(base.value, op) then
        Some(Migrated(base.value, op))
      else base
  }

  /** Operands in order. */
  function Fold(base: Option<ValueMessage>, ops: seq<ValueMessage>): Option<ValueMessage>
    decreases |ops|
  {
    if ops == [] then base else Fold(Resolve(base, ops[0]), ops[1..])
  }

  /** What the key reads as once `ops` are merged into `base`: a key still
      missing at the end becomes the already-expired sentinel. */
  function Merged(base: Option<ValueMessage>, ops: seq<ValueMessage>): ValueMessage {
    match Fold(base, ops)
    case None => Tombstone(0)
    case Some(vm) => vm
  }

  function WellFormedOperands(operands: seq<Option<ValueMessage>>): seq<ValueMessage> {
    if operands == [] then []
    else (if operands[0].Some? then [operands[0].value] else []) + WellFormedOperands(operands[1..])
  }

  lemma {:induction false} FoldAppend(base: Option<ValueMessage>, xs: seq<ValueMessage>, ys: seq<ValueMessage>)
    ensures Fold(base, xs + ys) == Fold(Fold(base, xs), ys)
    decreases |xs|
  {
    if xs == [] {
      assert xs + ys == ys;
    } else {
      assert (xs + ys)[1..] == xs[1..] + ys;
      FoldAppend(Resolve(base, xs[0]), xs[1..], ys);
    }
  }

  lemma {:induction false} WellFormedOperandsAppend(xs: seq<Option<ValueMessage>>, x: Option<ValueMessage>)
    ensures WellFormedOperands(xs + [x]) ==
            WellFormedOperands(xs) + (if x.Some? then [x.value] else [])
  {
    if xs == [] {
      assert xs + [x] == [x] && [x][1..] == [];
    } else {
      assert (xs + [x])[0] == xs[0] && (xs + [x])[1..] == xs[1..] + [x];
      WellFormedOperandsAppend(xs[1..], x);
      var first := if xs[0].Some? then [xs[0].value] else [];
      var rest, last := WellFormedOperands(xs[1..]), if x.Some? then [x.value] else [];
      assert first + (rest + last) == first + rest + last;
    }
  }

  /** The operator itself. A malformed operand is skipped, an undecodable base
      is kept verbatim, and no input makes it fail. */
  method FullMerge(existing: Cell, operands: seq<Option<ValueMessage>>) returns (result: Cell)
    ensures existing.Garbled? ==> result == existing
    ensures !existing.Garbled? ==>
              result == Decoded(Merged(if existing.Decoded? then Some(existing.vm) else None,
                                       WellFormedOperands(operands)))
  {
    if existing.Garbled? {
      return existing;
    }
    var hadBase := existing.Decoded?;
    var base := if existing.Decoded? then existing.vm else Tombstone(0);
    ghost var start := if hadBase then Some(base) else None;
    var i := 0;
    while i < |operands|
      invariant 0 <= i <= |operands|
      invariant (if hadBase then Some(base) else None) == Fold(start, WellFormedOperands(operands[..i]))
    {
      assert operands[..i + 1] == operands[..i] + [operands[i]];
      WellFormedOperandsAppend(operands[..i], operands[i]);
      if operands[i].Some? {
        var op := operands[i].value;
        FoldAppend(start, WellFormedOperands(operands[..i]), [op]);
        ghost var before := if hadBase then Some(base) else None;
        assert Fold(before, [op]) == Resolve(before, op);
        match op.opType {
          case CasPut =>
            var apply := if !hadBase then true
                         else if base.expiry == TOMBSTONE_EXPIRY then FenceAdmits(base, op.casExpected)
                         else EffectiveRowVersion(base) == op.casExpected;
            if apply {
              base, hadBase := Adopt(op), true;
            }
          case CasDelete =>
            if !hadBase {
              base := if op.casExpected == 0 then Tombstone(op.version) else Tombstone(0);
              hadBase := true;
            } else if base.expiry == TOMBSTONE_EXPIRY {
              if FenceAdmits(base, op.casExpected) {
                base := Tombstone(op.version);
              }
            } else if EffectiveRowVersion(base) == op.casExpected {
              base := Tombstone(op.version);
            }
          case NoOp =>
            if op.valueType == RawFile && op.rawFilePath != "" {
              if hadBase && base.valueType == RawFile && base.rawFilePath == op.rawFilePath {
                base := Tombstone(0);
              }
            } else if hadBase && op.valueType == Segment && op.rawFilePath != "" {
              if MigrationMatches(base, op) {
                base := Migrated(base, op);
              }
            }
        }
      } else {
        FoldAppend(start, WellFormedOperands(operands[..i]), []);
      }
      i := i + 1;
    }
    assert operands[..i] == operands;
    result := if hadBase then Decoded(base) else Decoded(Tombstone(0));
  }

  // ---- What each operand leaves, field by field ----

  /** A row that carries nothing but the sentinel expiry and a stamp. */
  predicate RefLess(vm: ValueMessage, stamp: nat) {
    && vm.expiry == 1 && vm.version == stamp && vm.valueType == Inline && vm.data == []
    && vm.rawFilePath == "" && vm.segmentPath == "" && vm.segmentOffset == 0 && vm.valueLength == 0 && vm.checksum == 0
    && vm.opType == NoOp && vm.casExpected == 0
  }

  /** The key holds a value of this version; a row without a stamp counts as version 1. */
  predicate HoldsVersion(b: ValueMessage, v: nat) {
    b.expiry != 1 && (b.version == v > 0 || (b.version == 0 && v == 1))
  }

  /** The key was deleted, and not after the version was observed; 0 declines to say. */
  predicate DeletedBy(b: ValueMessage, v: nat) {
    b.expiry == 1 && (v == 0 || b.version <= v)
  }

  /** A conditional put either stores the whole operand or leaves the row alone: it is stored on a
      missing key, over a delete it is ordered after, and over the very version it expects. */
  lemma PutStores(base: Option<ValueMessage>, op: ValueMessage)
    requires op.opType == CasPut
    ensures var r := Resolve(base, op);
            if base.None? || DeletedBy(base.value, op.casExpected) || HoldsVersion(base.value, op.casExpected) then
              && r.Some? && r.value.valueType == op.valueType && r.value.data == op.data && r.value.expiry == op.expiry
              && r.value.rawFilePath == op.rawFilePath && r.value.segmentPath == op.segmentPath
              && r.value.segmentOffset == op.segmentOffset && r.value.valueLength == op.valueLength
              && r.value.checksum == op.checksum && r.value.version == op.version
              && r.value.opType == NoOp && r.value.casExpected == 0
            else r == base
  {
  }

  /** A conditional delete leaves a row without references under its own stamp, or the row
      alone; a guarded one on a missing key leaves an unstamped one. */
  lemma DeleteStores(base: Option<ValueMessage>, op: ValueMessage)
    requires op.opType == CasDelete
    ensures var r := Resolve(base, op);
            if base.None? then r.Some? && RefLess(r.value, if op.casExpected == 0 then op.version else 0)
            else if DeletedBy(base.value, op.casExpected) || HoldsVersion(base.value, op.casExpected)
            then r.Some? && RefLess(r.value, op.version)
            else r == base
  {
  }

  /** A migration moves exactly the row that is still where it was read: the location, length,
      checksum, data and expiry are the operand's, the version is the row's. */
  lemma MigrationStores(base: Option<ValueMessage>, op: ValueMessage)
    requires op.opType == NoOp && op.valueType == Segment && op.rawFilePath != ""
    ensures var r := Resolve(base, op);
            if base.Some? && ((base.value.valueType == RawFile && base.value.rawFilePath == op.rawFilePath) ||
                              (base.value.valueType == Segment && base.value.segmentPath == op.rawFilePath)) then
              && r.Some? && r.value.valueType == Segment && r.value.rawFilePath == ""
              && r.value.segmentPath == op.segmentPath && r.value.segmentOffset == op.segmentOffset
              && r.value.valueLength == op.valueLength && r.value.checksum == op.checksum
              && r.value.data == op.data && r.value.expiry == op.expiry
              && r.value.version == base.value.version && r.value.opType == NoOp && r.value.casExpected == 0
            else r == base
  {
  }

  /** A purge deletes exactly the row still on its raw file, and leaves no fence; any other
      operand without a kind does nothing. */
  lemma PurgeStores(base: Option<ValueMessage>, op: ValueMessage)
    requires op.opType == NoOp && !(op.valueType == Segment && op.rawFilePath != "")
    ensures var r := Resolve(base, op);
            if base.Some? && op.valueType == RawFile && op.rawFilePath != "" &&
               base.value.valueType == RawFile && base.value.rawFilePath == op.rawFilePath
            then r.Some? && RefLess(r.value, 0)
            else r == base
  {
  }

  /** A group ends as its last operand leaves it, over whatever the ones before left; a key still
      missing then reads as deleted without a fence. */
  lemma {:induction false} LastOperandDecides(base: Option<ValueMessage>, ops: seq<ValueMessage>, op: ValueMessage)
    ensures Fold(base, ops + [op]) == Resolve(Fold(base, ops), op)
    ensures Fold(base, ops).None? ==> RefLess(Merged(base, ops), 0)
    ensures Fold(base, ops).Some? ==> Merged(base, ops) == Fold(base, ops).value
  {
    FoldAppend(base, ops, [op]);
    assert Fold(Fold(base, ops), [op]) == Resolve(Fold(base, ops), op);
  }

  // ---- When RocksDB folds a group of operands does not matter ... except once ----

  /** Folding `xs` into a stored row first and `ys` later gives what folding all of them at once gives. */
  predicate Regroups(base: Option<ValueMessage>, xs: seq<ValueMessage>, ys: seq<ValueMessage>) {
    Merged(Some(Merged(base, xs)), ys) == Merged(base, xs + ys)
  }

  predicate HasCas(ops: seq<ValueMessage>) {
    exists i :: 0 <= i < |ops| && ops[i].opType != NoOp
  }

  lemma {:induction false} FoldKeepsBase(base: Option<ValueMessage>, ops: seq<ValueMessage>)
    ensures Fold(base, ops).None? <==> base.None? && !HasCas(ops)
    decreases |ops|
  {
    if ops != [] {
      FoldKeepsBase(Resolve(base, ops[0]), ops[1..]);
      if HasCas(ops) {
        var i :| 0 <= i < |ops| && ops[i].opType != NoOp;
        assert i > 0 ==> ops[1..][i - 1].opType != NoOp;
      } else {
        forall i | 0 <= i < |ops[1..]| ensures ops[1..][i].opType == NoOp {
          assert ops[1..][i] == ops[i + 1];
        }
      }
    }
  }

  /** The operator may be re-run at any fold point, whatever comes later, exactly
      when the key has a row or the folded group holds a compare-and-swap
      operand. With neither, the sentinel row the fold leaves behind admits a
      guarded delete that the missing row would have refused. */
  lemma RegroupsExactly(base: Option<ValueMessage>, xs: seq<ValueMessage>)
    ensures (forall ys :: Regroups(base, xs, ys)) <==> base.Some? || HasCas(xs)
  {
    FoldKeepsBase(base, xs);
    if base.Some? || HasCas(xs) {
      forall ys ensures Regroups(base, xs, ys) {
        FoldAppend(base, xs, ys);
      }
    } else {
      var ys := [DeleteOperand(7, 2)];
      FoldAppend(base, xs, ys);
      assert Fold(None, ys) == Resolve(None, ys[0]) == Some(Tombstone(0));
      assert Fold(Some(Tombstone(0)), ys) == Resolve(Some(Tombstone(0)), ys[0]) == Some(Tombstone(7));
      assert !Regroups(base, xs, ys);
    }
  }

  // ---- What every group of operands keeps ----

  /** Operands as their writers build them. */
  predicate OperandForm(op: ValueMessage) {
    match op.opType
    case CasPut => StoredForm(Adopt(op)) && !IsTombstone(op)
    case CasDelete => true
    case NoOp => IsPurge(op) || (IsMigration(op) && op.segmentPath != "" && op.casExpected == 0 && !IsTombstone(op))
  }

  /** Stored rows stay in stored form over any operands: no operand-only field is
      ever persisted, and a segment row never carries a raw path. */
  lemma {:induction false} MergeKeepsStoredForm(base: Option<ValueMessage>, ops: seq<ValueMessage>)
    requires base.Some? ==> StoredForm(base.value)
    requires forall i :: 0 <= i < |ops| ==> OperandForm(ops[i])
    ensures StoredForm(Merged(base, ops))
    decreases |ops|
  {
    if ops != [] {
      assert OperandForm(ops[0]);
      forall i | 0 <= i < |ops[1..]| ensures OperandForm(ops[1..][i]) {
        assert ops[1..][i] == ops[i + 1];
      }
      MergeKeepsStoredForm(Resolve(base, ops[0]), ops[1..]);
    }
  }

  /** No group of migrations and purges, however late, resurrects a deleted key
      or disturbs its fence. */
  lemma {:induction false} MigrationsNeverResurrect(stamp: nat, ops: seq<ValueMessage>)
    requires !HasCas(ops)
    ensures Fold(Some(Tombstone(stamp)), ops) == Some(Tombstone(stamp))
  {
    if ops != [] {
      assert ops[0].opType == NoOp;
      forall i | 0 <= i < |ops[1..]| ensures ops[1..][i].opType == NoOp {
        assert ops[1..][i] == ops[i + 1];
      }
      MigrationsNeverResurrect(stamp, ops[1..]);
    }
  }

  /** Migration is not a write: over any group of migrations the row keeps the
      version its last writer gave it. */
  lemma {:induction false} MigrationsKeepVersion(base: ValueMessage, ops: seq<ValueMessage>)
    requires forall i :: 0 <= i < |ops| ==> IsMigration(ops[i])
    ensures Fold(Some(base), ops).Some?
    ensures Fold(Some(base), ops).value.version == base.version
    decreases |ops|
  {
    if ops != [] {
      assert IsMigration(ops[0]);
      forall i | 0 <= i < |ops[1..]| ensures IsMigration(ops[1..][i]) {
        assert ops[1..][i] == ops[i + 1];
      }
      MigrationsKeepVersion(Resolve(Some(base), ops[0]).value, ops[1..]);
    }
  }
}
