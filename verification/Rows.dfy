/** The data every other module talks about: metadata rows and merge operands
    (one message type serves for both, as in storage/proto/storage.proto). */
module Rows {

  datatype Option<+T> = None | Some(value: T)

  type Key = string
  type Path = string
  type Byte = b: int | 0 <= b < 256
  type Bytes = seq<Byte>

  /** Where the value bytes live. */
  datatype ValueType = Inline | RawFile | Segment

  /** Kind of a merge operand; `NoOp` on every stored row and on the path-preconditioned operands. */
  datatype MetaOp = NoOp | CasPut | CasDelete

  datatype ValueMessage = ValueMessage(
    valueType: ValueType,
    data: Bytes,
    expiry: int,
    rawFilePath: Path,
    segmentPath: Path,
    segmentOffset: int,
    valueLength: int,
    checksum: nat,
    version: nat,
    opType: MetaOp,
    casExpected: nat)

  /** The sentinel expiry that marks a tombstone: one second past the epoch. */
  const TOMBSTONE_EXPIRY := 1

  /** The version a live row without a stamp reports. */
  const VERSION_LEGACY: nat := 1

  /** A ref-less tombstone stamped `version`; 0 means unstamped, that is, plain absence. */
  function Tombstone(version: nat): ValueMessage {
    ValueMessage(Inline, [], TOMBSTONE_EXPIRY, "", "", 0, 0, 0, version, NoOp, 0)
  }

  predicate IsTombstone(vm: ValueMessage) {
    vm.expiry == TOMBSTONE_EXPIRY
  }

  /** The version the interface reports for a stored row. */
  function EffectiveRowVersion(vm: ValueMessage): nat {
    if IsTombstone(vm) then vm.version
    else if vm.version == 0 then VERSION_LEGACY
    else vm.version
  }

  /** The row references raw file `p`. */
  predicate RefersRaw(vm: ValueMessage, p: Path) {
    vm.valueType == RawFile && vm.rawFilePath == p
  }

  /** The row references segment `g`. */
  predicate RefersSegment(vm: ValueMessage, g: Path) {
    vm.valueType == Segment && vm.segmentPath == g
  }

  /** Shape of a stored row: exactly the path its type calls for, no operand-only
      field, and a tombstone carries no reference. */
  predicate StoredForm(vm: ValueMessage) {
    && (vm.rawFilePath != "" <==> vm.valueType == RawFile)
    && (vm.segmentPath != "" <==> vm.valueType == Segment)
    && vm.opType == NoOp && vm.casExpected == 0
    && (IsTombstone(vm) ==> vm == Tombstone(vm.version))
  }

  function Lookup<K, V>(m: map<K, V>, k: K): Option<V> {
    if k in m then Some(m[k]) else None
  }
}
