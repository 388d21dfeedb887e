/** One specification of a conditional write on one key, and how the two
    implementations meet it: the in-memory cache always, the merge operator
    except on one family of operands. */
module CasSpec {
  import opened Rows
  import Merge
  import Memory

  /** What a key looks like to a conditional write. */
  datatype View = Absent | Fenced(stamp: nat) | Present(version: nat)

  /** Whether `v` admits the write. */
  predicate Admitted(v: View, isDelete: bool, expected: nat) {
    match v
    case Present(w) => w == expected
    case Fenced(f) => expected == 0 || expected >= f
    case Absent => !isDelete || expected == 0
  }

  /** The view afterwards, for a write stamped `stamp`. */
  function Written(v: View, isDelete: bool, expected: nat, stamp: nat): View {
    if !Admitted(v, isDelete, expected) then v
    else if isDelete then Fenced(stamp)
    else Present(stamp)
  }

  /** A token no write may succeed with: it is neither the version shown nor at or after the fence. */
  predicate Shut(v: View, token: nat) {
    match v
    case Present(w) => w != token
    case Fenced(f) => token < f
    case Absent => false
  }

  /** That is: exactly a put with it would be refused, and a delete too. */
  lemma ShutRefuses(v: View, token: nat)
    requires token > 0
    ensures Shut(v, token) <==> !Admitted(v, false, token)
    ensures Shut(v, token) ==> !Admitted(v, true, token)
  {
  }

  /** A write that succeeded with an expected value shuts the key against that value, if its
      stamp was drawn after the value was issued. */
  lemma SuccessShuts(v: View, isDelete: bool, expected: nat, stamp: nat)
    requires Admitted(v, isDelete, expected) && 0 < expected < stamp
    ensures Shut(Written(v, isDelete, expected, stamp), expected)
  {
  }

  /** A write that carries another stamp than the token opens the key to it exactly when
      it is an admitted delete stamped before the token; a put with the token then succeeds. */
  lemma ShutExactly(v: View, token: nat, isDelete: bool, expected: nat, stamp: nat)
    requires Shut(v, token) && token > 0 && stamp != token
    ensures Shut(Written(v, isDelete, expected, stamp), token) <==> !(Admitted(v, isDelete, expected) && isDelete && stamp < token)
    ensures Admitted(Written(v, isDelete, expected, stamp), false, token) <==> Admitted(v, isDelete, expected) && isDelete && stamp < token
  {
  }

  function RowView(row: Option<ValueMessage>): View {
    match row
    case None => Absent
    case Some(vm) =>
      if !IsTombstone(vm) then Present(EffectiveRowVersion(vm))
      else if vm.version == 0 then Absent
      else Fenced(vm.version)
  }

  function CacheView(c: Memory.Cache, k: Key, t: int): View {
    if Memory.Live(c, k, t) then Present(Memory.EffectiveVersion(c, k, t))
    else if k in c.fences then Fenced(c.fences[k])
    else Absent
  }

  /** The operand is a guarded delete and meets an unstamped tombstone. */
  predicate BlindSpot(row: Option<ValueMessage>, op: ValueMessage) {
    row == Some(Tombstone(0)) && op.opType == CasDelete && op.casExpected != 0
  }

  /** The merge operator implements the specification exactly outside the blind
      spot: there it admits a delete whose precondition nothing ever met. */
  lemma MergeMeetsSpec(row: Option<ValueMessage>, op: ValueMessage)
    requires row.Some? ==> StoredForm(row.value)
    requires op.opType != NoOp && op.version > VERSION_LEGACY && (op.opType == CasPut ==> !IsTombstone(op))
    ensures var isDelete := op.opType == CasDelete;
            (RowView(Merge.Resolve(row, op)) == Written(RowView(row), isDelete, op.casExpected, op.version) &&
             Merge.Admits(row, op) == Admitted(RowView(row), isDelete, op.casExpected))
            <==> !BlindSpot(row, op)
  {
  }

  /** What the call did is what the specification says of a write at instant `t`, and it
      touched no other key. */
  ghost predicate Follows(c: Memory.Cache, c': Memory.Cache, r: Memory.Outcome, k: Key, isDelete: bool, expected: nat, t: int) {
    && CacheView(c', k, t) == Written(CacheView(c, k, t), isDelete, expected, c.counter + 1)
    && r.Done? == Admitted(CacheView(c, k, t), isDelete, expected)
    && (forall k' :: k' != k ==> CacheView(c', k', t) == CacheView(c, k', t))
  }

  /** The in-memory put reads the clock for liveness, then for the version, then for the new
      expiry. It is a put of the specification at the first or the second reading, except when
      the entry expires between the two and carries the very version expected: then both
      instants admit the put and the call refuses it. */
  lemma CachePutMeetsSpec(c: Memory.Cache, k: Key, value: Bytes, ttl: int, expected: nat, t1: int, t2: int, t3: int)
    requires Memory.Consistent(c) && t1 <= t2 <= t3
    ensures var (c', r) := Memory.PutIf(c, k, value, ttl, expected, t1, t2, t3);
            Follows(c, c', r, k, false, expected, t1) || Follows(c, c', r, k, false, expected, t2) <==>
            !(Memory.Live(c, k, t1) && !Memory.Live(c, k, t2) && expected == Memory.EffectiveVersion(c, k, t1))
  {
  }

  /** The in-memory delete always is one: at the second reading when the entry expires in
      between, and else at the first. */
  lemma CacheDeleteMeetsSpec(c: Memory.Cache, k: Key, expected: nat, t1: int, t2: int)
    requires Memory.Consistent(c) && t1 <= t2
    ensures var (c', r) := Memory.DeleteIf(c, k, expected, t1, t2);
            Follows(c, c', r, k, true, expected, if Memory.Live(c, k, t1) && !Memory.Live(c, k, t2) then t2 else t1)
  {
  }
}
