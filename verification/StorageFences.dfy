/** Fence ordering in the storage machine, where conditional writes draw their stamps
    in one order and merge in another, and name another version than their caller did
    when they find the row expired (storage/cas.go). */
module StorageFences {
  import opened Rows
  import opened Merge
  import opened Storage
  import opened StorageInvariant
  import opened StorageSafety
  import opened StorageTheorems
  import opened CasSpec

  /** What conditional writes see of a key. */
  function ViewOf(s: State, k: Key): View {
    RowView(Lookup(s.rows, k))
  }

  /** What a key reads as determines what conditional writes see of it. */
  lemma SameMeaningSameView(s: State, s': State, k: Key)
    requires Meaning(s', k) == Meaning(s, k)
    ensures ViewOf(s', k) == ViewOf(s, k)
  {
  }

  /** The conditional write of `k` this step merges. */
  predicate MergesOn(s: State, a: Action, k: Key) {
    a.Swapping? && a.cas.MergeCas? && PcOf(s, a.t).CasStaged? && PcOf(s, a.t).key == k
  }

  /** The merge follows the sequential specification, whoever else is writing. */
  lemma MergeFollowsSpec(s: State, a: Action, k: Key)
    requires Inv(s) && MergesOn(s, a, k) && !BlindSpot(Lookup(s.rows, k), PcOf(s, a.t).op)
    ensures var op := PcOf(s, a.t).op;
            ViewOf(Step(s, a), k) == Written(ViewOf(s, k), op.opType == CasDelete, op.casExpected, op.version)
    ensures var op := PcOf(s, a.t).op;
            Admits(Lookup(s.rows, k), op) == Admitted(ViewOf(s, k), op.opType == CasDelete, op.casExpected)
  {
    var op, base := PcOf(s, a.t).op, Lookup(s.rows, k);
    assert PcOk(s, a.t);
    assert k in s.rows ==> RowOk(s, k, s.rows[k]);
    MergeMeetsSpec(base, op);
    assert Fold(base, [op]) == Resolve(base, op);
  }

  // ---- A call with nobody in between ----

  predicate Expired(row: Option<ValueMessage>, now: int) {
    row.Some? && !IsTombstone(row.value) && row.value.expiry > 0 && now >= row.value.expiry
  }

  /** What a call at `now` sees: an expired row is as good as none. */
  function ViewAt(s: State, k: Key, now: int): View {
    if Expired(Lookup(s.rows, k), now) then Absent else ViewOf(s, k)
  }

  function PutReady(s: State, t: Tid, k: Key, op: ValueMessage, bytes: Bytes, now: int): State {
    Step(Step(s, Swapping(t, StartCas(k, op, bytes))), Swapping(t, RefreshCas(now)))
  }

  /** A conditional put that runs to its merge alone, is admitted, and reads back its stamp. */
  predicate PutSucceeds(s: State, t: Tid, k: Key, op: ValueMessage, bytes: Bytes, now: int) {
    var s' := Step(PutReady(s, t, k, op, bytes, now), Swapping(t, MergeCas));
    PcOf(s', t).CasMerged? && PcOf(s', t).admitted && Reports(s', k, PcOf(s', t).op)
  }

  /** A thread that can start the put. */
  predicate CanPut(s: State, t: Tid, op: ValueMessage, bytes: Bytes) {
    PcOf(s, t).Idle? && op.version > s.lastStamp && op.opType == CasPut && Preparable(s, Adopt(op), bytes)
  }

  /** What the put proceeds to merge, if it does. */
  lemma PutGetsReady(s: State, t: Tid, k: Key, op: ValueMessage, bytes: Bytes, now: int)
    requires CanPut(s, t, op, bytes)
    ensures var s2, row := PutReady(s, t, k, op, bytes, now), Lookup(s.rows, k);
            && s2.rows == s.rows
            && PcOf(s2, t) == if Proceeds(op, row, now) then CasStaged(k, Translate(op, row, now), row, op.casExpected)
                              else Flushing(RawPaths(Some(op)))
  {
    var s1 := Step(s, Swapping(t, StartCas(k, op, bytes)));
    assert s1.rows == s.rows && PcOf(s1, t) == CasWritten(k, op);
  }

  /** The pre-merge check, the translation of the expected version and the merge together
      admit a put exactly when the specification does on what the clock leaves of the row. */
  lemma CheckedPutAdmits(row: Option<ValueMessage>, op: ValueMessage, now: int)
    requires op.opType == CasPut && (row.Some? ==> StoredForm(row.value))
    ensures Proceeds(op, row, now) && Admits(row, Translate(op, row, now)) <==>
            Admitted(if Expired(row, now) then Absent else RowView(row), false, op.casExpected)
  {
  }

  lemma MergeReports(s: State, t: Tid)
    requires PcOf(s, t).CasStaged? && PcOf(s, t).op.opType != NoOp
    ensures var pc, s' := PcOf(s, t), Step(s, Swapping(t, MergeCas));
            && PcOf(s', t) == CasMerged(pc.key, pc.op, pc.prev, Admits(Lookup(s.rows, pc.key), pc.op))
            && (Admits(Lookup(s.rows, pc.key), pc.op) ==> Reports(s', pc.key, pc.op))
  {
    var pc := PcOf(s, t);
    assert Fold(Lookup(s.rows, pc.key), [pc.op]) == Resolve(Lookup(s.rows, pc.key), pc.op);
  }

  /** A put that is not interfered with succeeds exactly when the specification admits it. */
  lemma PutAloneExactly(s: State, t: Tid, k: Key, op: ValueMessage, bytes: Bytes, now: int)
    requires Inv(s) && CanPut(s, t, op, bytes)
    ensures PutSucceeds(s, t, k, op, bytes, now) <==> Admitted(ViewAt(s, k, now), false, op.casExpected)
  {
    hide Step, Inv, PutReady, Proceeds, Translate, Admits, Admitted, Preparable;
    var row, s2 := Lookup(s.rows, k), PutReady(s, t, k, op, bytes, now);
    PutGetsReady(s, t, k, op, bytes, now);
    StoredRow(s, k);
    CheckedPutAdmits(row, op, now);
    TranslateKeepsKind(op, row, now);
    if Proceeds(op, row, now) {
      MergeReports(s2, t);
    } else {
      IdleMerge(s2, t);
    }
  }

  lemma StoredRow(s: State, k: Key)
    requires Inv(s)
    ensures k in s.rows ==> StoredForm(s.rows[k])
  {
    assert k in s.rows ==> RowOk(s, k, s.rows[k]);
  }

  lemma TranslateKeepsKind(op: ValueMessage, row: Option<ValueMessage>, now: int)
    ensures Translate(op, row, now).opType == op.opType && Translate(op, row, now).version == op.version
  {
  }

  lemma IdleMerge(s: State, t: Tid)
    requires !PcOf(s, t).CasStaged?
    ensures Step(s, Swapping(t, MergeCas)) == s
  {
  }

  function DeleteReady(s: State, t: Tid, k: Key, expected: nat, stamp: nat, now: int): State {
    Step(Step(s, Swapping(t, CheckDelete(k, expected, now))), Swapping(t, StampDelete(stamp)))
  }

  predicate DeleteSucceeds(s: State, t: Tid, k: Key, expected: nat, stamp: nat, now: int) {
    var s' := Step(DeleteReady(s, t, k, expected, stamp, now), Swapping(t, MergeCas));
    PcOf(s', t).CasMerged? && PcOf(s', t).admitted && Reports(s', k, PcOf(s', t).op)
  }

  lemma CheckIs(s: State, t: Tid, k: Key, expected: nat, now: int)
    requires PcOf(s, t).Idle?
    ensures var asking, row := DeleteOperand(0, expected), Lookup(s.rows, k);
            Step(s, Swapping(t, CheckDelete(k, expected, now))) ==
            if Proceeds(asking, row, now) then Go(s, t, CasChecked(k, Translate(asking, row, now).casExpected, row, expected)) else s
  {
    hide Proceeds, Translate;
  }

  lemma StampIs(s: State, t: Tid, stamp: nat)
    requires stamp > s.lastStamp
    ensures var pc, s' := PcOf(s, t), Step(s, Swapping(t, StampDelete(stamp)));
            s' == if pc.CasChecked?
                  then Go(s, t, CasStaged(pc.key, DeleteOperand(stamp, pc.guard), pc.prev, pc.asked))
                       .(lastStamp := stamp, owners := s.owners[stamp := t])
                  else s
  {
  }

  lemma DeleteGetsReady(s: State, t: Tid, k: Key, expected: nat, stamp: nat, now: int)
    requires PcOf(s, t).Idle? && stamp > s.lastStamp
    ensures var s2, row, asking := DeleteReady(s, t, k, expected, stamp, now), Lookup(s.rows, k), DeleteOperand(0, expected);
            && s2.rows == s.rows
            && PcOf(s2, t) == if Proceeds(asking, row, now)
                              then CasStaged(k, DeleteOperand(stamp, Translate(asking, row, now).casExpected), row, expected)
                              else Idle
  {
    hide Proceeds, Translate;
    CheckIs(s, t, k, expected, now);
    StampIs(Step(s, Swapping(t, CheckDelete(k, expected, now))), t, stamp);
  }

  /** For a delete too: the check before the merge keeps it out of the operator's blind spot. */
  lemma CheckedDeleteAdmits(row: Option<ValueMessage>, expected: nat, stamp: nat, now: int)
    requires row.Some? ==> StoredForm(row.value)
    ensures var asking := DeleteOperand(0, expected);
            Proceeds(asking, row, now) && Admits(row, DeleteOperand(stamp, Translate(asking, row, now).casExpected)) <==>
            Admitted(if Expired(row, now) then Absent else RowView(row), true, expected)
  {
  }

  lemma DeleteAloneExactly(s: State, t: Tid, k: Key, expected: nat, stamp: nat, now: int)
    requires Inv(s) && PcOf(s, t).Idle? && stamp > s.lastStamp
    ensures DeleteSucceeds(s, t, k, expected, stamp, now) <==> Admitted(ViewAt(s, k, now), true, expected)
  {
    hide Step, Inv, DeleteReady, Proceeds, Translate, Admits, Admitted;
    var row, s2 := Lookup(s.rows, k), DeleteReady(s, t, k, expected, stamp, now);
    DeleteGetsReady(s, t, k, expected, stamp, now);
    StoredRow(s, k);
    CheckedDeleteAdmits(row, expected, stamp, now);
    if Proceeds(DeleteOperand(0, expected), row, now) {
      MergeReports(s2, t);
    } else {
      IdleMerge(s2, t);
    }
  }

  /** A token handed out for an absent key is good as long as nobody writes the key. */
  lemma {:induction false} TokenAdmittedWhenQuiet(run: seq<Action>, more: seq<Action>, k: Key, now: int, token: nat,
                                                  t: Tid, op: ValueMessage, bytes: Bytes, later: int)
    requires var (state, fence) := Classify(Lookup(After(INIT, run).rows, k), now);
             state != CasLive && (state == CasFenced ==> token == fence)
    requires Undisturbed(After(INIT, run), more, k) && now <= later
    requires CanPut(After(INIT, run + more), t, op, bytes) && op.casExpected == token
    ensures PutSucceeds(After(INIT, run + more), t, k, op, bytes, later)
  {
    hide PutSucceeds, CanPut, Undisturbed;
    var s, s' := After(INIT, run), After(INIT, run + more);
    MeaningSurvives(run, more, k);
    RunKeepsInv(run);
    RunKeepsInv(run + more);
    StoredRow(s, k);
    StoredRow(s', k);
    PutAloneExactly(s', t, k, op, bytes, later);
    QuietViewAdmits(s, s', k, now, later, token);
  }

  /** The steps of an absent read, with others in between. */
  function ReadSteps(r: Tid, k: Key, now: int, mid: seq<Action>, stamp: nat): seq<Action> {
    [Swapping(r, ReadAbsent(k, now))] + mid + [Swapping(r, IssueToken(stamp))]
  }

  lemma ReadAbsentIs(s: State, r: Tid, k: Key, now: int)
    requires PcOf(s, r).Idle?
    ensures var pc := PcOf(Step(s, Swapping(r, ReadAbsent(k, now))), r);
            var (state, fence) := Classify(Lookup(s.rows, k), now);
            pc == if state == CasLive then Idle else if state == CasFenced then TokenRead(k, fence) else TokenWanted(k)
  {
    hide Classify;
  }

  lemma IssueTokenIs(s: State, r: Tid, stamp: nat)
    ensures PcOf(s, r).TokenRead? ==> PcOf(Step(s, Swapping(r, IssueToken(stamp))), r) == PcOf(s, r)
  {
  }

  /** A key read as absent: whatever token the read returned, a put that asks with it succeeds as
      long as nobody has written the key since. */
  lemma {:induction false} ReadTokenAdmitted(run: seq<Action>, mid: seq<Action>, more: seq<Action>, r: Tid, k: Key, now: int, stamp: nat,
                                             t: Tid, op: ValueMessage, bytes: Bytes, later: int)
    requires var s := After(INIT, run); var s1 := Step(s, Swapping(r, ReadAbsent(k, now)));
             && PcOf(s, r).Idle? && !PcOf(s1, r).Idle? && PcOf(After(s1, mid), r) == PcOf(s1, r)
             && PcOf(Step(After(s1, mid), Swapping(r, IssueToken(stamp))), r).TokenRead?
             && op.casExpected == PcOf(Step(After(s1, mid), Swapping(r, IssueToken(stamp))), r).token
    requires Undisturbed(After(INIT, run), ReadSteps(r, k, now, mid, stamp) + more, k) && now <= later
    requires CanPut(After(INIT, run + (ReadSteps(r, k, now, mid, stamp) + more)), t, op, bytes)
    ensures PutSucceeds(After(INIT, run + (ReadSteps(r, k, now, mid, stamp) + more)), t, k, op, bytes, later)
  {
    hide Step, Undisturbed, CanPut, PutSucceeds, ReadSteps, Classify;
    var s := After(INIT, run);
    ReadAbsentIs(s, r, k, now);
    IssueTokenIs(After(Step(s, Swapping(r, ReadAbsent(k, now))), mid), r, stamp);
    TokenAdmittedWhenQuiet(run, ReadSteps(r, k, now, mid, stamp) + more, k, now, op.casExpected, t, op, bytes, later);
  }

  lemma QuietViewAdmits(s: State, s': State, k: Key, now: int, later: int, token: nat)
    requires var (state, fence) := Classify(Lookup(s.rows, k), now); state != CasLive && (state == CasFenced ==> token == fence)
    requires (Meaning(s', k) == Meaning(s, k) || Dropped(s, s', k)) && now <= later
    requires (k in s.rows ==> StoredForm(s.rows[k])) && (k in s'.rows ==> StoredForm(s'.rows[k]))
    ensures Admitted(ViewAt(s', k, later), false, token)
  {
  }

  // ---- Stamps drawn before and after ----

  /** Has drawn its stamp and not merged yet. */
  predicate Pending(pc: Pc) {
    pc.CasWritten? || pc.CasStaged?
  }

  /** The stamp a thread is about to merge stays, or is new. */
  predicate KeepsStamp(s: State, s': State, t: Tid) {
    var pc, pc' := PcOf(s, t), PcOf(s', t);
    Pending(pc') ==> (Pending(pc) && pc'.op.version == pc.op.version) || pc'.op.version > s.lastStamp
  }

  lemma CasKeepsStamp(s: State, t: Tid, a: CasAction)
    ensures KeepsStamp(s, CasStep(s, t, a), t)
  {
    hide Preparable, WriteFile, Publish, Proceeds, Translate, Classify, MergeRow, Reports, Admits;
    if a.RefreshCas? && PcOf(s, t).CasWritten? {
      TranslateKeepsKind(PcOf(s, t).op, Lookup(s.rows, PcOf(s, t).key), a.now);
    }
  }

  lemma StepKeepsStamp(s: State, a: Action, t: Tid)
    requires Inv(s)
    ensures KeepsStamp(s, Step(s, a), t)
  {
    hide PutStep, DeleteStep, CasStep, QueueStep, CompactStep, RecompactStep, EnvironmentStep, Inv;
    if a.Environment? || a.t != t {
      OthersStay(s, a, t);
    } else if a.Swapping? {
      CasKeepsStamp(s, t, a.cas);
    } else if InCas(PcOf(Step(s, a), t)) {
      OwnStep(s, a);
    }
  }

  lemma StampsGrow(s: State, a: Action)
    requires Inv(s)
    ensures s.lastStamp <= Step(s, a).lastStamp
  {
    hide PcOk, RowsOk, StoreOk, OneRecompactor, RowChange, PutStep, DeleteStep, CasStep, QueueStep, CompactStep, RecompactStep;
    if !a.Environment? {
      assert PcOk(s, a.t);
      StepCarries(s, a);
    }
  }

  /** What `t` is about to merge, if anything, is stamped after `v`. */
  predicate StampedAfter(s: State, t: Tid, v: nat) {
    Pending(PcOf(s, t)) ==> PcOf(s, t).op.version > v
  }

  /** A thread that has no stamp yet draws one that exceeds all stamps drawn so far. */
  lemma {:induction false} LaterStamps(s: State, more: seq<Action>, t: Tid)
    requires Inv(s) && !Pending(PcOf(s, t))
    ensures Inv(After(s, more)) && s.lastStamp <= After(s, more).lastStamp && StampedAfter(After(s, more), t, s.lastStamp)
  {
    hide Inv, Step;
    if more != [] {
      var s1, a := After(s, more[..|more| - 1]), more[|more| - 1];
      LaterStamps(s, more[..|more| - 1], t);
      StepKeepsInv(s1, a);
      StampsGrow(s1, a);
      StepKeepsStamp(s1, a, t);
    }
  }

  predicate StampedApart(s: State, t: Tid, v: nat) {
    Pending(PcOf(s, t)) ==> PcOf(s, t).op.version != v
  }

  /** The token was issued, and nobody is about to merge it as a stamp. */
  ghost predicate Settled(s: State, token: nat) {
    0 < token <= s.lastStamp && forall t: Tid :: StampedApart(s, t, token)
  }

  lemma StepSettles(s: State, a: Action, token: nat)
    requires Inv(s) && Settled(s, token)
    ensures Settled(Step(s, a), token)
  {
    hide Step, Inv;
    StampsGrow(s, a);
    forall t: Tid ensures StampedApart(Step(s, a), t, token) {
      assert StampedApart(s, t, token);
      StepKeepsStamp(s, a, t);
    }
  }

  lemma {:induction false} RunSettles(s: State, more: seq<Action>, token: nat)
    requires Inv(s) && Settled(s, token)
    ensures Inv(After(s, more)) && Settled(After(s, more), token)
  {
    hide Settled, Step;
    if more != [] {
      var s1, a := After(s, more[..|more| - 1]), more[|more| - 1];
      RunSettles(s, more[..|more| - 1], token);
      StepKeepsInv(s1, a);
      StepSettles(s1, a, token);
    }
  }

  /** An absent read returns the fence, which is nobody's pending stamp ... */
  lemma FenceSettles(s: State, t: Tid, k: Key, now: int, token: nat)
    requires Inv(s) && CasStep(s, t, ReadAbsent(k, now)) == Go(s, t, TokenRead(k, token))
    requires Classify(Lookup(s.rows, k), now) == (CasFenced, token)
    ensures Settled(Go(s, t, TokenRead(k, token)), token)
  {
    hide StoreOk, OneRecompactor, CasStep;
    assert RowOk(s, k, s.rows[k]);
    forall u: Tid ensures StampedApart(Go(s, t, TokenRead(k, token)), u, token) {
      assert PcOk(s, u);
    }
  }

  /** ... or a new stamp. */
  lemma IssueSettles(s: State, t: Tid, k: Key, stamp: nat)
    requires Inv(s) && stamp > s.lastStamp
    ensures Settled(Go(s, t, TokenRead(k, stamp)).(lastStamp := stamp, owners := s.owners[stamp := t]), stamp)
  {
    var s' := Go(s, t, TokenRead(k, stamp)).(lastStamp := stamp, owners := s.owners[stamp := t]);
    forall u: Tid ensures StampedApart(s', u, stamp) {
      assert PcOk(s, u);
    }
  }

  /** These are the only two ways. */
  lemma TokenComes(s: State, t: Tid, a: CasAction)
    requires PcOf(CasStep(s, t, a), t).TokenRead? && PcOf(CasStep(s, t, a), t) != PcOf(s, t)
    ensures var s', pc := CasStep(s, t, a), PcOf(CasStep(s, t, a), t);
            || (a.ReadAbsent? && a.key == pc.key && Classify(Lookup(s.rows, pc.key), a.now) == (CasFenced, pc.token)
                && s' == Go(s, t, pc))
            || (a.IssueToken? && a.stamp == pc.token && pc.token > s.lastStamp
                && s' == Go(s, t, pc).(lastStamp := pc.token, owners := s.owners[pc.token := t]))
  {
    hide Preparable, WriteFile, Publish, Proceeds, Translate, MergeRow, Reports, Admits, Classify;
    assert a.ReadAbsent? || a.IssueToken?;
  }

  lemma TokenSettles(s: State, t: Tid, a: CasAction)
    requires Inv(s) && PcOf(CasStep(s, t, a), t).TokenRead? && PcOf(CasStep(s, t, a), t) != PcOf(s, t)
    ensures Settled(CasStep(s, t, a), PcOf(CasStep(s, t, a), t).token)
  {
    hide Inv, Settled, CasStep;
    TokenComes(s, t, a);
    var pc := PcOf(CasStep(s, t, a), t);
    if a.ReadAbsent? {
      FenceSettles(s, t, a.key, a.now, pc.token);
    } else {
      IssueSettles(s, t, pc.key, a.stamp);
    }
  }

  lemma {:induction false} TokenIsSettled(run: seq<Action>, r: Tid)
    requires PcOf(After(INIT, run), r).TokenRead?
    ensures Settled(After(INIT, run), PcOf(After(INIT, run), r).token)
  {
    hide Settled, CasStep, PutStep, DeleteStep, QueueStep, CompactStep, RecompactStep, Inv;
    var init, a := run[..|run| - 1], run[|run| - 1];
    var s := After(INIT, init);
    RunKeepsInv(init);
    if a.Environment? || a.t != r {
      OthersStay(s, a, r);
    } else if !a.Swapping? {
      OwnStep(s, a);
    } else if PcOf(Step(s, a), r) != PcOf(s, r) {
      TokenSettles(s, r, a.cas);
    }
    if PcOf(s, r) == PcOf(After(INIT, run), r) {
      TokenIsSettled(init, r);
      StepSettles(s, a, PcOf(s, r).token);
    }
  }

  // ---- Fence ordering ----

  /** This step merges a conditional write of `k` whose caller asked with `token`. */
  predicate AsksWith(s: State, a: Action, k: Key, token: nat) {
    MergesOn(s, a, k) && PcOf(s, a.t).asked == token
  }

  predicate AdmittedAt(s: State, a: Action, k: Key) {
    MergesOn(s, a, k) && Admits(Lookup(s.rows, k), PcOf(s, a.t).op)
  }

  /** Nothing but conditional writes touches `k`. */
  ghost predicate CasOnly(s: State, a: Action, k: Key) {
    (WritesKey(s, a, k) ==> MergesOn(s, a, k)) && !Dropped(s, Step(s, a), k)
  }

  /** A delete that drew its stamp before the token was issued is admitted only now. */
  predicate StaleDelete(s: State, a: Action, k: Key, token: nat) {
    AdmittedAt(s, a, k) && PcOf(s, a.t).op.opType == CasDelete && PcOf(s, a.t).op.version < token
  }

  /** A write that asked with the token found the row expired, so it expects that row's
      version instead, and the key still admits that. */
  predicate ExpiredRow(s: State, a: Action, k: Key, token: nat) {
    && AsksWith(s, a, k, token)
    && var pc := PcOf(s, a.t);
       pc.op.casExpected != token && pc.prev.Some? &&
       Admitted(ViewOf(s, k), pc.op.opType == CasDelete, EffectiveRowVersion(pc.prev.value))
  }

  predicate Ordered(s: State, a: Action, k: Key, token: nat) {
    !StaleDelete(s, a, k, token) && !ExpiredRow(s, a, k, token)
  }

  /** From a key shut against the token, one step opens it, or admits the token, exactly in
      these two cases. */
  lemma StepExactly(s: State, a: Action, k: Key, token: nat)
    requires Inv(s) && Settled(s, token) && Shut(ViewOf(s, k), token) && CasOnly(s, a, k)
    ensures Shut(ViewOf(Step(s, a), k), token) <==> !StaleDelete(s, a, k, token)
    ensures AsksWith(s, a, k, token) && AdmittedAt(s, a, k) <==> ExpiredRow(s, a, k, token)
  {
    hide Step, Meaning, Dropped, WritesKey;
    if MergesOn(s, a, k) {
      var pc := PcOf(s, a.t);
      assert StampedApart(s, a.t, token);
      MergeFollowsSpec(s, a, k);
      ShutExactly(ViewOf(s, k), token, pc.op.opType == CasDelete, pc.op.casExpected, pc.op.version);
      assert PcOk(s, a.t);
      ShutRefuses(ViewOf(s, k), token);
    } else {
      StepUnmoved(s, a, k);
    }
  }

  lemma StepUnmoved(s: State, a: Action, k: Key)
    requires Inv(s) && CasOnly(s, a, k) && !MergesOn(s, a, k)
    ensures ViewOf(Step(s, a), k) == ViewOf(s, k)
  {
    StepMeaning(s, a, k);
    SameMeaningSameView(s, Step(s, a), k);
  }

  ghost predicate CasOnlyRun(s: State, more: seq<Action>, k: Key) {
    forall i :: 0 <= i < |more| ==> CasOnly(After(s, more[..i]), more[i], k)
  }

  ghost predicate OrderedRun(s: State, more: seq<Action>, k: Key, token: nat) {
    forall i :: 0 <= i < |more| ==> Ordered(After(s, more[..i]), more[i], k, token)
  }

  /** The step admits no write that asked with the token, and a put with it would still be
      refused afterwards. */
  predicate Refuses(s: State, a: Action, k: Key, token: nat) {
    !(AsksWith(s, a, k, token) && AdmittedAt(s, a, k)) && Shut(ViewOf(Step(s, a), k), token)
  }

  ghost predicate RefusingRun(s: State, more: seq<Action>, k: Key, token: nat) {
    forall i :: 0 <= i < |more| ==> Refuses(After(s, more[..i]), more[i], k, token)
  }

  lemma {:induction false} NextState(s: State, more: seq<Action>, i: nat)
    requires i < |more|
    ensures After(s, more[..i + 1]) == Step(After(s, more[..i]), more[i])
  {
    assert more[..i + 1][..i] == more[..i];
  }

  lemma {:induction false} RunStaysShut(s: State, more: seq<Action>, k: Key, token: nat, n: nat)
    requires Inv(s) && Settled(s, token) && Shut(ViewOf(s, k), token) && CasOnlyRun(s, more, k) && OrderedRun(s, more, k, token)
    requires n <= |more|
    ensures Shut(ViewOf(After(s, more[..n]), k), token)
  {
    hide Inv, Settled, Shut, Step, CasOnly, StaleDelete;
    if n > 0 {
      RunStaysShut(s, more, k, token, n - 1);
      RunSettles(s, more[..n - 1], token);
      NextState(s, more, n - 1);
      StepExactly(After(s, more[..n - 1]), more[n - 1], k, token);
    } else {
      assert more[..n] == [];
    }
  }

  /** Over whole concurrent runs in which nothing but conditional writes touches the key, the
      token stays refused exactly when no delete stamped before it is admitted and no write
      asking with it wins over a row it found expired. */
  lemma FenceHoldsExactly(s: State, more: seq<Action>, k: Key, token: nat)
    requires Inv(s) && Settled(s, token) && Shut(ViewOf(s, k), token) && CasOnlyRun(s, more, k)
    ensures OrderedRun(s, more, k, token) <==> RefusingRun(s, more, k, token)
  {
    hide Inv, Settled, Shut, Step, CasOnly, StaleDelete, ExpiredRow, AsksWith, AdmittedAt;
    if OrderedRun(s, more, k, token) {
      forall i | 0 <= i < |more| ensures Refuses(After(s, more[..i]), more[i], k, token) {
        RunStaysShut(s, more, k, token, i);
        RunSettles(s, more[..i], token);
        StepExactly(After(s, more[..i]), more[i], k, token);
      }
    }
    if RefusingRun(s, more, k, token) {
      forall i | 0 <= i < |more| ensures Ordered(After(s, more[..i]), more[i], k, token) {
        if i > 0 {
          assert Refuses(After(s, more[..i - 1]), more[i - 1], k, token);
          NextState(s, more, i - 1);
        } else {
          assert more[..i] == [];
        }
        RunSettles(s, more[..i], token);
        StepExactly(After(s, more[..i]), more[i], k, token);
      }
    }
  }

  /** To be shut against a token is to refuse any put with it that is not interfered with, until
      the row expires; from then on every such put succeeds. */
  lemma ShutExactlyRefuses(s: State, t: Tid, k: Key, op: ValueMessage, bytes: Bytes, now: int)
    requires Inv(s) && CanPut(s, t, op, bytes) && op.casExpected > 0
    ensures PutSucceeds(s, t, k, op, bytes, now) <==>
            !Shut(ViewOf(s, k), op.casExpected) || Expired(Lookup(s.rows, k), now)
  {
    hide Inv, PutSucceeds, CanPut;
    PutAloneExactly(s, t, k, op, bytes, now);
    ShutRefuses(ViewOf(s, k), op.casExpected);
  }

  /** A write that asked with the token found the row expired. */
  predicate FoundExpired(s: State, a: Action, k: Key, token: nat) {
    AsksWith(s, a, k, token) && PcOf(s, a.t).op.casExpected != token
  }

  /** No delete stamped before the token is admitted, and nobody who asks with it finds the row expired. */
  ghost predicate UndisturbedRun(s: State, more: seq<Action>, k: Key, token: nat) {
    forall i :: 0 <= i < |more| ==>
      var s1 := After(s, more[..i]); !StaleDelete(s1, more[i], k, token) && !FoundExpired(s1, more[i], k, token)
  }

  lemma UndisturbedIsOrdered(s: State, more: seq<Action>, k: Key, token: nat)
    requires UndisturbedRun(s, more, k, token)
    ensures OrderedRun(s, more, k, token)
  {
    hide Step, StaleDelete;
  }

  /** Fence ordering: an absent read returned the token, a conditional delete that had not
      drawn its stamp by then is admitted later, and from there on no write that asks with the
      token is admitted, however many conditional writes, migrations, crashes and writes of
      other keys follow. */
  lemma {:induction false} TokenStaysRefused(run: seq<Action>, mid: seq<Action>, more: seq<Action>, r: Tid, d: Tid, k: Key,
                                             token: nat, i: nat)
    requires PcOf(After(INIT, run), r) == TokenRead(k, token) && !Pending(PcOf(After(INIT, run), d))
    requires var s := After(INIT, run + mid); AdmittedAt(s, Swapping(d, MergeCas), k) && PcOf(s, d).op.opType == CasDelete
    requires var s' := Step(After(INIT, run + mid), Swapping(d, MergeCas));
             CasOnlyRun(s', more, k) && OrderedRun(s', more, k, token)
    requires var s' := Step(After(INIT, run + mid), Swapping(d, MergeCas));
             i < |more| && AsksWith(After(s', more[..i]), more[i], k, token)
    ensures var s' := Step(After(INIT, run + mid), Swapping(d, MergeCas)); !AdmittedAt(After(s', more[..i]), more[i], k)
  {
    hide Step, Inv, Settled, CasOnlyRun, OrderedRun, AsksWith, Shut;
    TokenIsSettled(run, r);
    RefusedFromThere(run, mid, more, d, k, token, i);
  }

  /** The same with the plain condition on the writes that ask with the token: none of them
      found the row expired when it last read it. */
  lemma {:induction false} TokenRefusedUnlessExpired(run: seq<Action>, mid: seq<Action>, more: seq<Action>, r: Tid, d: Tid,
                                                     k: Key, token: nat, i: nat)
    requires PcOf(After(INIT, run), r) == TokenRead(k, token) && !Pending(PcOf(After(INIT, run), d))
    requires var s := After(INIT, run + mid); AdmittedAt(s, Swapping(d, MergeCas), k) && PcOf(s, d).op.opType == CasDelete
    requires var s' := Step(After(INIT, run + mid), Swapping(d, MergeCas));
             CasOnlyRun(s', more, k) && UndisturbedRun(s', more, k, token)
    requires var s' := Step(After(INIT, run + mid), Swapping(d, MergeCas));
             i < |more| && AsksWith(After(s', more[..i]), more[i], k, token)
    ensures var s' := Step(After(INIT, run + mid), Swapping(d, MergeCas)); !AdmittedAt(After(s', more[..i]), more[i], k)
  {
    hide Step, Inv, CasOnlyRun, OrderedRun, UndisturbedRun, AsksWith, AdmittedAt;
    UndisturbedIsOrdered(Step(After(INIT, run + mid), Swapping(d, MergeCas)), more, k, token);
    TokenStaysRefused(run, mid, more, r, d, k, token, i);
  }

  /** The version a row shows was issued, and nobody is about to merge it again. */
  lemma VersionIsSettled(s: State, k: Key)
    requires Inv(s) && k in s.rows && EffectiveRowVersion(s.rows[k]) > 0
    ensures Settled(s, EffectiveRowVersion(s.rows[k]))
  {
    hide QueueOk, OneRecompactor;
    assert RowOk(s, k, s.rows[k]);
    forall t: Tid ensures StampedApart(s, t, EffectiveRowVersion(s.rows[k])) {
      assert PcOk(s, t);
    }
  }

  /** Lost-update freedom: a version already issued, a row's or a token, is asked with and
      admitted; the write had not drawn its stamp when the version was issued. From there on no
      write that asks with it is admitted, under the same two conditions. */
  lemma {:induction false} ExpectedSucceedsOnce(run: seq<Action>, mid: seq<Action>, more: seq<Action>, t: Tid, k: Key,
                                                expected: nat, i: nat)
    requires Settled(After(INIT, run), expected) && !Pending(PcOf(After(INIT, run), t))
    requires var s, a := After(INIT, run + mid), Swapping(t, MergeCas); AsksWith(s, a, k, expected) && AdmittedAt(s, a, k)
    requires var s' := Step(After(INIT, run + mid), Swapping(t, MergeCas));
             CasOnlyRun(s', more, k) && OrderedRun(s', more, k, expected)
    requires var s' := Step(After(INIT, run + mid), Swapping(t, MergeCas));
             i < |more| && AsksWith(After(s', more[..i]), more[i], k, expected)
    ensures var s' := Step(After(INIT, run + mid), Swapping(t, MergeCas)); !AdmittedAt(After(s', more[..i]), more[i], k)
  {
    hide Step, Inv, Settled, CasOnlyRun, OrderedRun, AsksWith, AdmittedAt;
    RefusedFromThere(run, mid, more, t, k, expected, i);
  }

  /** Any conditional write stamped after the token was issued and admitted is enough. */
  lemma {:induction false} RefusedFromThere(run: seq<Action>, mid: seq<Action>, more: seq<Action>, d: Tid, k: Key, token: nat, i: nat)
    requires Settled(After(INIT, run), token) && !Pending(PcOf(After(INIT, run), d))
    requires AdmittedAt(After(INIT, run + mid), Swapping(d, MergeCas), k)
    requires var s' := Step(After(INIT, run + mid), Swapping(d, MergeCas));
             CasOnlyRun(s', more, k) && OrderedRun(s', more, k, token)
    requires var s' := Step(After(INIT, run + mid), Swapping(d, MergeCas));
             i < |more| && AsksWith(After(s', more[..i]), more[i], k, token)
    ensures var s' := Step(After(INIT, run + mid), Swapping(d, MergeCas)); !AdmittedAt(After(s', more[..i]), more[i], k)
  {
    hide Step, Inv, Settled, CasOnlyRun, OrderedRun, AsksWith, Shut;
    var s, a := After(INIT, run + mid), Swapping(d, MergeCas);
    RunKeepsInv(run);
    AfterAppend(INIT, run, mid);
    LaterWrite(After(INIT, run), mid, d, k, token);
    FenceHoldsExactly(Step(s, a), more, k, token);
    assert Refuses(After(Step(s, a), more[..i]), more[i], k, token);
  }

  /** A write that is admitted leaves the key shut against every token issued before it drew its stamp. */
  lemma {:induction false} LaterWrite(s: State, mid: seq<Action>, d: Tid, k: Key, token: nat)
    requires Inv(s) && Settled(s, token) && !Pending(PcOf(s, d)) && AdmittedAt(After(s, mid), Swapping(d, MergeCas), k)
    ensures var s' := Step(After(s, mid), Swapping(d, MergeCas)); Inv(s') && Settled(s', token) && Shut(ViewOf(s', k), token)
  {
    hide Step, Inv;
    var s1, a := After(s, mid), Swapping(d, MergeCas);
    LaterStamps(s, mid, d);
    RunSettles(s, mid, token);
    StepKeepsInv(s1, a);
    StepSettles(s1, a, token);
    WriteShows(s1, d, k);
  }

  lemma WriteShows(s: State, d: Tid, k: Key)
    requires Inv(s) && AdmittedAt(s, Swapping(d, MergeCas), k)
    ensures var op, view := PcOf(s, d).op, ViewOf(Step(s, Swapping(d, MergeCas)), k);
            view == if op.opType == CasDelete then Fenced(op.version) else Present(op.version)
  {
    hide RowsOk, StoreOk, OneRecompactor;
    var op := PcOf(s, d).op;
    assert PcOk(s, d);
    assert Fold(Lookup(s.rows, k), [op]) == Resolve(Lookup(s.rows, k), op);
  }

  // ---- What happens otherwise ----

  const READ: Pc := TokenRead("k", 3)

  /** A delete has drawn stamp 2; then an absent read was given token 3; then a second delete
      has drawn stamp 4. */
  const OVERLAPPING := INIT.(lastStamp := 4, owners := map[2 := 0, 3 := 2, 4 := 1],
                             threads := map[0 := CasStaged("k", DeleteOperand(2, 0), None, 0), 2 := READ,
                                            1 := CasStaged("k", DeleteOperand(4, 0), None, 0)])

  function StampedDelete(s: State, t: Tid, stamp: nat): State {
    Step(Step(s, Swapping(t, CheckDelete("k", 0, 9))), Swapping(t, StampDelete(stamp)))
  }

  function ReadToken(s: State, t: Tid, stamp: nat): State {
    Step(Step(s, Swapping(t, ReadAbsent("k", 9))), Swapping(t, IssueToken(stamp)))
  }

  lemma StampedDeleteIs(s: State, t: Tid, stamp: nat)
    requires "k" !in s.rows && PcOf(s, t).Idle? && stamp > s.lastStamp
    ensures StampedDelete(s, t, stamp) ==
            Go(s, t, CasStaged("k", DeleteOperand(stamp, 0), None, 0)).(lastStamp := stamp, owners := s.owners[stamp := t])
  {
    hide Step;
    CheckIs(s, t, "k", 0, 9);
    StampIs(Go(s, t, CasChecked("k", 0, None, 0)), t, stamp);
    assert s.threads[t := CasChecked("k", 0, None, 0)][t := CasStaged("k", DeleteOperand(stamp, 0), None, 0)]
        == s.threads[t := CasStaged("k", DeleteOperand(stamp, 0), None, 0)];
  }

  lemma ReadTokenIs(s: State, t: Tid, stamp: nat)
    requires "k" !in s.rows && PcOf(s, t).Idle? && stamp > s.lastStamp
    ensures ReadToken(s, t, stamp) ==
            Go(s, t, TokenRead("k", stamp)).(lastStamp := stamp, owners := s.owners[stamp := t])
  {
    assert Step(s, Swapping(t, ReadAbsent("k", 9))) == Go(s, t, TokenWanted("k"));
    assert s.threads[t := TokenWanted("k")][t := TokenRead("k", stamp)] == s.threads[t := TokenRead("k", stamp)];
  }

  /** Two more steps of a run. */
  lemma {:induction false} AfterTwoMore(run: seq<Action>, a: Action, b: Action)
    ensures After(INIT, run + [a, b]) == Step(Step(After(INIT, run), a), b)
  {
    AfterAppend(INIT, run, [a, b]);
    AfterTwo(After(INIT, run), a, b);
  }

  lemma {:induction false} AfterOneMore(run: seq<Action>, a: Action)
    ensures After(INIT, run + [a]) == Step(After(INIT, run), a)
  {
    assert (run + [a])[..|run|] == run;
  }

  lemma OverlappingRun() returns (run: seq<Action>)
    ensures After(INIT, run) == OVERLAPPING
  {
    hide Step, After;
    var check0, check1, read := Swapping(0, CheckDelete("k", 0, 9)), Swapping(1, CheckDelete("k", 0, 9)), Swapping(2, ReadAbsent("k", 9));
    var first := [] + [check0, Swapping(0, StampDelete(2))];
    var second := first + [read, Swapping(2, IssueToken(3))];
    run := second + [check1, Swapping(1, StampDelete(4))];
    NothingRun();
    AfterTwoMore([], check0, Swapping(0, StampDelete(2)));
    StampedDeleteIs(INIT, 0, 2);
    AfterTwoMore(first, read, Swapping(2, IssueToken(3)));
    ReadTokenIs(After(INIT, first), 2, 3);
    AfterTwoMore(second, check1, Swapping(1, StampDelete(4)));
    StampedDeleteIs(After(INIT, second), 1, 4);
    assert After(INIT, run).owners == OVERLAPPING.owners && After(INIT, run).threads == OVERLAPPING.threads;
  }

  lemma NothingRun()
    ensures After(INIT, []) == INIT
  {
  }

  const FAST := Swapping(1, MergeCas)
  const SLOW := Swapping(0, MergeCas)

  /** The one stamped last merges first and is reported as a success; token 3 is refused. */
  lemma FastMerge()
    ensures var s := Step(OVERLAPPING, FAST);
            && s.rows == map["k" := Tombstone(4)] && s.lastStamp == 4 && s.born == map[] && s.segs == map[]
            && PcOf(s, 0) == CasStaged("k", DeleteOperand(2, 0), None, 0) && PcOf(s, 3).Idle?
            && PcOf(s, 1).CasMerged? && PcOf(s, 1).op == DeleteOperand(4, 0) && Reports(s, "k", PcOf(s, 1).op)
            && Shut(ViewOf(s, "k"), 3)
  {
  }

  /** The one stamped first merges last and moves the fence back. */
  lemma SlowMerge(s: State)
    requires s.rows == map["k" := Tombstone(4)] && PcOf(s, 0) == CasStaged("k", DeleteOperand(2, 0), None, 0) && PcOf(s, 3).Idle?
    ensures var s' := Step(s, SLOW);
            && s'.rows == map["k" := Tombstone(2)] && s'.lastStamp == s.lastStamp && s'.born == s.born && s'.segs == s.segs
            && PcOf(s', 3).Idle? && !Shut(ViewOf(s', "k"), 3)
  {
    assert Fold(Some(Tombstone(4)), [DeleteOperand(2, 0)]) == Resolve(Some(Tombstone(4)), DeleteOperand(2, 0));
  }

  /** An inline put operand of one byte. */
  function ByteOperand(expiry: int, stamp: nat, expected: nat): ValueMessage {
    ValueMessage(Inline, [7], expiry, "", "", 0, 1, 0, stamp, CasPut, expected)
  }

  /** Two deletes of a missing key overlap with an absent read: a success is reported, the
      token is refused, and then a put that asks with it succeeds after all. */
  lemma FenceMovesBack() returns (run: seq<Action>)
    ensures var s := After(INIT, run);
            && PcOf(s, 2) == TokenRead("k", 3)
            && PcOf(s, 1).CasMerged? && PcOf(s, 1).op == DeleteOperand(4, 0) && Reports(s, "k", PcOf(s, 1).op)
            && Shut(ViewOf(s, "k"), 3)
    ensures PutSucceeds(After(INIT, run + [SLOW]), 3, "k", ByteOperand(0, 5, 3), [7], 9)
  {
    hide After, PutSucceeds, Inv;
    var before := OverlappingRun();
    run := before + [FAST];
    AfterOneMore(before, FAST);
    FastMerge();
    AfterOneMore(run, SLOW);
    SlowMerge(After(INIT, run));
    RunKeepsInv(run + [SLOW]);
    ShutExactlyRefuses(After(INIT, run + [SLOW]), 3, "k", ByteOperand(0, 5, 3), [7], 9);
    assert PcOf(OVERLAPPING, 2) == READ;
  }

  /** An absent read was given token 2, and a delete stamped 3 was admitted and reported. */
  const FENCED := INIT.(lastStamp := 3, owners := map[2 := 0, 3 := 1], rows := map["k" := Tombstone(3)],
                        threads := map[0 := TokenRead("k", 2), 1 := CasMerged("k", DeleteOperand(3, 0), None, true)])

  lemma FencedRun() returns (run: seq<Action>)
    ensures After(INIT, run) == FENCED
  {
    hide Step, After;
    var read, check := Swapping(0, ReadAbsent("k", 9)), Swapping(1, CheckDelete("k", 0, 9));
    var first := [] + [read, Swapping(0, IssueToken(2))];
    var second := first + [check, Swapping(1, StampDelete(3))];
    run := second + [Swapping(1, MergeCas)];
    NothingRun();
    AfterTwoMore([], read, Swapping(0, IssueToken(2)));
    ReadTokenIs(INIT, 0, 2);
    AfterTwoMore(first, check, Swapping(1, StampDelete(3)));
    StampedDeleteIs(After(INIT, first), 1, 3);
    AfterOneMore(second, Swapping(1, MergeCas));
    FencedMerge(After(INIT, second));
  }

  lemma FencedMerge(s: State)
    requires s == FENCED.(rows := map[], threads := map[0 := TokenRead("k", 2), 1 := CasStaged("k", DeleteOperand(3, 0), None, 0)])
    ensures Step(s, Swapping(1, MergeCas)) == FENCED
  {
    assert Fold(None, [DeleteOperand(3, 0)]) == Resolve(None, DeleteOperand(3, 0));
  }

  /** A put recreates the key with an expiry of 10. */
  const RECREATE := ByteOperand(10, 4, 0)

  const RECREATING := FENCED.(lastStamp := 4, owners := FENCED.owners[4 := 2],
                              threads := FENCED.threads[2 := CasWritten("k", RECREATE)])

  lemma RecreateStarts()
    ensures Step(FENCED, Swapping(2, StartCas("k", RECREATE, [7]))) == RECREATING
  {
  }

  lemma RecreateRefreshes()
    ensures Step(RECREATING, Swapping(2, RefreshCas(5))) ==
            Go(RECREATING, 2, CasStaged("k", RECREATE, Some(Tombstone(3)), 0))
  {
  }

  lemma RecreateMerge(s: State)
    requires s.rows == map["k" := Tombstone(3)] && PcOf(s, 2) == CasStaged("k", RECREATE, Some(Tombstone(3)), 0)
    ensures var s' := Step(s, Swapping(2, MergeCas));
            && s'.rows == map["k" := Adopt(RECREATE)] && s'.lastStamp == s.lastStamp && s'.born == s.born && s'.segs == s.segs
            && PcOf(s', 3) == PcOf(s, 3) && PcOf(s', 0) == PcOf(s, 0)
  {
    assert Fold(Some(Tombstone(3)), [RECREATE]) == Resolve(Some(Tombstone(3)), RECREATE);
  }

  lemma RecreatedRow(s: State)
    requires s.rows == map["k" := Adopt(RECREATE)] && s.lastStamp == 4 && PcOf(s, 3).Idle?
    ensures Shut(ViewOf(s, "k"), 2) && !Expired(Lookup(s.rows, "k"), 9) && Expired(Lookup(s.rows, "k"), 20)
    ensures CanPut(s, 3, ByteOperand(0, 5, 2), [7])
  {
  }

  /** The other way round the fence: the delete was reported, the key was recreated, its row is
      shut against the token and refuses it at 9, and at 20, when the row has expired and was
      not swept, a put that asks with the token succeeds. */
  lemma ExpiredRowAdmitsToken() returns (run: seq<Action>)
    ensures PcOf(After(INIT, run), 0) == TokenRead("k", 2) && Shut(ViewOf(After(INIT, run), "k"), 2)
    ensures !PutSucceeds(After(INIT, run), 3, "k", ByteOperand(0, 5, 2), [7], 9)
    ensures PutSucceeds(After(INIT, run), 3, "k", ByteOperand(0, 5, 2), [7], 20)
  {
    hide After, PutSucceeds, Inv, Step, CanPut, ViewOf, Expired;
    var before := FencedRun();
    var start, refresh := Swapping(2, StartCas("k", RECREATE, [7])), Swapping(2, RefreshCas(5));
    run := before + [start, refresh] + [Swapping(2, MergeCas)];
    AfterTwoMore(before, start, refresh);
    AfterOneMore(before + [start, refresh], Swapping(2, MergeCas));
    RecreateStarts();
    RecreateRefreshes();
    RecreateMerge(After(INIT, before + [start, refresh]));
    RecreatedRow(After(INIT, run));
    RunKeepsInv(run);
    ShutExactlyRefuses(After(INIT, run), 3, "k", ByteOperand(0, 5, 2), [7], 9);
    ShutExactlyRefuses(After(INIT, run), 3, "k", ByteOperand(0, 5, 2), [7], 20);
  }
}
