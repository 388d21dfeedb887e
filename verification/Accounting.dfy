/** The live-bytes counter and its periodic correction (storage/cleaner.go,
    storage/storage.go): what the counter is off by after a reconcile, whatever
    operations ran beside it. */
module Accounting {
  import opened Rows

  type OpId = nat

  /** A write or a delete (`length` is `None`) of a key, with the length its read of the
      row found: 0 for no row, and for a read that failed. */
  datatype Plan = Plan(key: Key, length: Option<nat>, prev: nat)

  /** Where the reconcile stands: not running; having pinned its snapshot; having read the
      counter too. `seen` and `counted` name the operations committed and charged by then. */
  datatype Phase =
    | Idle
    | Pinned(snapshot: map<Key, nat>, seen: set<OpId>)
    | Scanning(snapshot: map<Key, nat>, seen: set<OpId>, tracked: int, counted: set<OpId>)

  /** The rows as lengths; operations read the row, commit their change to it, and charge
      the counter, in separate steps. */
  datatype State = State(
    rows: map<Key, nat>,
    counter: int,
    plans: map<OpId, Plan>,
    changes: map<OpId, int>,         // what each committed operation changed the live bytes by
    charges: map<OpId, int>,         // what each charged operation added to the counter
    phase: Phase)

  datatype Event =
    | Read(op: OpId, key: Key, length: Option<nat>, fails: bool)
    | Commit(op: OpId)
    | Charge(op: OpId)
    | Pin
    | ReadCounter
    | Correct
    | GiveUp

  ghost function Sum<K>(m: map<K, int>): int
    decreases |m|
  {
    if m == map[] then 0 else var k :| k in m; m[k] + Sum(m - {k})
  }

  /** The true live bytes. */
  ghost function Truth(s: State): int {
    Sum(s.rows)
  }

  function LengthOf(rows: map<Key, nat>, k: Key): nat {
    if k in rows then rows[k] else 0
  }

  function NewLength(plan: Plan): nat {
    if plan.length.Some? then plan.length.value else 0
  }

  /** What the operation charges: the difference to the row it read. */
  function ChargeOf(plan: Plan): int {
    NewLength(plan) - plan.prev
  }

  /** What its commit changes: the difference to the row that is there. */
  function ChangeOf(rows: map<Key, nat>, plan: Plan): int {
    NewLength(plan) - LengthOf(rows, plan.key)
  }

  function Rewrite(rows: map<Key, nat>, plan: Plan): map<Key, nat> {
    if plan.length.Some? then rows[plan.key := plan.length.value] else rows - {plan.key}
  }

  /** A put charges after its commit; a delete before it or after. A delete whose read fails or
      finds nothing does nothing, and a put takes the row to be empty. */
  ghost function Step(s: State, e: Event): State {
    match e
    case Read(op, k, length, fails) =>
      if op in s.plans || (length.None? && (fails || k !in s.rows)) then s
      else s.(plans := s.plans[op := Plan(k, length, if fails then 0 else LengthOf(s.rows, k))])
    case Commit(op) =>
      if op !in s.plans || op in s.changes then s
      else s.(rows := Rewrite(s.rows, s.plans[op]), changes := s.changes[op := ChangeOf(s.rows, s.plans[op])])
    case Charge(op) =>
      if op !in s.plans || op in s.charges || (s.plans[op].length.Some? && op !in s.changes) then s
      else s.(counter := s.counter + ChargeOf(s.plans[op]), charges := s.charges[op := ChargeOf(s.plans[op])])
    case Pin => if s.phase.Idle? then s.(phase := Pinned(s.rows, s.changes.Keys)) else s
    case ReadCounter =>
      if s.phase.Pinned? then s.(phase := Scanning(s.phase.snapshot, s.phase.seen, s.counter, s.charges.Keys)) else s
    case Correct =>
      if s.phase.Scanning?
      then s.(counter := s.counter + Sum(s.phase.snapshot) - s.phase.tracked, phase := Idle) else s
    case GiveUp => s.(phase := Idle)
  }

  ghost function After(s: State, run: seq<Event>): State {
    if run == [] then s else Step(After(s, run[..|run| - 1]), run[|run| - 1])
  }

  // ---- Sums over maps ----

  lemma {:induction false} SumWithout<K>(m: map<K, int>, k: K)
    requires k in m
    ensures Sum(m) == m[k] + Sum(m - {k})
    decreases |m|
  {
    var first :| first in m && Sum(m) == m[first] + Sum(m - {first});
    if first != k {
      SumWithout(m - {first}, k);
      SumWithout(m - {k}, first);
      assert m - {first} - {k} == m - {k} - {first};
    }
  }

  lemma SumAdd<K>(m: map<K, int>, k: K, v: int)
    requires k !in m
    ensures Sum(m[k := v]) == Sum(m) + v
  {
    SumWithout(m[k := v], k);
    assert m[k := v] - {k} == m;
  }

  lemma CutOne<K>(m: map<K, int>, ks: set<K>, k: K)
    requires k in m && k in ks
    ensures m - {k} - ks == m - ks && k in m - (m.Keys - ks) && (m - (m.Keys - ks))[k] == m[k]
    ensures m - {k} - ((m - {k}).Keys - ks) == m - (m.Keys - ks) - {k}
  {
  }

  lemma CutOther<K>(m: map<K, int>, ks: set<K>, k: K)
    requires k in m && k !in ks
    ensures m - {k} - ks == m - ks - {k} && k in m - ks && (m - ks)[k] == m[k]
    ensures m - {k} - ((m - {k}).Keys - ks) == m - (m.Keys - ks)
  {
  }

  /** A map cut in two by a set of keys. */
  lemma {:induction false} SumSplit<K>(m: map<K, int>, ks: set<K>)
    ensures Sum(m) == Sum(m - ks) + Sum(m - (m.Keys - ks))
    decreases |m|
  {
    if m == map[] {
      assert m - ks == m && m - (m.Keys - ks) == m;
    } else {
      var k :| k in m;
      SumSplit(m - {k}, ks);
      SumWithout(m, k);
      if k in ks {
        CutOne(m, ks, k);
        SumWithout(m - (m.Keys - ks), k);
      } else {
        CutOther(m, ks, k);
        SumWithout(m - ks, k);
      }
    }
  }

  // ---- The correction ----

  lemma {:induction false} RewriteChanges(rows: map<Key, nat>, plan: Plan)
    ensures Sum(Rewrite(rows, plan)) == Sum(rows) + ChangeOf(rows, plan)
  {
    var k := plan.key;
    var rest := rows - {k};
    if k in rows {
      SumWithout(rows, k);
    } else {
      assert rest == rows;
    }
    if plan.length.Some? {
      SumAdd(rest, k, plan.length.value);
      assert rest[k := plan.length.value] == Rewrite(rows, plan);
    }
  }

  ghost function CommittedSince(s: State): map<OpId, int>
    requires !s.phase.Idle?
  {
    s.changes - s.phase.seen
  }

  ghost function ChargedSince(s: State): map<OpId, int>
    requires s.phase.Scanning?
  {
    s.charges - s.phase.counted
  }

  /** While the reconcile runs, the live bytes have moved by what was committed since its
      snapshot, and the counter by what was charged since it was read. */
  ghost predicate PhaseOk(s: State) {
    && (!s.phase.Idle? ==> s.phase.seen <= s.changes.Keys && Truth(s) == Sum(s.phase.snapshot) + Sum(CommittedSince(s)))
    && (s.phase.Scanning? ==> s.phase.counted <= s.charges.Keys && s.counter == s.phase.tracked + Sum(ChargedSince(s)))
  }

  lemma CommitKeepsPhase(s: State, op: OpId)
    requires PhaseOk(s) && op in s.plans && op !in s.changes
    ensures PhaseOk(Step(s, Commit(op)))
  {
    var s' := Step(s, Commit(op));
    RewriteChanges(s.rows, s.plans[op]);
    if !s.phase.Idle? {
      SumAdd(CommittedSince(s), op, ChangeOf(s.rows, s.plans[op]));
      assert CommittedSince(s') == CommittedSince(s)[op := ChangeOf(s.rows, s.plans[op])];
    }
  }

  lemma StepKeepsPhase(s: State, e: Event)
    requires PhaseOk(s)
    ensures PhaseOk(Step(s, e))
  {
    var s' := Step(s, e);
    if s' == s {
    } else if e.Commit? {
      CommitKeepsPhase(s, e.op);
    } else if e.Charge? && s.phase.Scanning? {
      SumAdd(ChargedSince(s), e.op, ChargeOf(s.plans[e.op]));
      assert ChargedSince(s') == ChargedSince(s)[e.op := ChargeOf(s.plans[e.op])];
    } else if e.Pin? {
      assert CommittedSince(s') == map[];
    } else if e.ReadCounter? {
      assert ChargedSince(s') == map[];
    }
  }

  lemma {:induction false} RunKeepsPhase(s: State, run: seq<Event>)
    requires PhaseOk(s)
    ensures PhaseOk(After(s, run))
  {
    if run != [] {
      RunKeepsPhase(s, run[..|run| - 1]);
      StepKeepsPhase(After(s, run[..|run| - 1]), run[|run| - 1]);
    }
  }

  /** After the correction the counter is off by exactly what was charged since it was read
      and not what was committed since the snapshot; what it was off by before does not matter. */
  lemma {:induction false} CorrectionExactly(s: State, run: seq<Event>)
    requires s.phase.Idle? && After(s, run).phase.Scanning?
    ensures var s1 := After(s, run);
            var s2 := After(s, run + [Correct]);
            s2.counter - Truth(s2) == Sum(ChargedSince(s1)) - Sum(CommittedSince(s1))
  {
    assert (run + [Correct])[..|run|] == run;
    RunKeepsPhase(s, run);
  }

  // ---- Which operations those are ----

  /** The operation charges what it changes exactly when, at its commit, the row is as long
      as the one it read. */
  lemma ChargesItsChangeExactly(s: State, op: OpId)
    requires op in s.plans && op !in s.changes
    ensures Step(s, Commit(op)).changes[op] == ChargeOf(s.plans[op]) <==> LengthOf(s.rows, s.plans[op].key) == s.plans[op].prev
  {
  }

  /** Charged after the counter was read but committed before the snapshot, and the other way round. */
  ghost function Late(s: State): map<OpId, int>
    requires s.phase.Scanning?
  {
    ChargedSince(s) - CommittedSince(s).Keys
  }

  ghost function Early(s: State): map<OpId, int>
    requires s.phase.Scanning?
  {
    CommittedSince(s) - ChargedSince(s).Keys
  }

  /** Every operation that did both since charged what it changed. */
  ghost predicate Unraced(s: State)
    requires s.phase.Scanning?
  {
    forall op :: op in ChargedSince(s) && op in CommittedSince(s) ==> s.charges[op] == s.changes[op]
  }

  /** Then only the operations that straddle the snapshot and the counter read are left. */
  lemma {:induction false} UnracedCorrection(s: State, run: seq<Event>)
    requires s.phase.Idle? && After(s, run).phase.Scanning? && Unraced(After(s, run))
    ensures var s1 := After(s, run);
            var s2 := After(s, run + [Correct]);
            s2.counter - Truth(s2) == Sum(Late(s1)) - Sum(Early(s1))
  {
    var s1 := After(s, run);
    CorrectionExactly(s, run);
    var charged, committed := ChargedSince(s1), CommittedSince(s1);
    SumSplit(charged, committed.Keys);
    SumSplit(committed, charged.Keys);
    assert charged - (charged.Keys - committed.Keys) == committed - (committed.Keys - charged.Keys);
  }

  /** With none straddling and none raced, all earlier drift is erased. */
  lemma {:induction false} QuietCorrectionErasesDrift(s: State, run: seq<Event>)
    requires s.phase.Idle? && After(s, run).phase.Scanning? && Unraced(After(s, run))
    requires var s1 := After(s, run); ChargedSince(s1).Keys == CommittedSince(s1).Keys
    ensures var s2 := After(s, run + [Correct]); s2.counter == Truth(s2)
  {
    UnracedCorrection(s, run);
    assert Late(After(s, run)) == map[] && Early(After(s, run)) == map[];
  }

  // ---- Operations nobody gets in the way of ----

  /** The look at the row happens: the operation has not begun, and a delete finds a row. */
  predicate Begins(s: State, e: Event) {
    e.Read? && e.op !in s.plans && (e.length.Some? || (!e.fails && e.key in s.rows))
  }

  /** Somebody else commits a change to the row of `k`. */
  predicate Intrudes(s: State, e: Event, k: Key, op: OpId) {
    e.Commit? && e.op != op && e.op in s.plans && e.op !in s.changes && s.plans[e.op].key == k
  }

  /** `op` writes `length` bytes to `k`, or deletes it; its charge and its change, once made, are
      both the difference to the `prev` bytes it found there, which are there until it commits. */
  ghost predicate OnCourse(s: State, op: OpId, k: Key, length: Option<nat>, prev: nat) {
    var delta := (if length.Some? then length.value else 0) - prev;
    && op in s.plans && s.plans[op].key == k && s.plans[op].length == length && s.plans[op].prev == prev
    && (op in s.charges ==> s.charges[op] == delta)
    && (if op in s.changes then s.changes[op] == delta else prev == if k in s.rows then s.rows[k] else 0)
  }

  lemma ReadSetsCourse(s: State, e: Event)
    requires Begins(s, e) && !e.fails && e.op !in s.changes && e.op !in s.charges
    ensures OnCourse(Step(s, e), e.op, e.key, e.length, if e.key in s.rows then s.rows[e.key] else 0)
  {
  }

  lemma StepStaysOnCourse(s: State, e: Event, op: OpId, k: Key, length: Option<nat>, prev: nat)
    requires OnCourse(s, op, k, length, prev) && (op in s.changes || !Intrudes(s, e, k, op))
    ensures OnCourse(Step(s, e), op, k, length, prev)
  {
  }

  /** Until `op` commits, nobody else commits to its key. */
  ghost predicate Undisturbed(s: State, run: seq<Event>, op: OpId, k: Key) {
    forall i :: 0 <= i < |run| ==> op in After(s, run[..i]).changes || !Intrudes(After(s, run[..i]), run[i], k, op)
  }

  lemma {:induction false} RunStaysOnCourse(s: State, run: seq<Event>, op: OpId, k: Key, length: Option<nat>, prev: nat)
    requires OnCourse(s, op, k, length, prev) && Undisturbed(s, run, op, k)
    ensures OnCourse(After(s, run), op, k, length, prev)
  {
    hide OnCourse, Step, Intrudes;
    if run != [] {
      var init := run[..|run| - 1];
      forall i | 0 <= i < |init| ensures op in After(s, init[..i]).changes || !Intrudes(After(s, init[..i]), init[i], k, op) {
        assert init[..i] == run[..i] && init[i] == run[i];
      }
      RunStaysOnCourse(s, init, op, k, length, prev);
      StepStaysOnCourse(After(s, init), run[|run| - 1], op, k, length, prev);
    }
  }

  /** A put or a delete whose read succeeds and whose key nobody else commits to in between charges
      and changes the same: what it writes less what it found. */
  lemma {:induction false} ChargesWhatItChanges(s: State, e: Event, run: seq<Event>)
    requires Begins(s, e) && !e.fails && e.op !in s.changes && e.op !in s.charges && Undisturbed(Step(s, e), run, e.op, e.key)
    ensures var s' := After(Step(s, e), run);
            var delta := (if e.length.Some? then e.length.value else 0) - (if e.key in s.rows then s.rows[e.key] else 0);
            && (e.op in s'.changes ==> s'.changes[e.op] == delta)
            && (e.op in s'.charges ==> s'.charges[e.op] == delta)
  {
    ReadSetsCourse(s, e);
    RunStaysOnCourse(Step(s, e), run, e.op, e.key, e.length, if e.key in s.rows then s.rows[e.key] else 0);
  }

  /** How far the counter is off. */
  ghost function Drift(s: State): int {
    s.counter - Truth(s)
  }

  /** The counter and the live bytes move by exactly what operations charge and change. */
  lemma StepMoves(s: State, e: Event)
    requires !e.Correct?
    ensures var s' := Step(s, e);
            Drift(s') - Drift(s) == (Sum(s'.charges) - Sum(s.charges)) - (Sum(s'.changes) - Sum(s.changes))
  {
    if e.Commit? && e.op in s.plans && e.op !in s.changes {
      RewriteChanges(s.rows, s.plans[e.op]);
      SumAdd(s.changes, e.op, ChangeOf(s.rows, s.plans[e.op]));
    } else if e.Charge? && Step(s, e) != s {
      SumAdd(s.charges, e.op, ChargeOf(s.plans[e.op]));
    }
  }

  lemma {:induction false} RunMoves(s: State, run: seq<Event>)
    requires forall i :: 0 <= i < |run| ==> !run[i].Correct?
    ensures var s' := After(s, run);
            Drift(s') - Drift(s) == (Sum(s'.charges) - Sum(s.charges)) - (Sum(s'.changes) - Sum(s.changes))
  {
    hide Step, Drift, Sum;
    if run != [] {
      RunMoves(s, run[..|run| - 1]);
      StepMoves(After(s, run[..|run| - 1]), run[|run| - 1]);
    }
  }

  /** Every operation of the run reads its row, is not disturbed, and finishes. */
  ghost predicate AllUndisturbed(s: State, run: seq<Event>) {
    && (forall i :: 0 <= i < |run| ==> !run[i].Correct?)
    && (forall i :: 0 <= i < |run| && Begins(After(s, run[..i]), run[i]) ==> Clean(s, run, i))
    && After(s, run).charges.Keys == After(s, run).changes.Keys == After(s, run).plans.Keys
  }

  ghost predicate Clean(s: State, run: seq<Event>, i: nat)
    requires i < |run| && run[i].Read?
  {
    !run[i].fails && Undisturbed(Step(After(s, run[..i]), run[i]), run[i + 1..], run[i].op, run[i].key)
  }

  lemma {:induction false} AfterAppend(s: State, run: seq<Event>, more: seq<Event>)
    ensures After(s, run + more) == After(After(s, run), more)
  {
    if more == [] {
      assert run + more == run;
    } else {
      assert (run + more)[..|run + more| - 1] == run + more[..|more| - 1];
      AfterAppend(s, run, more[..|more| - 1]);
    }
  }

  lemma {:induction false} GoesOn(s: State, run: seq<Event>, i: nat)
    requires i < |run|
    ensures After(s, run) == After(Step(After(s, run[..i]), run[i]), run[i + 1..])
  {
    hide Step;
    AfterAppend(s, run[..i + 1], run[i + 1..]);
    assert run[..i + 1] + run[i + 1..] == run;
    assert run[..i + 1][..i] == run[..i];
  }

  /** An operation under way or finished began at some step of the run. */
  lemma {:induction false} BeganSomewhere(s: State, run: seq<Event>, op: OpId) returns (i: nat)
    requires op !in s.plans && op in After(s, run).plans
    ensures i < |run| && Begins(After(s, run[..i]), run[i]) && run[i].op == op
  {
    var init := run[..|run| - 1];
    if op in After(s, init).plans {
      i := BeganSomewhere(s, init, op);
      assert init[..i] == run[..i];
    } else {
      i := |run| - 1;
    }
  }

  /** Whoever changes or charges has begun. */
  ghost predicate Planned(s: State) {
    s.changes.Keys <= s.plans.Keys && s.charges.Keys <= s.plans.Keys
  }

  lemma StepStaysPlanned(s: State, e: Event)
    requires Planned(s)
    ensures Planned(Step(s, e))
  {
  }

  lemma {:induction false} RunStaysPlanned(s: State, run: seq<Event>)
    requires Planned(s)
    ensures Planned(After(s, run))
  {
    hide Step, Planned;
    if run != [] {
      RunStaysPlanned(s, run[..|run| - 1]);
      StepStaysPlanned(After(s, run[..|run| - 1]), run[|run| - 1]);
    }
  }

  /** Nothing is under way and nothing was recorded. */
  predicate Fresh(s: State) {
    s.plans == map[] && s.changes == map[] && s.charges == map[]
  }

  lemma {:induction false} UndisturbedSettles(s: State, run: seq<Event>, op: OpId)
    requires Fresh(s) && AllUndisturbed(s, run) && op in After(s, run).changes
    ensures After(s, run).charges[op] == After(s, run).changes[op]
  {
    hide Step, After, Undisturbed, Intrudes;
    var i := BeganSomewhere(s, run, op);
    assert Clean(s, run, i);
    RunStaysPlanned(s, run[..i]);
    ChargesWhatItChanges(After(s, run[..i]), run[i], run[i + 1..]);
    GoesOn(s, run, i);
  }

  /** Operations that read their rows, are not disturbed and finish leave the counter off by exactly
      as much as it was, however they interleave. */
  lemma {:induction false} UndisturbedRunKeepsDrift(s: State, run: seq<Event>)
    requires Fresh(s) && AllUndisturbed(s, run)
    ensures Drift(After(s, run)) == Drift(s)
  {
    hide Step, Begins, Clean, Drift;
    RunMoves(s, run);
    forall op | op in After(s, run).changes ensures After(s, run).charges[op] == After(s, run).changes[op] {
      UndisturbedSettles(s, run, op);
    }
    assert After(s, run).charges == After(s, run).changes;
  }

  // ---- Drift that a reconcile brings in itself ----

  lemma {:induction false} OneMore(s: State, run: seq<Event>, e: Event)
    ensures After(s, run + [e]) == Step(After(s, run), e)
  {
    assert (run + [e])[..|run|] == run;
  }

  const STORED := State(map["k" := 10], 10, map[], map[], map[], Idle)

  const SCANNING := [Pin] + [ReadCounter]

  lemma ScanningRun()
    ensures After(STORED, SCANNING) == STORED.(phase := Scanning(map["k" := 10], {}, 10, {}))
  {
    OneMore(STORED, [], Pin);
    assert [] + [Pin] == [Pin];
    OneMore(STORED, [Pin], ReadCounter);
    assert STORED.changes.Keys == {} && STORED.charges.Keys == {};
  }

  /** What the counter is off by after a correction that follows such a run. */
  lemma {:induction false} DriftIs(run: seq<Event>, charged: map<OpId, int>, committed: map<OpId, int>)
    requires var s := After(STORED, run); s.phase.Scanning? && ChargedSince(s) == charged && CommittedSince(s) == committed
    ensures var s := After(STORED, run + [Correct]); s.counter - Truth(s) == Sum(charged) - Sum(committed)
  {
    CorrectionExactly(STORED, run);
  }

  function One(a: int): map<OpId, int> {
    map[0 := a]
  }

  function Two(a: int, b: int): map<OpId, int> {
    One(a)[1 := b]
  }

  lemma SumsAre(a: int, b: int)
    ensures Sum(One(a)) == a && Sum(Two(a, b)) == a + b
  {
    SumAdd(map[], 0 as OpId, a);
    SumAdd(One(a), 1, b);
  }

  /** Two puts of 20 bytes both read the row of 10 before either commits: nothing straddles,
      and the counter ends up 10 over. */
  lemma RacingPutsDrift() returns (run: seq<Event>)
    ensures var s1 := After(STORED, run); s1.phase.Scanning? && ChargedSince(s1).Keys == CommittedSince(s1).Keys
    ensures var s2 := After(STORED, run + [Correct]); s2.counter - Truth(s2) == 10
  {
    hide After, Sum;
    ScanningRun();
    var r0, r1 := Read(0, "k", Some(20), false), Read(1, "k", Some(20), false);
    OneMore(STORED, SCANNING, r0);
    OneMore(STORED, SCANNING + [r0], r1);
    OneMore(STORED, SCANNING + [r0] + [r1], Commit(0));
    OneMore(STORED, SCANNING + [r0] + [r1] + [Commit(0)], Commit(1));
    OneMore(STORED, SCANNING + [r0] + [r1] + [Commit(0)] + [Commit(1)], Charge(0));
    OneMore(STORED, SCANNING + [r0] + [r1] + [Commit(0)] + [Commit(1)] + [Charge(0)], Charge(1));
    run := SCANNING + [r0] + [r1] + [Commit(0)] + [Commit(1)] + [Charge(0)] + [Charge(1)];
    assert ChargedSince(After(STORED, run)) == Two(10, 10);
    assert CommittedSince(After(STORED, run)) == Two(10, 0);
    DriftIs(run, Two(10, 10), Two(10, 0));
    SumsAre(10, 10);
    SumsAre(10, 0);
  }

  /** One put whose read of the row fails does the same. */
  lemma UnreadPutDrifts() returns (run: seq<Event>)
    ensures var s1 := After(STORED, run); s1.phase.Scanning? && ChargedSince(s1).Keys == CommittedSince(s1).Keys
    ensures var s2 := After(STORED, run + [Correct]); s2.counter - Truth(s2) == 10
  {
    hide After, Sum;
    ScanningRun();
    var r := Read(0, "k", Some(20), true);
    OneMore(STORED, SCANNING, r);
    OneMore(STORED, SCANNING + [r], Commit(0));
    OneMore(STORED, SCANNING + [r] + [Commit(0)], Charge(0));
    run := SCANNING + [r] + [Commit(0)] + [Charge(0)];
    assert ChargedSince(After(STORED, run)) == One(20);
    assert CommittedSince(After(STORED, run)) == One(10);
    DriftIs(run, One(20), One(10));
    SumsAre(20, 0);
    SumsAre(10, 0);
  }
}
