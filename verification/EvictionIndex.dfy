/** The eviction index: ordered entries, and a back-reference from each key to its current
    entry. Nothing serialises the operations on a key, so each looks the back-reference up
    first and writes its batch later, with anything in between (storage/storage.go,
    storage/access_updater.go, storage/eviction.go, storage/lru.go). */
module EvictionIndex {
  import opened Rows

  /** A key of the ordered index; entries sort by stamp, the nanosecond of the write or of the
      last access, oldest first. */
  datatype Entry = Entry(stamp: int, key: Key)

  /** Rows (`None` for one that does not decode), the ordered index, and each key's back-reference. */
  datatype Store = Store(rows: map<Key, Option<ValueMessage>>, entries: set<Entry>, backrefs: map<Key, Entry>)

  /** A back-reference names an entry of its own key. */
  ghost predicate Named(s: Store) {
    forall k :: k in s.backrefs ==> s.backrefs[k].key == k
  }

  /** Every row has a back-reference whose target exists. */
  ghost predicate Indexed(s: Store) {
    Named(s) && forall k :: k in s.rows ==> k in s.backrefs && s.backrefs[k] in s.entries
  }

  /** The index holds one entry per key: every entry is its key's current one. */
  ghost predicate OneEntryEach(s: Store) {
    forall e :: e in s.entries ==> e.key in s.backrefs && s.backrefs[e.key] == e
  }

  // ---- What a batch does when it is written ----

  /** A batch about to be written; `prior` is the entry the look-up found, and goes with it. */
  datatype Plan =
    | Put(key: Key, row: ValueMessage, stamp: int, prior: Option<Entry>)
    | Refresh(key: Key, stamp: int, prior: Option<Entry>)
    | Delete(key: Key, prior: Option<Entry>)
    | Reclaim(entry: Entry)

  function Without(entries: set<Entry>, prior: Option<Entry>): set<Entry> {
    if prior.Some? then entries - {prior.value} else entries
  }

  function Apply(s: Store, plan: Plan): Store {
    match plan
    case Put(k, row, stamp, prior) =>
      Store(s.rows[k := Some(row)], Without(s.entries, prior) + {Entry(stamp, k)}, s.backrefs[k := Entry(stamp, k)])
    case Refresh(k, stamp, prior) =>
      s.(entries := Without(s.entries, prior) + {Entry(stamp, k)}, backrefs := s.backrefs[k := Entry(stamp, k)])
    case Delete(k, prior) => Store(s.rows - {k}, Without(s.entries, prior), s.backrefs - {k})
    case Reclaim(e) => s.(entries := s.entries - {e})
  }

  /** What the plan takes out, if anything, is an entry of its own key. */
  predicate OwnEntry(plan: Plan) {
    !plan.Reclaim? && plan.prior.Some? ==> plan.prior.value.key == plan.key
  }

  /** The entry a row is found by. */
  predicate Current(s: Store, e: Entry) {
    e.key in s.rows && e.key in s.backrefs && s.backrefs[e.key] == e
  }

  /** Whichever entry of its key an operation found earlier, writing its batch keeps every row
      findable; reclaiming an entry does exactly when no row is found by it. */
  lemma WriteKeepsIndexExactly(s: Store, plan: Plan)
    requires Indexed(s) && OwnEntry(plan)
    ensures Indexed(Apply(s, plan)) <==> !(plan.Reclaim? && Current(s, plan.entry))
  {
    if plan.Reclaim? && Current(s, plan.entry) {
      assert plan.entry.key in Apply(s, plan).rows;
    }
  }

  /** The back-reference names an entry that is there and that the batch neither takes out nor
      writes again. */
  predicate LeavesEntry(s: Store, plan: Plan) {
    && !plan.Reclaim? && plan.key in s.backrefs && s.backrefs[plan.key] in s.entries
    && plan.prior != Some(s.backrefs[plan.key])
    && (plan.Delete? || s.backrefs[plan.key].stamp != plan.stamp)
  }

  /** One entry per key survives a write exactly when it leaves none behind; a delete then
      leaves no entry of its key at all. */
  lemma WriteKeepsOneEntryExactly(s: Store, plan: Plan)
    requires Named(s) && OneEntryEach(s) && OwnEntry(plan)
    ensures OneEntryEach(Apply(s, plan)) <==> !LeavesEntry(s, plan)
    ensures plan.Delete? && !LeavesEntry(s, plan) ==> forall e :: e in Apply(s, plan).entries ==> e.key != plan.key
  {
    if LeavesEntry(s, plan) {
      assert s.backrefs[plan.key] in Apply(s, plan).entries;
    }
  }

  // ---- Interleavings ----

  type Tid = nat

  datatype State = State(store: Store, plans: map<Tid, Plan>)

  /** An access-order put does not look for an older entry. An eviction looks at one entry of the
      index and takes out the key it is the current entry of, or the entry alone; after a failed
      read, and for an expired row, it stages nothing. */
  datatype Intent =
    | PuttingFifo(key: Key, row: ValueMessage, stamp: int)
    | PuttingLru(key: Key, row: ValueMessage, stamp: int)
    | Refreshing(key: Key, stamp: int)
    | Deleting(key: Key)
    | Evicting(entry: Entry)

  datatype Action =
    | Look(t: Tid, intent: Intent, fails: bool)
    | Flush(t: Tid)
    | GiveUp(t: Tid)

  function Found(s: Store, k: Key, fails: bool): Option<Entry> {
    if fails then None else Lookup(s.backrefs, k)
  }

  function PlanFor(s: Store, intent: Intent, fails: bool): Option<Plan> {
    match intent
    case PuttingFifo(k, row, stamp) => Some(Put(k, row, stamp, Found(s, k, fails)))
    case PuttingLru(k, row, stamp) => Some(Put(k, row, stamp, None))
    case Refreshing(k, stamp) => Some(Refresh(k, stamp, Found(s, k, fails)))
    case Deleting(k) => Some(Delete(k, Found(s, k, fails)))
    case Evicting(e) =>
      if fails then None
      else if e.key !in s.rows then Some(Reclaim(e))
      else if s.rows[e.key].Some? && e.key in s.backrefs && s.backrefs[e.key] != e then Some(Reclaim(e))
      else Some(Delete(e.key, Some(e)))
  }

  function Step(s: State, a: Action): State {
    match a
    case Look(t, intent, fails) =>
      if t in s.plans || PlanFor(s.store, intent, fails).None? then s
      else s.(plans := s.plans[t := PlanFor(s.store, intent, fails).value])
    case Flush(t) => if t in s.plans then State(Apply(s.store, s.plans[t]), s.plans - {t}) else s
    case GiveUp(t) => s.(plans := s.plans - {t})
  }

  function After(s: State, run: seq<Action>): State {
    if run == [] then s else Step(After(s, run[..|run| - 1]), run[|run| - 1])
  }

  /** Every plan takes out an entry of its own key. */
  ghost predicate OwnPlans(s: State) {
    forall t :: t in s.plans ==> OwnEntry(s.plans[t])
  }

  /** The step reclaims the entry a row is found by. */
  predicate Strands(s: State, a: Action) {
    a.Flush? && a.t in s.plans && s.plans[a.t].Reclaim? && Current(s.store, s.plans[a.t].entry)
  }

  lemma StepKeepsOwnPlans(s: State, a: Action)
    requires Named(s.store) && OwnPlans(s)
    ensures OwnPlans(Step(s, a))
  {
  }

  lemma StepKeepsIndexExactly(s: State, a: Action)
    requires Indexed(s.store) && OwnPlans(s)
    ensures OwnPlans(Step(s, a)) && (Indexed(Step(s, a).store) <==> !Strands(s, a))
  {
    StepKeepsOwnPlans(s, a);
    if a.Flush? && a.t in s.plans {
      WriteKeepsIndexExactly(s.store, s.plans[a.t]);
    }
  }

  /** No row is found by an entry about to be reclaimed. */
  ghost predicate Inv(s: State) {
    && Indexed(s.store) && OwnPlans(s)
    && forall t :: t in s.plans && s.plans[t].Reclaim? ==> !Current(s.store, s.plans[t].entry)
  }

  /** The step makes an entry the current one of a row that somebody is about to reclaim: the
      same key at the same nanosecond as before. */
  predicate Collides(s: State, a: Action) {
    && a.Flush? && a.t in s.plans
    && (s.plans[a.t].Put? || (s.plans[a.t].Refresh? && s.plans[a.t].key in s.store.rows))
    && exists u :: u in s.plans && s.plans[u] == Reclaim(Entry(s.plans[a.t].stamp, s.plans[a.t].key))
  }

  lemma LookKeepsInv(s: State, t: Tid, intent: Intent, fails: bool)
    requires Inv(s)
    ensures Inv(Step(s, Look(t, intent, fails)))
  {
  }

  lemma FlushKeepsInvExactly(s: State, t: Tid)
    requires Inv(s) && t in s.plans
    ensures Inv(Step(s, Flush(t))) <==> !Collides(s, Flush(t))
  {
    var s' := Step(s, Flush(t));
    StepKeepsIndexExactly(s, Flush(t));
    if Collides(s, Flush(t)) {
      var u :| u in s.plans && s.plans[u] == Reclaim(Entry(s.plans[t].stamp, s.plans[t].key));
      assert u in s'.plans && Current(s'.store, s'.plans[u].entry);
    } else {
      forall u | u in s'.plans && s'.plans[u].Reclaim? ensures !Current(s'.store, s'.plans[u].entry) {
        assert !Current(s.store, s.plans[u].entry);
      }
    }
  }

  lemma StepKeepsInvExactly(s: State, a: Action)
    requires Inv(s)
    ensures Inv(Step(s, a)) <==> !Collides(s, a)
  {
    if a.Look? {
      LookKeepsInv(s, a.t, a.intent, a.fails);
    } else if a.Flush? && a.t in s.plans {
      FlushKeepsInvExactly(s, a.t);
    }
  }

  /** In every interleaving of puts under both policies, read refreshes, deletes and evictions,
      with look-ups and batches that fail, every row stays findable, as long as no key is written
      twice in one nanosecond with a reclaim of the first entry pending. */
  lemma {:induction false} RunKeepsIndex(s: State, run: seq<Action>)
    requires Inv(s) && forall i :: 0 <= i < |run| ==> !Collides(After(s, run[..i]), run[i])
    ensures Inv(After(s, run))
  {
    if run != [] {
      var init := run[..|run| - 1];
      forall i | 0 <= i < |init| ensures !Collides(After(s, init[..i]), init[i]) {
        assert init[..i] == run[..i] && init[i] == run[i];
      }
      RunKeepsIndex(s, init);
      StepKeepsInvExactly(After(s, init), run[|run| - 1]);
    }
  }

  /** The step writes a batch that leaves an entry behind. */
  predicate Leaves(s: State, a: Action) {
    a.Flush? && a.t in s.plans && LeavesEntry(s.store, s.plans[a.t])
  }

  ghost predicate Tidy(s: State) {
    Named(s.store) && OneEntryEach(s.store) && OwnPlans(s)
  }

  lemma StepKeepsTidyExactly(s: State, a: Action)
    requires Tidy(s)
    ensures Tidy(Step(s, a)) <==> !Leaves(s, a)
  {
    StepKeepsOwnPlans(s, a);
    if a.Flush? && a.t in s.plans {
      WriteKeepsOneEntryExactly(s.store, s.plans[a.t]);
    }
  }

  ghost predicate TidyThroughout(s: State, run: seq<Action>) {
    forall n :: 0 <= n <= |run| ==> Tidy(After(s, run[..n]))
  }

  ghost predicate LeavesNothing(s: State, run: seq<Action>) {
    forall i :: 0 <= i < |run| ==> !Leaves(After(s, run[..i]), run[i])
  }

  lemma Unroll(s: State, run: seq<Action>)
    requires run != []
    ensures var init := run[..|run| - 1];
            && (TidyThroughout(s, run) <==> TidyThroughout(s, init) && Tidy(After(s, run)))
            && (LeavesNothing(s, run) <==> LeavesNothing(s, init) && !Leaves(After(s, init), run[|run| - 1]))
  {
    hide Tidy, Leaves, Step, After;
    var init := run[..|run| - 1];
    assert forall n :: 0 <= n <= |init| ==> init[..n] == run[..n];
    assert run[..|run|] == run;
  }

  /** One entry per key holds throughout a run exactly when no batch of it leaves one behind. */
  lemma {:induction false} RunKeepsOneEntryExactly(s: State, run: seq<Action>)
    requires Tidy(s)
    ensures TidyThroughout(s, run) <==> LeavesNothing(s, run)
  {
    hide Tidy, Leaves, Step;
    if run == [] {
      assert run[..0] == [];
    } else {
      var init := run[..|run| - 1];
      RunKeepsOneEntryExactly(s, init);
      Unroll(s, run);
      if TidyThroughout(s, init) {
        assert init[..|init|] == init;
        StepKeepsTidyExactly(After(s, init), run[|run| - 1]);
      }
    }
  }

  /** A look-up that succeeds and is still right when the batch is written leaves nothing. */
  lemma UndisturbedLeavesNothing(s: Store, plan: Plan)
    requires plan.Reclaim? || plan.prior == Lookup(s.backrefs, plan.key)
    ensures !LeavesEntry(s, plan)
  {
  }

  /** What an operation amounts to with nothing between its look-up and its batch: the key's own
      row, entry and back-reference change, and nothing else does. */
  lemma AloneExactly(s: State, t: Tid, intent: Intent)
    requires Tidy(s) && t !in s.plans && !intent.Evicting?
    ensures var r, r' := s.store, Step(Step(s, Look(t, intent, false)), Flush(t)).store;
            var k := intent.key;
            && (forall e: Entry :: e.key != k ==> (e in r'.entries <==> e in r.entries))
            && (forall j :: j != k ==> Lookup(r'.backrefs, j) == Lookup(r.backrefs, j) && Lookup(r'.rows, j) == Lookup(r.rows, j))
            && (match intent
                case PuttingFifo(_, row, stamp) =>
                  && Lookup(r'.rows, k) == Some(Some(row)) && Lookup(r'.backrefs, k) == Some(Entry(stamp, k))
                  && (forall e: Entry :: e.key == k ==> (e in r'.entries <==> e == Entry(stamp, k)))
                case PuttingLru(_, row, stamp) =>
                  && Lookup(r'.rows, k) == Some(Some(row)) && Lookup(r'.backrefs, k) == Some(Entry(stamp, k))
                  && (forall e: Entry :: e.key == k ==> (e in r'.entries <==> e == Entry(stamp, k) || e in r.entries))
                case Refreshing(_, stamp) =>
                  && Lookup(r'.rows, k) == Lookup(r.rows, k) && Lookup(r'.backrefs, k) == Some(Entry(stamp, k))
                  && (forall e: Entry :: e.key == k ==> (e in r'.entries <==> e == Entry(stamp, k)))
                case Deleting(_) =>
                  k !in r'.rows && k !in r'.backrefs && (forall e: Entry :: e.key == k ==> e !in r'.entries)
                case _ => true)
  {
    var plan := PlanFor(s.store, intent, false).value;
    assert Step(Step(s, Look(t, intent, false)), Flush(t)).store == Apply(s.store, plan);
  }

  /** One entry in the hands of an eviction: the key goes exactly when the entry is its current
      one, or its row does not decode; otherwise the entry alone goes. A read that fails does
      nothing. */
  lemma EvictionAloneExactly(s: State, t: Tid, e: Entry)
    requires Inv(s) && t !in s.plans
    ensures Step(s, Look(t, Evicting(e), true)) == s
    ensures var r, r' := s.store, Step(Step(s, Look(t, Evicting(e), false)), Flush(t)).store;
            && (forall x :: x in r'.entries <==> x in r.entries && x != e)
            && (if e.key in r.rows && (r.rows[e.key].None? || r.backrefs[e.key] == e)
                then r'.rows == r.rows - {e.key} && r'.backrefs == r.backrefs - {e.key}
                else r'.rows == r.rows && r'.backrefs == r.backrefs)
  {
    var plan := PlanFor(s.store, Evicting(e), false).value;
    assert Step(Step(s, Look(t, Evicting(e), false)), Flush(t)).store == Apply(s.store, plan);
  }

  // ---- Two puts of one key ----

  lemma {:induction false} OneMore(s: State, run: seq<Action>, a: Action)
    ensures After(s, run + [a]) == Step(After(s, run), a)
  {
    assert (run + [a])[..|run|] == run;
  }

  const EMPTY_STATE := State(Store(map[], {}, map[]), map[])

  const FIRST := Entry(1, "k")
  const SECOND := Entry(2, "k")
  const THIRD := Entry(3, "k")

  function WriteOf(row: ValueMessage, stamp: int): Intent {
    PuttingFifo("k", row, stamp)
  }

  /** The key with its only entry, and the entries two puts leave. */
  function Stored(row: ValueMessage): Store {
    Store(map["k" := Some(row)], {FIRST}, map["k" := FIRST])
  }

  function Doubled(row: ValueMessage): Store {
    Store(map["k" := Some(row)], {SECOND, THIRD}, map["k" := THIRD])
  }

  lemma FirstPut(row: ValueMessage)
    ensures Step(Step(EMPTY_STATE, Look(0, WriteOf(row, 1), false)), Flush(0)) == State(Stored(row), map[])
  {
    assert Step(EMPTY_STATE, Look(0, WriteOf(row, 1), false)) == EMPTY_STATE.(plans := map[0 := Put("k", row, 1, None)]);
  }

  function Racing(row: ValueMessage): State {
    State(Stored(row), map[0 := Put("k", row, 2, Some(FIRST)), 1 := Put("k", row, 3, Some(FIRST))])
  }

  lemma RacingLooks(row: ValueMessage)
    ensures Step(Step(State(Stored(row), map[]), Look(0, WriteOf(row, 2), false)), Look(1, WriteOf(row, 3), false)) == Racing(row)
  {
    var s1 := Step(State(Stored(row), map[]), Look(0, WriteOf(row, 2), false));
    assert s1 == State(Stored(row), map[0 := Put("k", row, 2, Some(FIRST))]);
  }

  lemma RacingWrites(row: ValueMessage)
    ensures Step(Step(Racing(row), Flush(0)), Flush(1)) == State(Doubled(row), map[])
  {
    var s1 := Step(Racing(row), Flush(0));
    assert s1 == State(Store(map["k" := Some(row)], {SECOND}, map["k" := SECOND]), map[1 := Put("k", row, 3, Some(FIRST))]);
  }

  lemma DoubledIs(row: ValueMessage)
    ensures Tidy(EMPTY_STATE) && Inv(State(Doubled(row), map[])) && !OneEntryEach(Doubled(row))
  {
    assert SECOND in Doubled(row).entries && SECOND != THIRD;
  }

  /** Both find the same entry, and the second write leaves that of the first. No look-up fails,
      every row stays findable, and the key has two entries. */
  lemma RacingPutsLeaveTwo(row: ValueMessage) returns (run: seq<Action>)
    ensures forall i :: 0 <= i < |run| && run[i].Look? ==> !run[i].fails
    ensures var s := After(EMPTY_STATE, run);
            && s.store.entries == {SECOND, THIRD} && s.store.backrefs == map["k" := THIRD]
            && Tidy(EMPTY_STATE) && Inv(s) && !OneEntryEach(s.store)
  {
    hide After, Step, Tidy, Inv, OneEntryEach;
    var look1, look2, look3 := Look(0, WriteOf(row, 1), false), Look(0, WriteOf(row, 2), false), Look(1, WriteOf(row, 3), false);
    run := [] + [look1] + [Flush(0)] + [look2] + [look3] + [Flush(0)] + [Flush(1)];
    NothingRun();
    OneMore(EMPTY_STATE, [], look1);
    OneMore(EMPTY_STATE, [] + [look1], Flush(0));
    FirstPut(row);
    OneMore(EMPTY_STATE, [] + [look1] + [Flush(0)], look2);
    OneMore(EMPTY_STATE, [] + [look1] + [Flush(0)] + [look2], look3);
    RacingLooks(row);
    OneMore(EMPTY_STATE, [] + [look1] + [Flush(0)] + [look2] + [look3], Flush(0));
    OneMore(EMPTY_STATE, [] + [look1] + [Flush(0)] + [look2] + [look3] + [Flush(0)], Flush(1));
    RacingWrites(row);
    DoubledIs(row);
  }

  lemma NothingRun()
    ensures After(EMPTY_STATE, []) == EMPTY_STATE
  {
  }

  /** A key was written at 1 and deleted with its back-reference unread; its entry is about to be
      reclaimed as an orphan while a second put of the same nanosecond is about to be written. */
  lemma SameStampStrands(row: ValueMessage)
    ensures var s := State(Store(map[], {FIRST}, map[]), map[0 := Reclaim(FIRST), 1 := Put("k", row, 1, None)]);
            Inv(s) && Collides(s, Flush(1)) && !Indexed(Step(Step(s, Flush(1)), Flush(0)).store)
  {
    var s := State(Store(map[], {FIRST}, map[]), map[0 := Reclaim(FIRST), 1 := Put("k", row, 1, None)]);
    assert 0 in s.plans && s.plans[0] == Reclaim(Entry(1, "k"));
    var s1 := Step(s, Flush(1));
    assert s1 == State(Store(map["k" := Some(row)], {FIRST}, map["k" := FIRST]), map[0 := Reclaim(FIRST)]);
    StepKeepsIndexExactly(s1, Flush(0));
  }

  // ---- Old buckets ----

  /** The periodic removal of old access buckets drops entries and keeps back-references; `cutoff`
      is where the first bucket that stays begins. */
  function CleanupOldBuckets(s: Store, cutoff: int): Store {
    s.(entries := set e | e in s.entries && e.stamp >= cutoff)
  }

  /** So it keeps the index exactly when no row was last touched before the cutoff. */
  lemma CleanupKeepsIndexExactly(s: Store, cutoff: int)
    requires Indexed(s)
    ensures Indexed(CleanupOldBuckets(s, cutoff)) <==> forall k :: k in s.rows ==> s.backrefs[k].stamp >= cutoff
  {
  }

  /** A row last touched at 5 is lost to eviction by a cutoff of 9. */
  lemma CleanupBreaksIndex(row: ValueMessage)
    ensures var s := Store(map["k" := Some(row)], {Entry(5, "k")}, map["k" := Entry(5, "k")]);
            Indexed(s) && !Indexed(CleanupOldBuckets(s, 9))
  {
    var s := Store(map["k" := Some(row)], {Entry(5, "k")}, map["k" := Entry(5, "k")]);
    CleanupKeepsIndexExactly(s, 9);
    assert "k" in s.rows;
  }
}
