/** Deriving a closed segment's dead bytes from the rows themselves, while deletes and
    overwrites go on (storage/compaction/walker.go). */
module Walker {
  import opened Rows
  import opened Storage
  import opened StorageInvariant
  import opened StorageWriters
  import opened StorageSafety
  import opened StorageTheorems

  datatype SegEntry = SegEntry(key: Key, offset: int, length: nat)

  type Table = map<Key, ValueMessage>

  /** The entry's row is this very entry of segment `g`. */
  predicate LiveIn(rows: Table, g: Path, e: SegEntry) {
    e.key in rows && RefersSegment(rows[e.key], g) && rows[e.key].segmentOffset == e.offset
  }

  function Total(file: seq<SegEntry>): nat {
    if file == [] then 0 else Total(file[..|file| - 1]) + file[|file| - 1].length
  }

  /** Entries and bytes of `file` that are dead when the rows are `rows`. */
  function DeadEntries(rows: Table, g: Path, file: seq<SegEntry>): nat {
    if file == [] then 0
    else DeadEntries(rows, g, file[..|file| - 1]) + (if LiveIn(rows, g, file[|file| - 1]) then 0 else 1)
  }

  function DeadBytes(rows: Table, g: Path, file: seq<SegEntry>): nat {
    if file == [] then 0
    else DeadBytes(rows, g, file[..|file| - 1]) + (if LiveIn(rows, g, file[|file| - 1]) then 0 else file[|file| - 1].length)
  }

  /** The rows as they are when entry `i` is looked up; `|file|` stands for the end of the walk. */
  type Times = nat -> Table

  /** Entries only ever die. */
  ghost predicate OnlyDies(at: Times, g: Path, file: seq<SegEntry>) {
    forall i: nat, j: nat, e :: i <= j <= |file| && e in file && LiveIn(at(j), g, e) ==> LiveIn(at(i), g, e)
  }

  /** Live entries and bytes as the walk meets them, one lookup after the other. */
  function MetLive(at: Times, g: Path, file: seq<SegEntry>): (nat, nat) {
    if file == [] then (0, 0)
    else
      var n := |file| - 1;
      var (entries, bytes) := MetLive(at, g, file[..n]);
      if LiveIn(at(n), g, file[n]) then (entries + 1, bytes + file[n].length) else (entries, bytes)
  }

  lemma MetStep(at: Times, g: Path, file: seq<SegEntry>, end: nat)
    requires file != []
    requires var n := |file| - 1; LiveIn(at(end), g, file[n]) ==> LiveIn(at(n), g, file[n])
    requires var n := |file| - 1; LiveIn(at(n), g, file[n]) ==> LiveIn(at(0), g, file[n])
    ensures var n := |file| - 1; var init, e := file[..n], file[n];
            var a, b := MetLive(at, g, init), MetLive(at, g, file);
            && a.0 <= b.0 <= a.0 + 1 && a.1 <= b.1 <= a.1 + e.length
            && DeadEntries(at(0), g, file) - DeadEntries(at(0), g, init) <= 1 - (b.0 - a.0)
            && 1 - (b.0 - a.0) <= DeadEntries(at(end), g, file) - DeadEntries(at(end), g, init)
            && DeadBytes(at(0), g, file) - DeadBytes(at(0), g, init) <= e.length - (b.1 - a.1)
            && e.length - (b.1 - a.1) <= DeadBytes(at(end), g, file) - DeadBytes(at(end), g, init)
  {
  }

  lemma {:induction false} MetBetween(at: Times, g: Path, file: seq<SegEntry>, whole: seq<SegEntry>)
    requires OnlyDies(at, g, whole) && file <= whole
    ensures MetLive(at, g, file).0 <= |file| && MetLive(at, g, file).1 <= Total(file)
    ensures DeadEntries(at(0), g, file) <= |file| - MetLive(at, g, file).0 <= DeadEntries(at(|whole|), g, file)
    ensures DeadBytes(at(0), g, file) <= Total(file) - MetLive(at, g, file).1 <= DeadBytes(at(|whole|), g, file)
  {
    if file != [] {
      var n := |file| - 1;
      MetBetween(at, g, file[..n], whole);
      var e := file[n];
      assert e == whole[n] && e in whole;
      assert LiveIn(at(|whole|), g, e) ==> LiveIn(at(n), g, e);
      assert LiveIn(at(n), g, e) ==> LiveIn(at(0), g, e);
      MetStep(at, g, file, |whole|);
    }
  }

  /** What can go wrong at each entry: a read error, a lookup error, cancellation. */
  datatype World = World(readFails: nat -> bool, lookupFails: nat -> bool, cancelled: nat -> bool)

  predicate Smooth(world: World, n: nat) {
    && (forall i: nat :: i <= n ==> !world.cancelled(i) && !world.readFails(i))
    && (forall i: nat :: i < n ==> !world.lookupFails(i))
  }

  /** Walks the file that is there against the totals of its footer. A walk that fails
      anywhere or does not meet every finalized entry derives nothing; one that does is
      between the truth when it started and the truth when it ended. */
  method WalkSegmentLiveness(g: Path, file: seq<SegEntry>, entries: int, dataBytes: int, at: Times, world: World)
    returns (dead: Option<(int, int)>)
    ensures dead.None? <==> !Smooth(world, |file|) || (entries > 0 && dataBytes > 0 && |file| != entries)
    ensures dead.Some? && entries > 0 && dataBytes == Total(file) > 0 && OnlyDies(at, g, file) ==>
              && DeadEntries(at(0), g, file) <= dead.value.0 <= DeadEntries(at(|file|), g, file)
              && DeadBytes(at(0), g, file) <= dead.value.1 <= DeadBytes(at(|file|), g, file)
    ensures dead.Some? && (entries <= 0 || dataBytes <= 0) ==> dead.value == (0, 0)
  {
    var walked, liveEntries, liveBytes := 0, 0, 0;
    while true
      invariant 0 <= walked <= |file| && (liveEntries, liveBytes) == MetLive(at, g, file[..walked])
      invariant forall i: nat :: i < walked ==> !world.cancelled(i) && !world.readFails(i) && !world.lookupFails(i)
      decreases |file| - walked
    {
      if world.cancelled(walked) || world.readFails(walked) {
        return None;
      }
      if walked == |file| {
        break;
      }
      var e := file[walked];
      if world.lookupFails(walked) {
        return None;
      }
      assert file[..walked + 1][..walked] == file[..walked];
      if LiveIn(at(walked), g, e) {
        liveEntries, liveBytes := liveEntries + 1, liveBytes + e.length;
      }
      walked := walked + 1;
    }
    assert file[..walked] == file;
    if entries <= 0 || dataBytes <= 0 {
      return Some((0, 0));
    }
    if walked != entries {
      return None;
    }
    var deadEntries, deadBytes := entries - liveEntries, dataBytes - liveBytes;
    if OnlyDies(at, g, file) && dataBytes == Total(file) {
      MetBetween(at, g, file, file);
    }
    return Some((if deadEntries < 0 then 0 else deadEntries, if deadBytes < 0 then 0 else deadBytes));
  }

  /** In every reachable state an entry is live exactly when some row of the store reads from it, and
      exactly when the recompactor would copy it. */
  lemma {:induction false} LiveExactlyWhenRead(run: seq<Action>, g: Path, offset: int)
    requires var s := After(INIT, run); g in s.segs && offset in s.segs[g].entries
    ensures var s := After(INIT, run);
            var e := s.segs[g].entries[offset];
            && (LiveIn(s.rows, g, SegEntry(e.key, offset, |e.bytes|)) <==>
                  exists k :: k in s.rows && s.rows[k].valueType == Segment && s.rows[k].segmentPath == g && s.rows[k].segmentOffset == offset)
            && (LiveIn(s.rows, g, SegEntry(e.key, offset, |e.bytes|)) <==> PointsAt(s, g, offset))
  {
    hide PcOk, StoreOk, OneRecompactor;
    RunKeepsInv(run);
    var s := After(INIT, run);
    if k :| k in s.rows && s.rows[k].valueType == Segment && s.rows[k].segmentPath == g && s.rows[k].segmentOffset == offset {
      assert RowOk(s, k, s.rows[k]);
    }
  }

  /** Live and dead entries make up the file. */
  lemma {:induction false} DeadAndLive(rows: Table, g: Path, file: seq<SegEntry>)
    ensures DeadEntries(rows, g, file) == |file| - |set i | 0 <= i < |file| && LiveIn(rows, g, file[i])|
    ensures DeadBytes(rows, g, file) + MetLive((i: nat) => rows, g, file).1 == Total(file)
  {
    hide LiveIn;
    if file != [] {
      var n := |file| - 1;
      var init := file[..n];
      DeadAndLive(rows, g, init);
      OneMoreLive(rows, g, file);
    }
  }

  lemma OneMoreLive(rows: Table, g: Path, file: seq<SegEntry>)
    requires file != []
    ensures var n := |file| - 1;
            var live, was := set i | 0 <= i < |file| && LiveIn(rows, g, file[i]),
                             set i | 0 <= i < n && LiveIn(rows, g, file[..n][i]);
            |live| == |was| + if LiveIn(rows, g, file[n]) then 1 else 0
  {
    hide LiveIn;
    var n := |file| - 1;
    var live, was := set i | 0 <= i < |file| && LiveIn(rows, g, file[i]), set i | 0 <= i < n && LiveIn(rows, g, file[..n][i]);
    assert forall i :: 0 <= i < n ==> file[..n][i] == file[i];
    assert live == if LiveIn(rows, g, file[n]) then was + {n} else was;
  }

  // ---- Entries do only die ----

  /** No recompaction is filling `g`. */
  ghost predicate NotFilling(s: State, g: Path) {
    forall t: Tid :: PcOf(s, t).Recompacting? ==> g !in PcOf(s, t).dsts
  }

  /** Once a segment is closed and no recompaction is filling it, no step of the storage
      machine makes a row refer to it that did not before. */
  lemma StepOnlyKills(s: State, a: Action, g: Path, k: Key)
    requires Inv(s) && g in s.segs && s.segs[g].closed && NotFilling(s, g)
    requires k in Step(s, a).rows && RefersSegment(Step(s, a).rows[k], g)
    ensures k in s.rows && s.rows[k] == Step(s, a).rows[k]
  {
    hide PcOk, RowsOk, QueueOk, OneRecompactor, Grows, PutStep, DeleteStep, CasStep, QueueStep, CompactStep, RecompactStep;
    var s' := Step(s, a);
    if !a.Environment? {
      assert PcOk(s, a.t);
      StepCarries(s, a);
      if s' != s {
        assert RowChange(s, s', a.t, k);
        assert !Owns(s, a.t, g);
      }
    } else if !a.env.Crash? {
      QuietSound(s, a.env, 0);
      QuietSound(s, a.env, 1);
      assert RowChange(s, s', 0, k) && RowChange(s, s', 1, k);
    }
  }

  // A thread becomes a recompactor, or takes another destination, only by acquiring an open segment.

  lemma PutNotFilling(s: State, t: Tid, a: PutAction)
    ensures PcOf(PutStep(s, t, a), t).Recompacting? ==> PcOf(PutStep(s, t, a), t) == PcOf(s, t)
  {
  }

  lemma DeleteNotFilling(s: State, t: Tid, a: DeleteAction)
    ensures PcOf(DeleteStep(s, t, a), t).Recompacting? ==> PcOf(DeleteStep(s, t, a), t) == PcOf(s, t)
  {
  }

  lemma QueueNotFilling(s: State, t: Tid, a: QueueAction)
    ensures PcOf(QueueStep(s, t, a), t).Recompacting? ==> PcOf(QueueStep(s, t, a), t) == PcOf(s, t)
  {
  }

  lemma SwapNotFilling(s: State, t: Tid, a: CasAction)
    ensures PcOf(CasStep(s, t, a), t).Recompacting? ==> PcOf(CasStep(s, t, a), t) == PcOf(s, t)
  {
  }

  lemma CompactorNotFilling(s: State, t: Tid, a: CompactAction)
    ensures PcOf(CompactStep(s, t, a), t).Recompacting? ==> PcOf(CompactStep(s, t, a), t) == PcOf(s, t)
  {
  }

  lemma RecompactorNotFilling(s: State, t: Tid, a: RecompactAction, g: Path)
    requires g in s.segs && s.segs[g].closed && (PcOf(s, t).Recompacting? ==> g !in PcOf(s, t).dsts)
    ensures var pc := PcOf(RecompactStep(s, t, a), t); pc.Recompacting? ==> g !in pc.dsts
  {
  }

  lemma OwnStepNotFilling(s: State, a: Action, g: Path)
    requires !a.Environment? && g in s.segs && s.segs[g].closed && NotFilling(s, g)
    ensures PcOf(Step(s, a), a.t).Recompacting? ==> g !in PcOf(Step(s, a), a.t).dsts
  {
    match a
    case Putting(t, put) => PutNotFilling(s, t, put);
    case Removing(t, remove) => DeleteNotFilling(s, t, remove);
    case Queueing(t, queue) => QueueNotFilling(s, t, queue);
    case Swapping(t, cas) => SwapNotFilling(s, t, cas);
    case Compaction(t, compact) => CompactorNotFilling(s, t, compact);
    case Recompaction(t, recompact) => RecompactorNotFilling(s, t, recompact, g);
  }

  lemma ThreadStaysClosed(s: State, s': State, t: Tid, g: Path)
    requires Carries(s, s', t) && g in s.segs && s.segs[g].closed && NotFilling(s, g)
    requires PcOf(s', t).Recompacting? ==> g !in PcOf(s', t).dsts
    ensures g in s'.segs && s'.segs[g].closed && NotFilling(s', g)
  {
  }

  lemma EnvironmentStaysClosed(s: State, a: EnvironmentAction, g: Path)
    requires g in s.segs && s.segs[g].closed && NotFilling(s, g)
    ensures var s' := EnvironmentStep(s, a); g in s'.segs && s'.segs[g].closed && NotFilling(s', g)
  {
    var s' := EnvironmentStep(s, a);
    forall t: Tid | PcOf(s', t).Recompacting? ensures g !in PcOf(s', t).dsts {
      assert PcOf(s', t) == PcOf(s, t);
    }
  }

  lemma StepStaysClosed(s: State, a: Action, g: Path)
    requires Inv(s) && g in s.segs && s.segs[g].closed && NotFilling(s, g)
    ensures var s' := Step(s, a); g in s'.segs && s'.segs[g].closed && NotFilling(s', g)
  {
    if a.Environment? {
      EnvironmentStaysClosed(s, a.env, g);
    } else {
      assert PcOk(s, a.t);
      StepCarries(s, a);
      OwnStepNotFilling(s, a, g);
      ThreadStaysClosed(s, Step(s, a), a.t, g);
    }
  }

  lemma {:induction false} RunOnlyKills(s: State, more: seq<Action>, g: Path, k: Key)
    requires Inv(s) && g in s.segs && s.segs[g].closed && NotFilling(s, g)
    ensures var s' := After(s, more);
            && Inv(s') && g in s'.segs && s'.segs[g].closed && NotFilling(s', g)
            && (k in s'.rows && RefersSegment(s'.rows[k], g) ==> k in s.rows && s.rows[k] == s'.rows[k])
  {
    if more != [] {
      var s1, a := After(s, more[..|more| - 1]), more[|more| - 1];
      RunOnlyKills(s, more[..|more| - 1], g, k);
      StepKeepsInv(s1, a);
      StepStaysClosed(s1, a, g);
      if k in Step(s1, a).rows && RefersSegment(Step(s1, a).rows[k], g) {
        StepOnlyKills(s1, a, g, k);
      }
    }
  }

  /** The rows after `n` steps of a run. */
  function RowsAfter(s: State, more: seq<Action>, n: nat): Table {
    After(s, if n <= |more| then more[..n] else more).rows
  }

  /** So a walk over a closed segment, its lookups at any increasing moments of any run of
      the storage machine, meets entries that only die. */
  lemma {:induction false} WalkMeetsOnlyDeaths(run: seq<Action>, more: seq<Action>, g: Path, when: nat -> nat, at: Times,
                                               file: seq<SegEntry>)
    requires var s := After(INIT, run); g in s.segs && s.segs[g].closed && NotFilling(s, g)
    requires forall i: nat, j: nat :: i <= j ==> when(i) <= when(j)
    requires forall i: nat :: at(i) == RowsAfter(After(INIT, run), more, when(i))
    ensures OnlyDies(at, g, file)
  {
    RunKeepsInv(run);
    forall i: nat, j: nat, e | i <= j <= |file| && e in file && LiveIn(at(j), g, e) ensures LiveIn(at(i), g, e) {
      DiesAfter(After(INIT, run), more, g, when(i), when(j), e);
    }
  }

  lemma DiesAfter(s: State, more: seq<Action>, g: Path, i: nat, j: nat, e: SegEntry)
    requires Inv(s) && g in s.segs && s.segs[g].closed && NotFilling(s, g) && i <= j
    requires LiveIn(RowsAfter(s, more, j), g, e)
    ensures LiveIn(RowsAfter(s, more, i), g, e)
  {
    assert more[..|more|] == more;
    DiesBetween(s, more, g, if i <= |more| then i else |more|, if j <= |more| then j else |more|, e);
  }

  lemma {:induction false} DiesOver(s: State, more: seq<Action>, g: Path, e: SegEntry)
    requires Inv(s) && g in s.segs && s.segs[g].closed && NotFilling(s, g) && LiveIn(After(s, more).rows, g, e)
    ensures LiveIn(s.rows, g, e)
  {
    RunOnlyKills(s, more, g, e.key);
  }

  lemma {:induction false} DiesBetween(s: State, more: seq<Action>, g: Path, i: nat, j: nat, e: SegEntry)
    requires Inv(s) && g in s.segs && s.segs[g].closed && NotFilling(s, g) && i <= j <= |more|
    requires LiveIn(After(s, more[..j]).rows, g, e)
    ensures LiveIn(After(s, more[..i]).rows, g, e)
  {
    var first, rest := more[..i], more[i..j];
    assert first + rest == more[..j];
    AfterAppend(s, first, rest);
    RunOnlyKills(s, first, g, e.key);
    DiesOver(After(s, first), rest, g, e);
  }
}
