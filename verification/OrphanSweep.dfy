/** The orphan sweep: raw files on disk that no row references are queued for deletion
    while writers go on creating and committing files (storage/orphan_sweep.go,
    storage/cleaner.go, storage/storage.go, storage/files/manager.go). */
module OrphanSweep {
  import opened Rows

  /** A write holds its file's lock while writing; then it registers the path, commits the
      row or gives up, and unregisters. A file that is `Gone` was removed from the directory. */
  datatype Stage = Writing | Written | Registered | Committed | Failed | Gone

  datatype File = File(modified: int, stage: Stage)

  /** The sweep: its start, the references of its snapshot, the names the directory listed. */
  datatype Sweep =
    | NoSweep
    | Started(start: int)
    | Pinned(start: int, referenced: set<Path>)
    | Listed(start: int, referenced: set<Path>, entries: set<Path>)

  /** The file in the sweep's hands, by the last guard it has passed. */
  datatype Candidate =
    | NoCandidate
    | Aged(path: Path)
    | Unregistered(path: Path)
    | Unlocked(path: Path)

  datatype State = State(
    clock: int,
    files: map<Path, File>,
    inflight: set<Path>,
    rows: set<Path>,           // raw files a row references
    sweep: Sweep,
    candidate: Candidate,
    queued: set<Path>)         // what the sweep has queued

  const INIT := State(0, map[], {}, {}, NoSweep, NoCandidate, {})

  const GRACE := 600           // seconds

  datatype Action =
    | Tick(seconds: nat)
    | Create(path: Path)
    | WriteMore(path: Path)
    | CloseFile(path: Path)
    | Register(path: Path)
    | Commit(path: Path)
    | Fail(path: Path)
    | Unregister(path: Path)
    | DropRow(path: Path)
    | Remove(path: Path)
    | StartSweep
    | Pin
    | ListDirectory
    | Stat(path: Path)
    | CheckInflight
    | TryLock
    | Queue

  function Put(s: State, p: Path, f: File): State {
    s.(files := s.files[p := f])
  }

  predicate At(s: State, p: Path, stage: Stage) {
    p in s.files && s.files[p].stage == stage
  }

  /** The guards that need no lock: not referenced in the snapshot, still there, and last
      modified at least the grace window before the sweep started. */
  predicate LooksOld(s: State, p: Path) {
    && s.sweep.Listed? && p in s.sweep.entries && p !in s.sweep.referenced
    && p in s.files && s.files[p].stage != Gone && s.files[p].modified <= s.sweep.start - GRACE
  }

  /** The sweep drops a file at the first guard it fails. */
  function Guard(s: State, passes: bool, next: Candidate): State {
    s.(candidate := if passes then next else NoCandidate)
  }

  function SweepStep(s: State, a: Action): State {
    match a
    case StartSweep => s.(sweep := Started(s.clock), candidate := NoCandidate)
    case Pin => if s.sweep.Started? then s.(sweep := Pinned(s.sweep.start, s.rows)) else s
    case ListDirectory =>
      if s.sweep.Pinned?
      then s.(sweep := Listed(s.sweep.start, s.sweep.referenced, set p | p in s.files && s.files[p].stage != Gone))
      else s
    case Stat(p) => if s.candidate.NoCandidate? then Guard(s, LooksOld(s, p), Aged(p)) else s
    case CheckInflight =>
      if s.candidate.Aged? then Guard(s, s.candidate.path !in s.inflight, Unregistered(s.candidate.path)) else s
    case TryLock =>
      if s.candidate.Unregistered?
      then Guard(s, !At(s, s.candidate.path, Writing), Unlocked(s.candidate.path)) else s
    case Queue =>
      if s.candidate.Unlocked? then s.(queued := s.queued + {s.candidate.path}, candidate := NoCandidate) else s
    case _ => s
  }

  function Step(s: State, a: Action): State {
    match a
    case Tick(n) => s.(clock := s.clock + n)
    case Create(p) => if p in s.files then s else Put(s, p, File(s.clock, Writing))
    case WriteMore(p) => if At(s, p, Writing) then Put(s, p, File(s.clock, Writing)) else s
    case CloseFile(p) => if At(s, p, Writing) then Put(s, p, s.files[p].(stage := Written)) else s
    case Register(p) =>
      if At(s, p, Written) then Put(s, p, s.files[p].(stage := Registered)).(inflight := s.inflight + {p}) else s
    case Commit(p) =>
      if At(s, p, Registered) then Put(s, p, s.files[p].(stage := Committed)).(rows := s.rows + {p}) else s
    case Fail(p) => if At(s, p, Registered) then Put(s, p, s.files[p].(stage := Failed)) else s
    case Unregister(p) => if At(s, p, Committed) || At(s, p, Failed) then s.(inflight := s.inflight - {p}) else s
    case DropRow(p) => s.(rows := s.rows - {p})
    case Remove(p) =>
      if p !in s.rows && (At(s, p, Writing) || At(s, p, Committed) || At(s, p, Failed))
      then Put(s, p, s.files[p].(stage := Gone)) else s
    case _ => SweepStep(s, a)
  }

  function After(run: seq<Action>): State {
    if run == [] then INIT else Step(After(run[..|run| - 1]), run[|run| - 1])
  }

  /** Every row is committed less than `gap` after the last byte of its file. */
  predicate TimelyStep(s: State, a: Action, gap: int) {
    a.Commit? && At(s, a.path, Registered) ==> s.clock < s.files[a.path].modified + gap
  }

  predicate Timely(run: seq<Action>, gap: int) {
    run == [] || (Timely(run[..|run| - 1], gap) && TimelyStep(After(run[..|run| - 1]), run[|run| - 1], gap))
  }

  /** No writer stalls for `gap` between two bytes of its file. */
  predicate SteadyStep(s: State, a: Action, gap: int) {
    a.WriteMore? && At(s, a.path, Writing) ==> s.clock < s.files[a.path].modified + gap
  }

  predicate Steady(run: seq<Action>, gap: int) {
    run == [] || (Steady(run[..|run| - 1], gap) && SteadyStep(After(run[..|run| - 1]), run[|run| - 1], gap))
  }

  lemma {:induction false} OneMore(run: seq<Action>, a: Action)
    ensures After(run + [a]) == Step(After(run), a)
    ensures forall gap :: Timely(run + [a], gap) <==> Timely(run, gap) && TimelyStep(After(run), a, gap)
    ensures forall gap :: Steady(run + [a], gap) <==> Steady(run, gap) && SteadyStep(After(run), a, gap)
  {
    assert (run + [a])[..|run + [a]| - 1] == run;
  }

  // ---- What holds in every timely run ----

  /** No row references the file and, with no more bytes, it is too late for one to come. */
  ghost predicate Stale(s: State, p: Path) {
    p in s.files && p !in s.rows && s.files[p].modified + GRACE <= s.clock
  }

  /** A row the snapshot does not know was committed recently enough for its file to be too
      young for the sweep. */
  ghost predicate Inv(s: State) {
    && (forall p :: p in s.rows ==> At(s, p, Committed))
    && (forall p :: p in s.inflight ==> p in s.files && s.files[p].stage != Writing && s.files[p].stage != Written)
    && (forall p :: p in s.files ==> s.files[p].modified <= s.clock)
    && (!s.sweep.NoSweep? ==> s.sweep.start <= s.clock)
    && (s.sweep.Pinned? || s.sweep.Listed? ==>
          forall p :: p in s.rows && p !in s.sweep.referenced ==> s.files[p].modified > s.sweep.start - GRACE)
  }

  lemma StepKeepsInv(s: State, a: Action)
    requires Inv(s) && TimelyStep(s, a, GRACE)
    ensures Inv(Step(s, a))
  {
  }

  lemma {:induction false} RunKeepsInv(run: seq<Action>)
    requires Timely(run, GRACE)
    ensures Inv(After(run))
  {
    if run != [] {
      RunKeepsInv(run[..|run| - 1]);
      StepKeepsInv(After(run[..|run| - 1]), run[|run| - 1]);
    }
  }

  lemma OldIsStale(s: State, p: Path)
    requires Inv(s) && LooksOld(s, p)
    ensures Stale(s, p)
  {
  }

  /** In a timely run only another byte can make such a file the one of a row. */
  lemma StaleStays(s: State, a: Action, p: Path)
    requires Inv(s) && Stale(s, p) && TimelyStep(s, a, GRACE) && !(a == WriteMore(p) && At(s, p, Writing))
    ensures Stale(Step(s, a), p)
  {
  }

  // ---- Steady writers are never swept ----

  /** Everything past the age guard. */
  ghost predicate SweptAreStale(s: State) {
    && (!s.candidate.NoCandidate? ==> Stale(s, s.candidate.path))
    && (forall p :: p in s.queued ==> Stale(s, p))
  }

  lemma StepKeepsStale(s: State, a: Action)
    requires Inv(s) && SweptAreStale(s) && TimelyStep(s, a, GRACE) && SteadyStep(s, a, GRACE)
    ensures SweptAreStale(Step(s, a))
  {
    hide LooksOld, Inv;
    forall p | Stale(s, p) ensures Stale(Step(s, a), p) {
      StaleStays(s, a, p);
    }
    if a.Stat? && LooksOld(s, a.path) {
      OldIsStale(s, a.path);
    }
  }

  lemma {:induction false} RunKeepsStale(run: seq<Action>)
    requires Timely(run, GRACE) && Steady(run, GRACE)
    ensures SweptAreStale(After(run))
  {
    if run != [] {
      RunKeepsStale(run[..|run| - 1]);
      RunKeepsInv(run[..|run| - 1]);
      StepKeepsStale(After(run[..|run| - 1]), run[|run| - 1]);
    }
  }

  lemma {:induction false} QueuedStays(run: seq<Action>, more: seq<Action>, p: Path)
    requires p in After(run).queued
    ensures p in After(run + more).queued
  {
    if more == [] {
      assert run + more == run;
    } else {
      assert (run + more)[..|run + more| - 1] == run + more[..|more| - 1];
      QueuedStays(run, more[..|more| - 1], p);
    }
  }

  /** A file the sweep has queued is referenced by no row, then or ever after. */
  lemma {:induction false} SweepQueuesOnlyOrphans(run: seq<Action>, more: seq<Action>, p: Path)
    requires Timely(run + more, GRACE) && Steady(run + more, GRACE) && p in After(run).queued
    ensures p !in After(run + more).rows
  {
    QueuedStays(run, more, p);
    RunKeepsStale(run + more);
  }

  // ---- What one look at a file decides ----

  function Looked(s: State, p: Path): State {
    Step(Step(Step(Step(s, Stat(p)), CheckInflight), TryLock), Queue)
  }

  /** A look that nobody interrupts queues the file exactly when it was listed, is not referenced
      in the snapshot, is still there, was last written the whole window before the sweep began,
      and is neither registered nor locked. */
  lemma LookExactly(s: State, p: Path)
    requires s.candidate.NoCandidate? && p !in s.queued
    ensures p in Looked(s, p).queued <==>
            && s.sweep.Listed? && p in s.sweep.entries && p !in s.sweep.referenced
            && p in s.files && s.files[p].stage != Gone && s.files[p].modified + GRACE <= s.sweep.start
            && p !in s.inflight && s.files[p].stage != Writing
    ensures forall q :: q != p ==> (q in Looked(s, p).queued <==> q in s.queued)
  {
  }

  /** A sweep that nobody interrupts, up to and including its look at `p`. */
  function SweptFor(s: State, p: Path): State {
    Looked(Step(Step(Step(s, StartSweep), Pin), ListDirectory), p)
  }

  /** It queues exactly the files that are on disk unreferenced, as old as the window, and neither
      registered nor locked. */
  lemma SweepExactly(s: State, p: Path)
    ensures p in SweptFor(s, p).queued <==>
            || p in s.queued
            || (&& p in s.files && s.files[p].stage != Gone && s.files[p].stage != Writing
                && s.files[p].modified + GRACE <= s.clock && p !in s.rows && p !in s.inflight)
  {
    var listed := Step(Step(Step(s, StartSweep), Pin), ListDirectory);
    assert listed.queued == s.queued && listed.candidate.NoCandidate?;
    if p in s.queued {
      LookKeeps(listed, p);
    } else {
      LookExactly(listed, p);
    }
  }

  lemma LookKeeps(s: State, p: Path)
    ensures s.queued <= Looked(s, p).queued
  {
  }

  /** The file of a write that failed, or of a row that was dropped, is queued by the first whole
      sweep once the write has left the registry and the window has passed. */
  lemma AbandonedIsSwept(s: State, p: Path, wait: nat)
    requires At(s, p, Failed) || At(s, p, Committed)
    requires s.files[p].modified + GRACE <= s.clock + wait
    ensures var s' := Step(Step(Step(s, Unregister(p)), DropRow(p)), Tick(wait));
            p in SweptFor(s', p).queued
  {
    hide SweptFor, SweepStep;
    SweepExactly(Step(Step(Step(s, Unregister(p)), DropRow(p)), Tick(wait)), p);
  }

  /** From its registration until its row is committed or given up a file is in the registry, so no
      uninterrupted look queues it. */
  lemma {:induction false} RegisteredIsInFlight(run: seq<Action>, p: Path)
    requires At(After(run), p, Registered)
    ensures p in After(run).inflight
    ensures After(run).candidate.NoCandidate? && p !in After(run).queued ==> p !in Looked(After(run), p).queued
  {
    if run != [] {
      var s, a := After(run[..|run| - 1]), run[|run| - 1];
      if At(s, p, Registered) {
        RegisteredIsInFlight(run[..|run| - 1], p);
      }
    }
    if After(run).candidate.NoCandidate? && p !in After(run).queued {
      LookExactly(After(run), p);
    }
  }

  /** The sweep has nothing to do with `p` just now. */
  predicate Spared(s: State, p: Path) {
    s.candidate.NoCandidate? || s.candidate.path != p
  }

  lemma StepSpares(s: State, a: Action, p: Path)
    requires Spared(s, p) && a != Stat(p)
    ensures Spared(Step(s, a), p) && (p in Step(s, a).queued <==> p in s.queued)
  {
  }

  lemma {:induction false} RunSpares(run: seq<Action>, more: seq<Action>, p: Path)
    requires Spared(After(run), p) && Stat(p) !in more
    ensures Spared(After(run + more), p) && (p in After(run + more).queued <==> p in After(run).queued)
  {
    if more == [] {
      assert run + more == run;
    } else {
      var init, a := more[..|more| - 1], more[|more| - 1];
      assert run + more == (run + init) + [a];
      OneMore(run + init, a);
      RunSpares(run, init, p);
      StepSpares(After(run + init), a, p);
    }
  }

  /** A file found registered, or found locked, at the check for it is not queued by that look,
      whatever runs until the sweep looks at it again. */
  lemma {:induction false} ActiveFileIsSpared(run: seq<Action>, more: seq<Action>, p: Path)
    requires Stat(p) !in more && p !in After(run).queued
    requires (After(run).candidate == Aged(p) && p in After(run).inflight) ||
             (After(run).candidate == Unregistered(p) && At(After(run), p, Writing))
    ensures p !in After(run + [if After(run).candidate.Aged? then CheckInflight else TryLock] + more).queued
  {
    var check := if After(run).candidate.Aged? then CheckInflight else TryLock;
    OneMore(run, check);
    RunSpares(run + [check], more, p);
  }

  // ---- Why a stalled writer is not safe, however promptly it commits ----

  /** A writer that holds the lock of a file past the age guard finishes it and unlocks
      before the sweep tries the lock, and commits at once. */
  function Finish(p: Path): seq<Action> {
    [CheckInflight] + [WriteMore(p)] + [CloseFile(p)] + [TryLock] + [Queue] + [Register(p)] + [Commit(p)]
  }

  /** The first half: up to the lock. */
  lemma FinishWriting(run: seq<Action>, p: Path) returns (next: seq<Action>)
    requires var s := After(run); s.candidate == Aged(p) && At(s, p, Writing) && p !in s.inflight
    ensures next == run + [CheckInflight] + [WriteMore(p)] + [CloseFile(p)]
    ensures var s := After(run);
            After(next) == Put(s, p, File(s.clock, Written)).(candidate := Unregistered(p))
    ensures forall gap :: Timely(next, gap) <==> Timely(run, gap)
    ensures forall gap :: Steady(run, gap) && After(run).clock < After(run).files[p].modified + gap ==> Steady(next, gap)
  {
    OneMore(run, CheckInflight);
    OneMore(run + [CheckInflight], WriteMore(p));
    OneMore(run + [CheckInflight] + [WriteMore(p)], CloseFile(p));
    next := run + [CheckInflight] + [WriteMore(p)] + [CloseFile(p)];
  }

  /** The second half: queueing and commit. */
  lemma {:induction false} FinishCommitting(run: seq<Action>, p: Path)
    requires var s := After(run); s.candidate == Unregistered(p) && At(s, p, Written) && s.files[p].modified == s.clock
    ensures var next := run + [TryLock] + [Queue] + [Register(p)] + [Commit(p)];
            && p in After(next).rows && p in After(next).queued
            && (forall gap :: gap > 0 && Timely(run, gap) ==> Timely(next, gap))
            && (forall gap :: Steady(run, gap) ==> Steady(next, gap))
  {
    OneMore(run, TryLock);
    OneMore(run + [TryLock], Queue);
    OneMore(run + [TryLock] + [Queue], Register(p));
    OneMore(run + [TryLock] + [Queue] + [Register(p)], Commit(p));
  }

  lemma {:induction false} FinishIsSwept(run: seq<Action>, p: Path)
    requires var s := After(run); s.candidate == Aged(p) && At(s, p, Writing) && p !in s.inflight
    ensures var next := run + Finish(p);
            && p in After(next).rows && p in After(next).queued
            && (forall gap :: gap > 0 && Timely(run, gap) ==> Timely(next, gap))
            && (forall gap :: Steady(run, gap) && After(run).clock < After(run).files[p].modified + gap ==> Steady(next, gap))
  {
    var next := FinishWriting(run, p);
    FinishCommitting(next, p);
    assert run + Finish(p) == next + [TryLock] + [Queue] + [Register(p)] + [Commit(p)];
  }

  lemma StaysClosed(s: State, a: Action, p: Path)
    requires p in s.files && s.files[p].stage != Writing
    ensures p in Step(s, a).files && Step(s, a).files[p].stage != Writing
  {
  }

  /** A file the sweep will come to queue although a row references it. */
  ghost predicate Swept(run: seq<Action>, more: seq<Action>, p: Path) {
    Timely(run + more, GRACE) && p in After(run + more).rows && p in After(run + more).queued
  }

  /** Nobody holds the lock any more, and no row references the file or ever will. */
  ghost predicate Settled(s: State, p: Path) {
    Stale(s, p) && p in s.files && s.files[p].stage != Writing
  }

  lemma {:induction false} StaleForGood(run: seq<Action>, more: seq<Action>, p: Path)
    requires Timely(run + more, GRACE) && Timely(run, GRACE) && Settled(After(run), p)
    ensures Settled(After(run + more), p)
  {
    hide Inv, Stale, Timely, After, SweepStep, TimelyStep;
    if more == [] {
      assert run + more == run;
    } else {
      var init, a := more[..|more| - 1], more[|more| - 1];
      assert run + more == (run + init) + [a];
      OneMore(run + init, a);
      StaleForGood(run, init, p);
      RunKeepsInv(run + init);
      StaleStays(After(run + init), a, p);
      StaysClosed(After(run + init), a, p);
    }
  }

  /** The age guard settles the matter exactly when the file is not being written while it
      is looked at: the lock is tried too late to tell. */
  lemma {:induction false} AgeGuardExactly(run: seq<Action>, p: Path)
    requires Timely(run, GRACE) && After(run).candidate.NoCandidate? && LooksOld(After(run), p)
    ensures (forall more :: !Swept(run + [Stat(p)], more, p)) <==> !At(After(run), p, Writing)
  {
    var looked := run + [Stat(p)];
    OneMore(run, Stat(p));
    RunKeepsInv(run);
    if At(After(run), p, Writing) {
      FinishIsSwept(looked, p);
      assert Swept(looked, Finish(p), p);
    } else {
      OldIsStale(After(run), p);
      forall more ensures !Swept(looked, more, p) {
        if Timely(looked + more, GRACE) {
          StaleForGood(looked, more, p);
        }
      }
    }
  }

  // ---- How far apart bytes and commits may be ----

  ghost predicate Safe(run: seq<Action>) {
    After(run).queued !! After(run).rows
  }

  /** The run ends in `s`, and no gap in it counts. */
  ghost predicate Reaches(run: seq<Action>, s: State) {
    After(run) == s && forall gap :: Timely(run, gap) && Steady(run, gap)
  }

  lemma Extend(run: seq<Action>, s: State, a: Action)
    requires Reaches(run, s) && !a.WriteMore? && !a.Commit?
    ensures Reaches(run + [a], Step(s, a))
  {
    OneMore(run, a);
  }

  lemma CreatedRun()
    ensures Reaches([Create("f")], INIT.(files := map["f" := File(0, Writing)]))
  {
    Extend([], INIT, Create("f"));
    assert [] + [Create("f")] == [Create("f")];
  }

  const SWEEP := [Tick(GRACE)] + [StartSweep] + [Pin] + [ListDirectory]

  /** The whole window later the sweep pins its snapshot and lists the directory. */
  lemma SweepRun(run: seq<Action>, s: State, stage: Stage)
    requires Reaches(run, s) && s.clock == 0 && s.files == map["f" := File(0, stage)] && stage != Gone
    ensures Reaches(run + SWEEP, s.(clock := GRACE, candidate := NoCandidate, sweep := Listed(GRACE, s.rows, {"f"})))
  {
    hide Reaches;
    var s1 := s.(clock := GRACE);
    var s2 := s1.(sweep := Started(GRACE), candidate := NoCandidate);
    var s3 := s2.(sweep := Pinned(GRACE, s.rows));
    Extend(run, s, Tick(GRACE));
    Extend(run + [Tick(GRACE)], s1, StartSweep);
    Extend(run + [Tick(GRACE)] + [StartSweep], s2, Pin);
    Extend(run + [Tick(GRACE)] + [StartSweep] + [Pin], s3, ListDirectory);
    assert run + [Tick(GRACE)] + [StartSweep] + [Pin] + [ListDirectory] == run + SWEEP;
    assert (set p | p in s.files && s.files[p].stage != Gone) == {"f"};
  }

  const STALLED := [Create("f")] + SWEEP + [Stat("f")]

  /** A writer stalls for the whole window; the sweep starts and finds its file old. */
  lemma StalledRun()
    ensures Reaches(STALLED, State(GRACE, map["f" := File(0, Writing)], {}, {}, Listed(GRACE, {}, {"f"}), Aged("f"), {}))
  {
    hide Reaches;
    CreatedRun();
    SweepRun([Create("f")], INIT.(files := map["f" := File(0, Writing)]), Writing);
    Extend([Create("f")] + SWEEP, State(GRACE, map["f" := File(0, Writing)], {}, {}, Listed(GRACE, {}, {"f"}), NoCandidate, {}), Stat("f"));
  }

  /** It then commits at once, and a referenced file is queued. */
  lemma {:induction false} StalledWriterIsSwept(gap: int)
    requires gap > GRACE
    ensures var run := STALLED + Finish("f");
            !Safe(run) && Steady(run, gap) && forall commit :: commit > 0 ==> Timely(run, commit)
  {
    StalledRun();
    FinishIsSwept(STALLED, "f");
  }

  const WRITE := [Create("f")] + [CloseFile("f")] + [Register("f")]
  const LATE := WRITE + SWEEP + [Commit("f")] + [Unregister("f")] + [Stat("f")] + [CheckInflight] + [TryLock] + [Queue]

  lemma WriteRun()
    ensures Reaches(WRITE, INIT.(files := map["f" := File(0, Registered)], inflight := {"f"}))
  {
    hide Reaches;
    CreatedRun();
    var s1, s2 := INIT.(files := map["f" := File(0, Writing)]), INIT.(files := map["f" := File(0, Written)]);
    Extend([Create("f")], s1, CloseFile("f"));
    assert Step(s1, CloseFile("f")) == s2;
    Extend([Create("f")] + [CloseFile("f")], s2, Register("f"));
    assert Step(s2, Register("f")) == INIT.(files := map["f" := File(0, Registered)], inflight := {"f"});
  }

  /** The sweep goes through with a file that is committed and no longer registered. */
  lemma {:induction false} ChecksPass(run: seq<Action>)
    requires After(run) == State(GRACE, map["f" := File(0, Committed)], {}, {"f"}, Listed(GRACE, {}, {"f"}), NoCandidate, {})
    ensures var next := run + [Stat("f")] + [CheckInflight] + [TryLock] + [Queue];
            && !Safe(next)
            && (forall gap :: Timely(run, gap) ==> Timely(next, gap)) && (forall gap :: Steady(run, gap) ==> Steady(next, gap))
  {
    hide After, Timely, Steady;
    OneMore(run, Stat("f"));
    OneMore(run + [Stat("f")], CheckInflight);
    OneMore(run + [Stat("f")] + [CheckInflight], TryLock);
    OneMore(run + [Stat("f")] + [CheckInflight] + [TryLock], Queue);
    var s := After(run + [Stat("f")] + [CheckInflight] + [TryLock] + [Queue]);
    assert "f" in s.rows && "f" in s.queued;
  }

  /** A write that commits late, between the listing and the guards, and unregisters before
      them: every guard passes and a referenced file is queued. */
  lemma {:induction false} LateCommitIsSwept(gap: int)
    requires gap > GRACE
    ensures !Safe(LATE) && Timely(LATE, gap) && forall bytes :: Steady(LATE, bytes)
  {
    hide After, Timely, Steady;
    WriteRun();
    SweepRun(WRITE, INIT.(files := map["f" := File(0, Registered)], inflight := {"f"}), Registered);
    var listed := WRITE + SWEEP;
    OneMore(listed, Commit("f"));
    OneMore(listed + [Commit("f")], Unregister("f"));
    ChecksPass(listed + [Commit("f")] + [Unregister("f")]);
  }

  lemma {:induction false} Loosen(run: seq<Action>, bytes: int, commit: int)
    requires Steady(run, bytes) && Timely(run, commit) && bytes <= GRACE && commit <= GRACE
    ensures Steady(run, GRACE) && Timely(run, GRACE)
  {
    if run != [] {
      Loosen(run[..|run| - 1], bytes, commit);
    }
  }

  lemma {:induction false} NoCommits(run: seq<Action>, commit: int)
    requires Timely(run, commit) && commit <= 0
    ensures Timely(run, GRACE) && After(run).rows == {}
  {
    if run != [] {
      NoCommits(run[..|run| - 1], commit);
      RunKeepsInv(run[..|run| - 1]);
    }
  }

  /** With bytes less than `bytes` apart and commits less than `commit` after the last one,
      the sweep is safe in every interleaving exactly when neither bound exceeds the grace
      window (or nothing can ever be committed). */
  lemma SafeExactly(bytes: int, commit: int)
    ensures (forall run :: Steady(run, bytes) && Timely(run, commit) ==> Safe(run))
            <==> commit <= 0 || (bytes <= GRACE && commit <= GRACE)
  {
    if commit <= 0 {
      forall run | Steady(run, bytes) && Timely(run, commit) ensures Safe(run) {
        NoCommits(run, commit);
      }
    } else if bytes > GRACE {
      StalledWriterIsSwept(bytes);
    } else if commit > GRACE {
      LateCommitIsSwept(commit);
    } else {
      forall run | Steady(run, bytes) && Timely(run, commit) ensures Safe(run) {
        Loosen(run, bytes, commit);
        RunKeepsStale(run);
      }
    }
  }
}
