/** The deletion queue: nothing leaves it before its file is gone, and no due entry
    waits for ever behind entries that fail (storage/deletion/queue.go). */
module DeletionQueue {
  import opened Rows
  import opened Order

  datatype QEntry = QEntry(stamp: int, path: Path)

  /** The queue as the store orders it, and the files on disk. */
  datatype Queue = Queue(entries: set<QEntry>, files: set<Path>)

  predicate Before(a: QEntry, b: QEntry) {
    a.stamp < b.stamp || (a.stamp == b.stamp && Less(a.path, b.path))
  }

  lemma BeforeAsymmetric(a: QEntry, b: QEntry)
    requires Before(a, b)
    ensures !Before(b, a) && a != b
  {
    if a.stamp == b.stamp {
      LessAsymmetric(a.path, b.path);
    }
  }

  /** What the iterator yields: every entry once, oldest first. */
  ghost predicate Walks(order: seq<QEntry>, entries: set<QEntry>) {
    && (forall i, j :: 0 <= i < j < |order| ==> Before(order[i], order[j]))
    && (forall e :: e in entries <==> e in order)
  }

  predicate Waiting(q: Queue, p: Path) {
    exists e :: e in q.entries && e.path == p
  }

  // ---- What a cycle attempts ----

  /** The batch: for up to `size` distinct paths due at `now`, their earliest entry; a due
      entry left out has every batched entry ahead of it, and the batch is full. */
  ghost predicate IsBatch(entries: set<QEntry>, now: int, size: nat, seen: map<Path, QEntry>) {
    && |seen| <= size
    && (forall p :: p in seen ==> seen[p] in entries && seen[p].path == p && seen[p].stamp <= now)
    && (forall e :: e in entries && e.path in seen ==> !Before(e, seen[e.path]))
    && (forall e :: e in entries && e.stamp <= now && e.path !in seen ==>
          |seen| == size && forall p :: p in seen ==> Before(seen[p], e))
  }

  /** The scan has passed `i` entries: each path met is held by its earliest entry. */
  ghost predicate ScanOk(order: seq<QEntry>, i: nat, now: int, size: nat, seen: map<Path, QEntry>) {
    && i <= |order| && |seen| <= size
    && (forall p :: p in seen ==> seen[p] in order[..i] && seen[p].path == p && seen[p].stamp <= now)
    && (forall j :: 0 <= j < i ==> order[j].path in seen)
    && (forall j :: 0 <= j < |order| && order[j].path in seen ==> !Before(order[j], seen[order[j].path]))
  }

  lemma ScanStep(order: seq<QEntry>, i: nat, now: int, size: nat, seen: map<Path, QEntry>, entries: set<QEntry>)
    requires Walks(order, entries) && ScanOk(order, i, now, size, seen) && i < |order| && order[i].stamp <= now && |seen| < size
    ensures ScanOk(order, i + 1, now, size, if order[i].path in seen then seen else seen[order[i].path := order[i]])
  {
    assert order[..i + 1] == order[..i] + [order[i]];
    if order[i].path !in seen {
      FirstOfItsPath(order, i);
    }
  }

  lemma ScanIsBatch(order: seq<QEntry>, i: nat, now: int, size: nat, seen: map<Path, QEntry>, entries: set<QEntry>)
    requires Walks(order, entries) && ScanOk(order, i, now, size, seen)
    requires i == |order| || |seen| == size || order[i].stamp > now
    ensures IsBatch(entries, now, size, seen)
  {
    forall e | e in entries && e.path in seen ensures !Before(e, seen[e.path]) {
      var j :| 0 <= j < |order| && order[j] == e;
    }
    forall e | e in entries && e.stamp <= now && e.path !in seen
      ensures |seen| == size && forall p :: p in seen ==> Before(seen[p], e)
    {
      LeftOutIsLater(order, i, now, size, seen, entries, e);
    }
  }

  lemma LeftOutIsLater(order: seq<QEntry>, i: nat, now: int, size: nat, seen: map<Path, QEntry>, entries: set<QEntry>, e: QEntry)
    requires Walks(order, entries) && ScanOk(order, i, now, size, seen)
    requires i == |order| || |seen| == size || order[i].stamp > now
    requires e in entries && e.stamp <= now && e.path !in seen
    ensures |seen| == size && forall p :: p in seen ==> Before(seen[p], e)
  {
    var j :| 0 <= j < |order| && order[j] == e;
    forall p | p in seen ensures Before(seen[p], e) {
      var n :| 0 <= n < i && order[n] == seen[p];
    }
  }

  method CollectDue(order: seq<QEntry>, now: int, size: nat, ghost entries: set<QEntry>) returns (seen: map<Path, QEntry>)
    requires Walks(order, entries)
    ensures IsBatch(entries, now, size, seen)
  {
    seen := map[];
    var i := 0;
    while i < |order| && |seen| < size
      invariant ScanOk(order, i, now, size, seen)
    {
      if order[i].stamp > now {
        break;
      }
      ScanStep(order, i, now, size, seen, entries);
      if order[i].path !in seen {
        seen := seen[order[i].path := order[i]];
      }
      i := i + 1;
    }
    ScanIsBatch(order, i, now, size, seen, entries);
  }

  lemma FirstOfItsPath(order: seq<QEntry>, i: nat)
    requires i < |order| && forall a, b :: 0 <= a < b < |order| ==> Before(order[a], order[b])
    requires forall j :: 0 <= j < i ==> order[j].path != order[i].path
    ensures forall j :: 0 <= j < |order| && order[j].path == order[i].path ==> !Before(order[j], order[i])
  {
    forall j | 0 <= j < |order| && order[j].path == order[i].path ensures !Before(order[j], order[i]) {
      if j == i {
        LessIrreflexive(order[i].path);
      } else {
        BeforeAsymmetric(order[i], order[j]);
      }
    }
  }

  // ---- One cycle ----

  /** What stands in the way of a removal: a reader or writer holding the file's lock, and
      an error other than that the file is not there. */
  datatype World = World(locked: Path -> bool, fails: Path -> bool)

  /** An attempt succeeds on an unlocked file that can be removed or is already missing. */
  predicate Deletable(files: set<Path>, w: World, p: Path) {
    !w.locked(p) && (p in files ==> !w.fails(p))
  }

  function Gone(seen: map<Path, QEntry>, files: set<Path>, w: World): set<Path> {
    set p | p in seen && Deletable(files, w, p)
  }

  function Attempted(seen: map<Path, QEntry>): set<QEntry> {
    set p | p in seen :: seen[p]
  }

  function Retried(seen: map<Path, QEntry>, files: set<Path>, w: World, retry: Path -> int): set<QEntry> {
    set p | p in seen && !Deletable(files, w, p) :: QEntry(retry(p), p)
  }

  /** Attempted entries leave; the ones that failed come back, each under its own later stamp. */
  function Cycle(q: Queue, seen: map<Path, QEntry>, w: World, retry: Path -> int, commits: bool): Queue {
    Queue(if commits then q.entries - Attempted(seen) + Retried(seen, q.files, w, retry) else q.entries,
          q.files - Gone(seen, q.files, w))
  }

  lemma NoAttempts(seen: map<Path, QEntry>, files: set<Path>, w: World, retry: Path -> int)
    requires seen == map[]
    ensures Attempted(seen) == {} && Gone(seen, files, w) == {} && Retried(seen, files, w, retry) == {}
  {
  }

  lemma OneMoreAttempt(seen: map<Path, QEntry>, p: Path, e: QEntry, files: set<Path>, w: World, retry: Path -> int)
    requires p !in seen
    ensures p !in Gone(seen, files, w)
    ensures Attempted(seen[p := e]) == Attempted(seen) + {e}
    ensures Gone(seen[p := e], files, w) == Gone(seen, files, w) + (if Deletable(files, w, p) then {p} else {})
    ensures Retried(seen[p := e], files, w, retry) ==
            Retried(seen, files, w, retry) + (if Deletable(files, w, p) then {} else {QEntry(retry(p), p)})
  {
    assert forall x :: x in Attempted(seen) ==> x in Attempted(seen[p := e]) by {
      forall x | x in Attempted(seen) ensures x in Attempted(seen[p := e]) {
        var r :| r in seen && seen[r] == x;
        assert seen[p := e][r] == x;
      }
    }
    assert seen[p := e][p] == e;
  }

  /** A path leaves the queue only once its file is gone, whatever fails. */
  lemma CycleConserves(q: Queue, seen: map<Path, QEntry>, w: World, retry: Path -> int, commits: bool, p: Path)
    requires forall p :: p in seen ==> seen[p].path == p
    requires Waiting(q, p)
    ensures var q' := Cycle(q, seen, w, retry, commits); Waiting(q', p) || p !in q'.files
  {
  }

  /** A cycle leaves a locked file and one that cannot be removed where they are, waiting again. */
  lemma CycleSpares(q: Queue, seen: map<Path, QEntry>, w: World, retry: Path -> int, commits: bool, p: Path)
    requires forall p :: p in seen ==> seen[p].path == p
    requires p in q.files && (w.locked(p) || w.fails(p) || p !in seen)
    ensures var q' := Cycle(q, seen, w, retry, commits);
            p in q'.files && (p in seen && commits ==> QEntry(retry(p), p) in q'.entries) && (Waiting(q, p) ==> Waiting(q', p))
  {
    var q' := Cycle(q, seen, w, retry, commits);
    if p in seen && commits {
      assert QEntry(retry(p), p) in Retried(seen, q.files, w, retry);
    }
  }

  /** A file that is attempted, free and removable is gone; with a working commit so is the entry,
      unless it is the retry of another stamp. */
  lemma CycleDeletes(q: Queue, seen: map<Path, QEntry>, w: World, retry: Path -> int, commits: bool, p: Path)
    requires (forall p :: p in seen ==> seen[p].path == p) && p in seen && !w.locked(p) && (p in q.files ==> !w.fails(p))
    ensures var q' := Cycle(q, seen, w, retry, commits);
            p !in q'.files && (commits ==> forall e: QEntry :: e.path == p ==> (e in q'.entries <==> e in q.entries && e != seen[p]))
  {
  }

  // ---- Pruning ----

  predicate Prunable(e: QEntry, cutoff: int, files: set<Path>) {
    0 < e.stamp < cutoff && e.path !in files
  }

  /** Entries past the prune age go, but only those whose file is gone; some commits may fail. */
  ghost predicate Pruned(q: Queue, cutoff: int, q': Queue) {
    && q'.files == q.files && q'.entries <= q.entries
    && forall e :: e in q.entries && e !in q'.entries ==> Prunable(e, cutoff, q.files)
  }

  // ---- Whole runs ----

  datatype Event =
    | Adding(path: Path, stamp: int)
    | Cycling(now: int, seen: map<Path, QEntry>, world: World, retry: Path -> int, commits: bool)
    | Pruning(after: Queue, cutoff: int)
    | Creating(path: Path)

  /** What can happen: a cycle attempts a batch of the queue, pruning prunes, and a path is
      never created again once it was queued. */
  ghost predicate Enabled(q: Queue, queued: set<Path>, e: Event) {
    match e
    case Adding(p, stamp) => p != ""
    case Cycling(_, seen, _, _, _) => forall p :: p in seen ==> seen[p] in q.entries && seen[p].path == p
    case Pruning(after, cutoff) => Pruned(q, cutoff, after)
    case Creating(p) => p !in queued
  }

  function Next(q: Queue, e: Event): Queue {
    match e
    case Adding(p, stamp) => q.(entries := q.entries + {QEntry(stamp, p)})
    case Cycling(_, seen, w, retry, commits) => Cycle(q, seen, w, retry, commits)
    case Pruning(after, cutoff) => after
    case Creating(p) => q.(files := q.files + {p})
  }

  function QueuedBy(queued: set<Path>, e: Event): set<Path> {
    if e.Adding? then queued + {e.path} else queued
  }

  ghost predicate IsRun(q: Queue, queued: set<Path>, run: seq<Event>)
    decreases |run|
  {
    run == [] || (Enabled(q, queued, run[0]) && IsRun(Next(q, run[0]), QueuedBy(queued, run[0]), run[1..]))
  }

  function After(q: Queue, run: seq<Event>): Queue
    decreases |run|
  {
    if run == [] then q else After(Next(q, run[0]), run[1..])
  }

  lemma StepConserves(q: Queue, queued: set<Path>, e: Event, p: Path)
    requires Enabled(q, queued, e) && p in queued && (Waiting(q, p) || p !in q.files)
    ensures Waiting(Next(q, e), p) || p !in Next(q, e).files
  {
  }

  /** Once queued, a path is waiting or its file is gone, for ever after: through failed
      deletes, failed commits and pruning. */
  lemma {:induction false} QueuedUntilGone(q: Queue, queued: set<Path>, run: seq<Event>, p: Path)
    requires IsRun(q, queued, run) && p in queued && (Waiting(q, p) || p !in q.files)
    ensures Waiting(After(q, run), p) || p !in After(q, run).files
    decreases |run|
  {
    if run != [] {
      StepConserves(q, queued, run[0], p);
      QueuedUntilGone(Next(q, run[0]), QueuedBy(queued, run[0]), run[1..], p);
    }
  }

  ghost predicate AllQueued(q: Queue, queued: set<Path>) {
    forall e: QEntry :: e in q.entries ==> e.path in queued
  }

  lemma StepSpares(q: Queue, queued: set<Path>, e: Event, p: Path)
    requires Enabled(q, queued, e) && AllQueued(q, queued)
    ensures AllQueued(Next(q, e), QueuedBy(queued, e))
    ensures p !in QueuedBy(queued, e) ==> (p in Next(q, e).files <==> p in q.files || e == Creating(p))
  {
  }

  /** A path nobody ever queued is on disk exactly if it was there or was created: the queue
      removes nothing else, whatever it is given. */
  lemma {:induction false} UnqueuedIsSpared(q: Queue, queued: set<Path>, run: seq<Event>, p: Path)
    requires IsRun(q, queued, run) && AllQueued(q, queued)
    requires p !in queued && forall i :: 0 <= i < |run| ==> !(run[i].Adding? && run[i].path == p)
    ensures p in After(q, run).files <==> p in q.files || Creating(p) in run
    decreases |run|
  {
    if run != [] {
      assert run == [run[0]] + run[1..];
      StepSpares(q, queued, run[0], p);
      UnqueuedIsSpared(Next(q, run[0]), QueuedBy(queued, run[0]), run[1..], p);
    }
  }

  // ---- No starvation ----

  function Ahead(entries: set<QEntry>, e: QEntry): set<QEntry> {
    set x | x in entries && Before(x, e)
  }

  /** A cycle with a working commit either attempts the path of a due entry or brings it
      strictly closer to the head. */
  lemma CycleAdvances(q: Queue, now: int, size: nat, seen: map<Path, QEntry>, w: World, retry: Path -> int, e: QEntry)
    requires IsBatch(q.entries, now, size, seen) && 0 < size && e in q.entries && e.stamp <= now
    requires e.path !in seen && forall p :: p in seen ==> now < retry(p)
    ensures var q' := Cycle(q, seen, w, retry, true);
            e in q'.entries && Ahead(q'.entries, e) < Ahead(q.entries, e)
  {
    var q' := Cycle(q, seen, w, retry, true);
    assert |seen| == size;
    var p :| p in seen;
    assert seen[p] in Ahead(q.entries, e) && seen[p] !in q'.entries;
    forall x | x in Ahead(q'.entries, e) ensures x in Ahead(q.entries, e) {
      assert x.stamp <= e.stamp;
    }
  }

  /** Entries added in the meantime carry later stamps and do not get ahead. */
  lemma AddingStaysBehind(q: Queue, p: Path, stamp: int, e: QEntry)
    requires e.stamp < stamp
    ensures Ahead(Next(q, Adding(p, stamp)).entries, e) == Ahead(q.entries, e)
  {
  }

  /** The clock has passed `due` and advances: entries are added under later stamps, cycles
      attempt the due head and put failures back under later stamps, pruning prunes. */
  ghost predicate Advances(q: Queue, size: nat, due: int, e: Event) {
    match e
    case Adding(_, stamp) => due < stamp
    case Cycling(now, seen, _, retry, _) =>
      due <= now && IsBatch(q.entries, now, size, seen) && forall p :: p in seen ==> now < retry(p)
    case Pruning(after, cutoff) => Pruned(q, cutoff, after)
    case Creating(_) => true
  }

  ghost predicate Advancing(q: Queue, size: nat, due: int, run: seq<Event>)
    decreases |run|
  {
    run == [] || (Advances(q, size, due, run[0]) && Advancing(Next(q, run[0]), size, due, run[1..]))
  }

  /** The cycles of a run whose commits work. */
  function Cycles(run: seq<Event>): nat {
    if run == [] then 0 else (if run[0].Cycling? && run[0].commits then 1 else 0) + Cycles(run[1..])
  }

  /** A cycle attempts the entry's path, or pruning finds its file gone. */
  predicate Serves(q: Queue, ev: Event, e: QEntry) {
    || (ev.Cycling? && e.path in ev.seen)
    || (ev.Pruning? && e !in ev.after.entries && e.path !in q.files)
  }

  ghost predicate Served(q: Queue, run: seq<Event>, e: QEntry)
    decreases |run|
  {
    run != [] && (Serves(q, run[0], e) || Served(Next(q, run[0]), run[1..], e))
  }

  lemma StepStaysBehind(q: Queue, size: nat, ev: Event, e: QEntry)
    requires 0 < size && e in q.entries && Advances(q, size, e.stamp, ev) && !Serves(q, ev, e)
    ensures e in Next(q, ev).entries
    ensures |Ahead(Next(q, ev).entries, e)| + (if ev.Cycling? && ev.commits then 1 else 0) <= |Ahead(q.entries, e)|
  {
    var was, now := Ahead(q.entries, e), Ahead(Next(q, ev).entries, e);
    match ev
    case Adding(p, stamp) => AddingStaysBehind(q, p, stamp, e);
    case Cycling(at, seen, w, retry, commits) =>
      if commits {
        CycleAdvances(q, at, size, seen, w, retry, e);
        SmallerSet(now, was);
      }
    case Pruning(_, _) =>
      assert now <= was;
      if now != was {
        SmallerSet(now, was);
      }
    case Creating(_) =>
  }

  /** So a due entry's path is attempted, or its file found gone, within as many working cycles
      as entries are ahead of it, and one, whatever is added, pruned or fails in between. */
  lemma {:induction false} AttemptedInTime(q: Queue, size: nat, run: seq<Event>, e: QEntry)
    requires 0 < size && e in q.entries && Advancing(q, size, e.stamp, run) && Cycles(run) > |Ahead(q.entries, e)|
    ensures Served(q, run, e)
    decreases |run|
  {
    if !Serves(q, run[0], e) {
      StepStaysBehind(q, size, run[0], e);
      AttemptedInTime(Next(q, run[0]), size, run[1..], e);
    }
  }

  lemma SmallerSet<T>(a: set<T>, b: set<T>)
    requires a < b
    ensures |a| < |b|
  {
    assert b == a + (b - a);
    assert b - a != {};
  }

  // ---- The queue itself ----

  class Deletions {
    var queue: Queue

    constructor (files: set<Path>)
      ensures queue == Queue({}, files)
    {
      queue := Queue({}, files);
    }

    /** Queues a path; the empty path is refused, and a failed write is reported. */
    method Add(p: Path, stamp: int, fails: bool) returns (ok: bool)
      modifies this
      ensures ok <==> p != "" && !fails
      ensures queue == if ok then Next(old(queue), Adding(p, stamp)) else old(queue)
    {
      ok := p != "" && !fails;
      if ok {
        queue := queue.(entries := queue.entries + {QEntry(stamp, p)});
      }
    }

    /** Attempts one file: true means that it is not there any more, and false that it
        was locked, or is there and could not be removed. */
    method TryDelete(p: Path, w: World) returns (ok: bool)
      modifies this
      ensures ok ==> p !in queue.files
      ensures !w.locked(p) && p !in old(queue).files ==> ok
      ensures !ok ==> w.locked(p) || (p in queue.files && w.fails(p))
      ensures w.locked(p) || (p in old(queue).files && w.fails(p)) ==> !ok && queue == old(queue)
      ensures ok <==> Deletable(old(queue).files, w, p)
      ensures queue == old(queue).(files := if ok then old(queue).files - {p} else old(queue).files)
    {
      if w.locked(p) {
        return false;
      }
      if p in queue.files {
        if w.fails(p) {
          return false;
        }
        queue := queue.(files := queue.files - {p});
      }
      return true;
    }

    /** Attempts every path of a batch; the files go as the attempts succeed. */
    method AttemptAll(due: map<Path, QEntry>, w: World, retry: Path -> int) returns (dels: set<QEntry>, puts: set<QEntry>)
      modifies this
      ensures dels == Attempted(due) && puts == Retried(due, old(queue).files, w, retry)
      ensures queue == old(queue).(files := old(queue).files - Gone(due, old(queue).files, w))
    {
      hide Attempted, Gone, Retried;
      ghost var was := queue.files;
      var todo := due.Keys;
      dels, puts := {}, {};
      NoAttempts(due - todo, was, w, retry);
      while todo != {}
        invariant todo <= due.Keys
        invariant queue.entries == old(queue).entries && queue.files == was - Gone(due - todo, was, w)
        invariant dels == Attempted(due - todo) && puts == Retried(due - todo, was, w, retry)
      {
        var p :| p in todo;
        OneMoreAttempt(due - todo, p, due[p], was, w, retry);
        assert (due - todo)[p := due[p]] == due - (todo - {p});
        var ok := TryDelete(p, w);
        dels, todo := dels + {due[p]}, todo - {p};
        if !ok {
          puts := puts + {QEntry(retry(p), p)};
        }
      }
      assert due - todo == due;
    }

    /** One cycle over the due head of the queue. */
    method ProcessBatch(order: seq<QEntry>, now: int, size: nat, w: World, retry: Path -> int, fails: bool)
      returns (ghost seen: map<Path, QEntry>)
      requires Walks(order, queue.entries)
      modifies this
      ensures IsBatch(old(queue).entries, now, size, seen)
      ensures queue == Cycle(old(queue), seen, w, retry, !fails)
    {
      hide IsBatch, Walks;
      var due := CollectDue(order, now, size, queue.entries);
      seen := due;
      var dels, puts := AttemptAll(due, w, retry);
      if !fails {
        queue := queue.(entries := queue.entries - dels + puts);
      }
    }

    /** Drops aged entries whose files are gone; batches of 100 commit or fail on their own. */
    method PruneOldEntries(order: seq<QEntry>, cutoff: int, fails: nat -> bool)
      requires Walks(order, queue.entries)
      modifies this
      ensures Pruned(old(queue), cutoff, queue)
      ensures queue.files == old(queue).files
      ensures forall e :: e in old(queue).entries && e !in queue.entries ==> 0 < e.stamp < cutoff && e.path !in queue.files
      ensures (forall n: nat :: !fails(n)) ==>
                forall e :: e in queue.entries <==> e in old(queue).entries && !(0 < e.stamp < cutoff && e.path !in queue.files)
      ensures (forall n: nat :: !fails(n)) ==> forall e :: e in queue.entries ==> !Prunable(e, cutoff, queue.files)
    {
      var batch: set<QEntry>, count, commits, i := {}, 0, 0, 0;
      while i < |order|
        invariant 0 <= i <= |order| && Pruned(old(queue), cutoff, queue)
        invariant forall e :: e in batch ==> Prunable(e, cutoff, queue.files)
        invariant count == 0 ==> batch == {}
        invariant (forall n: nat :: !fails(n)) ==>
                    forall j :: 0 <= j < i && order[j] in queue.entries && Prunable(order[j], cutoff, queue.files) ==> order[j] in batch
      {
        var e := order[i];
        if Prunable(e, cutoff, queue.files) {
          batch, count := batch + {e}, count + 1;
        }
        if count >= 100 {
          if !fails(commits) {
            queue := queue.(entries := queue.entries - batch);
          }
          batch, count, commits := {}, 0, commits + 1;
        }
        i := i + 1;
      }
      if count > 0 && !fails(commits) {
        queue := queue.(entries := queue.entries - batch);
      }
    }
  }
}
