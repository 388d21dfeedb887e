/** The expiry sweep: rows are picked by a scan and removed by a later flush that looks
    again (storage/cleaner.go). */
module TtlSweep {
  import opened Rows
  import opened Tally

  /** What the scan remembers of a row it wants gone. */
  datatype Candidate = Candidate(key: Key, expiry: int, version: nat)

  /** One moment of the sweep by the wall clock: a reading in seconds, against which rows
      expire, and one in nanoseconds, against which a fence's age is measured. */
  datatype Moment = Moment(now: int, nanos: int)

  predicate Later(a: Moment, b: Moment) {
    a.now <= b.now && a.nanos <= b.nanos
  }

  predicate Expired(vm: ValueMessage, now: int) {
    vm.expiry > 0 && now >= vm.expiry
  }

  /** A stamped tombstone within the retention: still handed out, still ordering puts. */
  predicate YoungFence(vm: ValueMessage, m: Moment, retention: int) {
    IsTombstone(vm) && vm.version != 0 && m.nanos - vm.version < retention
  }

  // ---- The scan ----

  function CandidateOf(k: Key, vm: ValueMessage): Candidate {
    Candidate(k, vm.expiry, if IsTombstone(vm) then vm.version else 0)
  }

  predicate Picked(vm: ValueMessage, m: Moment, retention: int) {
    Expired(vm, m.now) && !YoungFence(vm, m, retention)
  }

  predicate PickedAs(row: (Key, Option<ValueMessage>), m: Moment, retention: int, c: Candidate) {
    row.1.Some? && Picked(row.1.value, m, retention) && c == CandidateOf(row.0, row.1.value)
  }

  /** Candidates of a scan: each was picked from some row at the moment of the scan or before `m`. */
  ghost predicate Sound(c: Candidate, m: Moment, retention: int) {
    && c.expiry > 0 && m.now >= c.expiry
    && (c.expiry == TOMBSTONE_EXPIRY ==> c.version == 0 || m.nanos - c.version >= retention)
  }

  /** Walks the rows the iterator sees; `at(i)` is the moment row `i` is looked at, the wall
      clock having been read once at the start. Candidates are exactly the expired rows that
      are no young fences; undecodable rows are set aside to be dropped. */
  method Scan(view: seq<(Key, Option<ValueMessage>)>, at: nat -> Moment, retention: int, ghost end: Moment)
    returns (candidates: seq<Candidate>, invalid: seq<Key>)
    requires forall i: nat :: i < |view| ==> Later(at(i), end)
    ensures forall c :: c in candidates ==> Sound(c, end, retention)
    ensures forall c :: c in candidates <==>
              exists i :: 0 <= i < |view| && PickedAs(view[i], at(i), retention, c)
    ensures forall k :: k in invalid <==> exists i :: 0 <= i < |view| && view[i].0 == k && view[i].1.None?
    ensures (forall i, j :: 0 <= i < j < |view| ==> view[i].0 != view[j].0) ==> DistinctKeys(candidates)
  {
    candidates, invalid := [], [];
    var i := 0;
    while i < |view|
      invariant 0 <= i <= |view|
      invariant forall c :: c in candidates ==> Sound(c, end, retention)
      invariant forall c :: c in candidates <==>
                  exists j :: 0 <= j < i && PickedAs(view[j], at(j), retention, c)
      invariant forall k :: k in invalid <==> exists j :: 0 <= j < i && view[j].0 == k && view[j].1.None?
      invariant forall c :: c in candidates ==> exists j :: 0 <= j < i && view[j].0 == c.key
      invariant (forall a, b :: 0 <= a < b < |view| ==> view[a].0 != view[b].0) ==> DistinctKeys(candidates)
    {
      var (k, row) := view[i];
      if row.None? {
        invalid := invalid + [k];
      } else if Expired(row.value, at(i).now) {
        if !YoungFence(row.value, at(i), retention) {
          candidates := candidates + [CandidateOf(k, row.value)];
        }
      }
      i := i + 1;
    }
  }

  /** A row is picked exactly when it has an expiry that has come, unless it is a stamped
      tombstone younger than the retention. */
  lemma PickedExactly(vm: ValueMessage, m: Moment, retention: int)
    ensures Picked(vm, m, retention) <==>
            && 0 < vm.expiry <= m.now
            && (vm.expiry == 1 && vm.version > 0 ==> m.nanos >= vm.version + retention)
  {
  }

  // ---- The flush ----

  /** The re-check: the row is the one the scan saw. Same expiry means same row, since a
      fresh row's expiry is zero or in the future; a tombstone is told by its stamp. */
  predicate Doomed(c: Candidate, row: Option<ValueMessage>) {
    match row
    case None => true
    case Some(vm) => vm.expiry == c.expiry && (c.expiry == TOMBSTONE_EXPIRY ==> vm.version == c.version)
  }

  /** Whatever was written between scan and flush: a row the flush removes is expired at
      the flush and is no young fence then. */
  lemma DoomedIsExpired(c: Candidate, vm: ValueMessage, scan: Moment, flush: Moment, retention: int)
    requires Sound(c, scan, retention) && Later(scan, flush) && Doomed(c, Some(vm))
    ensures Expired(vm, flush.now) && !YoungFence(vm, flush, retention)
  {
  }

  /** And a row still as the scan picked it is removed. */
  lemma PickedIsDoomed(k: Key, vm: ValueMessage, m: Moment, retention: int)
    requires Picked(vm, m, retention)
    ensures Doomed(CandidateOf(k, vm), Some(vm)) && Sound(CandidateOf(k, vm), m, retention)
  {
  }

  /** A row passes the re-check exactly when it carries the expiry the scan saw and, as a
      tombstone, the stamp; one that does not decode any more passes too. */
  lemma DoomedExactly(k: Key, was: ValueMessage, row: Option<ValueMessage>)
    ensures Doomed(CandidateOf(k, was), row) <==>
            row.None? || (row.value.expiry == was.expiry && (was.expiry == 1 ==> row.value.version == was.version))
  {
  }

  /** The candidates whose re-check succeeds, in order. */
  function Hits(rows: Table, cs: seq<Candidate>, readable: nat -> bool): seq<Key> {
    if cs == [] then []
    else
      var n := |cs| - 1;
      Hits(rows, cs[..n], readable) + (if readable(n) && cs[n].key in rows && Doomed(cs[n], rows[cs[n].key]) then [cs[n].key] else [])
  }

  predicate InSegment(vm: ValueMessage) {
    vm.valueType == Segment && vm.segmentPath != ""
  }

  /** Rows among `ks` whose bytes are reclaimed through a file, in order: a segment copy is
      credited in the same batch instead. */
  function Files(rows: Table, ks: seq<Key>): seq<ValueMessage> {
    if ks == [] then []
    else
      var k := ks[|ks| - 1];
      Files(rows, ks[..|ks| - 1]) +
      (if k in rows && rows[k].Some? && !InSegment(rows[k].value) then [rows[k].value] else [])
  }

  lemma {:induction false} HitsMember(rows: Table, cs: seq<Candidate>, readable: nat -> bool, k: Key)
    ensures k in Hits(rows, cs, readable) <==>
            exists i :: 0 <= i < |cs| && cs[i].key == k && readable(i) && k in rows && Doomed(cs[i], rows[k])
  {
    if cs != [] {
      var n := |cs| - 1;
      HitsMember(rows, cs[..n], readable, k);
      if k in Hits(rows, cs[..n], readable) {
        var i :| 0 <= i < |cs[..n]| && cs[..n][i].key == k && readable(i) && k in rows && Doomed(cs[..n][i], rows[k]);
        assert cs[i] == cs[..n][i];
      }
      if i :| 0 <= i < |cs| && cs[i].key == k && readable(i) && k in rows && Doomed(cs[i], rows[k]) {
        assert i < n ==> cs[..n][i] == cs[i];
      }
    }
  }

  predicate DistinctKeys(cs: seq<Candidate>) {
    forall i, j :: 0 <= i < j < |cs| ==> cs[i].key != cs[j].key
  }

  lemma {:induction false} HitsAreRows(rows: Table, cs: seq<Candidate>, readable: nat -> bool)
    ensures forall k :: k in Hits(rows, cs, readable) ==> k in rows
  {
    forall k | k in Hits(rows, cs, readable) ensures k in rows {
      HitsMember(rows, cs, readable, k);
    }
  }

  /** Each row is counted once: a scan yields each key once. */
  lemma {:induction false} HitsDistinct(rows: Table, cs: seq<Candidate>, readable: nat -> bool)
    requires DistinctKeys(cs)
    ensures Distinct(Hits(rows, cs, readable))
  {
    if cs != [] {
      var n := |cs| - 1;
      HitsDistinct(rows, cs[..n], readable);
      HitsMember(rows, cs[..n], readable, cs[n].key);
    }
  }

  lemma {:induction false} HitsNext(rows: Table, cs: seq<Candidate>, readable: nat -> bool, i: nat)
    requires i < |cs|
    ensures Hits(rows, cs[..i + 1], readable) == Hits(rows, cs[..i], readable) +
            (if readable(i) && cs[i].key in rows && Doomed(cs[i], rows[cs[i].key]) then [cs[i].key] else [])
  {
    assert cs[..i + 1][..i] == cs[..i];
  }

  lemma {:induction false} SumsNext(rows: Table, ks: seq<Key>, k: Key)
    requires k in rows
    ensures TotalLength(rows, ks + [k]) == TotalLength(rows, ks) + Length(rows[k])
    ensures Files(rows, ks + [k]) == Files(rows, ks) +
            (if rows[k].Some? && !InSegment(rows[k].value) then [rows[k].value] else [])
  {
  }

  /** Handed over are exactly the removed rows that decode and are not in a segment: raw files for
      the queue, and inline rows, which have none. */
  lemma {:induction false} FilesExactly(rows: Table, ks: seq<Key>, vm: ValueMessage)
    ensures vm in Files(rows, ks) <==>
            !(vm.valueType == Segment && vm.segmentPath != "") && exists i :: 0 <= i < |ks| && ks[i] in rows && rows[ks[i]] == Some(vm)
  {
    if ks != [] {
      var init := ks[..|ks| - 1];
      FilesExactly(rows, init, vm);
      if i :| 0 <= i < |init| && init[i] in rows && rows[init[i]] == Some(vm) {
        assert ks[i] == init[i];
      }
      if i :| 0 <= i < |ks| && ks[i] in rows && rows[ks[i]] == Some(vm) {
        assert i < |init| ==> init[i] == ks[i];
      }
    }
  }

  lemma {:induction false} NoHits(rows: Table, readable: nat -> bool)
    ensures Hits(rows, [], readable) == [] && TotalLength(rows, []) == 0 && Files(rows, []) == []
  {
  }

  class Sweeper {
    var rows: Table
    var totalSize: int
    var staged: seq<ValueMessage>

    constructor (rows: Table, totalSize: int)
      ensures this.rows == rows && this.totalSize == totalSize && staged == []
    {
      this.rows, this.totalSize, staged := rows, totalSize, [];
    }

    /** Looks again at every candidate and deletes the ones that are still the scan's rows,
        in one batch. On success the total drops by exactly their decoded lengths and
        exactly their files are handed over; on failure nothing happens. */
    method Flush(candidates: seq<Candidate>, readable: nat -> bool, fails: bool)
      modifies this
      ensures fails ==> rows == old(rows) && totalSize == old(totalSize) && staged == old(staged)
      ensures !fails ==>
                var hits := Hits(old(rows), candidates, readable);
                && rows == old(rows) - (set k | k in hits)
                && totalSize == old(totalSize) - TotalLength(old(rows), hits)
                && staged == old(staged) + Files(old(rows), hits)
      ensures DistinctKeys(candidates) ==> totalSize - LiveBytes(rows) == old(totalSize) - LiveBytes(old(rows))
    {
      hide Hits, TotalLength, Files, LiveBytes;
      ghost var hits: seq<Key> := [];
      NoHits(rows, readable);
      var batch: set<Key>, pendingBytes, pendingFiles := {}, 0, [];
      var i := 0;
      while i < |candidates|
        invariant 0 <= i <= |candidates| && hits == Hits(rows, candidates[..i], readable)
        invariant batch == (set k | k in hits) && pendingBytes == TotalLength(rows, hits) && pendingFiles == Files(rows, hits)
        invariant rows == old(rows) && totalSize == old(totalSize) && staged == old(staged)
      {
        var c := candidates[i];
        HitsNext(rows, candidates, readable, i);
        if readable(i) && c.key in rows && Doomed(c, rows[c.key]) {
          SumsNext(rows, hits, c.key);
          hits := hits + [c.key];
          batch := batch + {c.key};
          if rows[c.key].Some? {
            var vm := rows[c.key].value;
            pendingBytes := pendingBytes + vm.valueLength;
            if !InSegment(vm) {
              pendingFiles := pendingFiles + [vm];
            }
          }
        }
        i := i + 1;
      }
      assert candidates[..i] == candidates;
      if !fails {
        if DistinctKeys(candidates) {
          HitsDistinct(rows, candidates, readable);
          HitsAreRows(rows, candidates, readable);
          RemovedBytes(rows, hits);
        }
        rows, totalSize, staged := rows - batch, totalSize - pendingBytes, staged + pendingFiles;
      }
    }
  }

  /** So no sweep, whatever was written between its scan and its flush, removes a row that
      is live at the flush or a fence younger than the retention. */
  lemma {:induction false} FlushSpares(rows: Table, cs: seq<Candidate>, readable: nat -> bool, scan: Moment, flush: Moment,
                                       retention: int, k: Key)
    requires (forall c :: c in cs ==> Sound(c, scan, retention)) && Later(scan, flush)
    requires k in rows && rows[k].Some? && k in Hits(rows, cs, readable)
    ensures Expired(rows[k].value, flush.now) && !YoungFence(rows[k].value, flush, retention)
  {
    HitsMember(rows, cs, readable, k);
    var i :| 0 <= i < |cs| && cs[i].key == k && readable(i) && Doomed(cs[i], rows[k]);
    assert cs[i] in cs;
    DoomedIsExpired(cs[i], rows[k].value, scan, flush, retention);
  }
}
