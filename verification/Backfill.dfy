/** The merge-join of a reconcile: metadata rows against back-references, both in key
    order, forward only, while other writers go on indexing keys (storage/cleaner.go). */
module Backfill {
  import opened Rows
  import opened Order
  import Accounting

  /** A metadata row as the scan reads it; a row that does not parse has no length. */
  datatype MetaRow = MetaRow(key: Key, length: Option<int>)

  predicate InOrder(rows: seq<MetaRow>) {
    forall i, j :: 0 <= i < j < |rows| ==> Less(rows[i].key, rows[j].key)
  }

  /** The live bytes the scan adds up. */
  function TotalSize(rows: seq<MetaRow>): int {
    if rows == [] then 0
    else TotalSize(rows[..|rows| - 1]) + (if rows[|rows| - 1].length.Some? then rows[|rows| - 1].length.value else 0)
  }

  predicate HasLength(rows: seq<MetaRow>, i: nat, k: Key) {
    i < |rows| && rows[i].key == k && rows[i].length.Some?
  }

  /** `m` holds the length of every row that parses, by key. */
  ghost predicate AreLengths(rows: seq<MetaRow>, m: map<Key, int>) {
    && (forall k :: k in m ==> exists i: nat :: HasLength(rows, i, k))
    && (forall i: nat, k :: HasLength(rows, i, k) ==> k in m && m[k] == rows[i].length.value)
  }

  lemma LengthsBefore(rows: seq<MetaRow>, m: map<Key, int>)
    requires InOrder(rows) && AreLengths(rows, m) && rows != []
    ensures var init, last := rows[..|rows| - 1], rows[|rows| - 1];
            AreLengths(init, if last.length.Some? then m - {last.key} else m)
  {
    var init, last := rows[..|rows| - 1], rows[|rows| - 1];
    var m' := if last.length.Some? then m - {last.key} else m;
    forall i: nat, k | HasLength(init, i, k) ensures k in m' && m'[k] == init[i].length.value {
      assert HasLength(rows, i, k);
      LessIrreflexive(last.key);
    }
    forall k | k in m' ensures exists i: nat :: HasLength(init, i, k) {
      var i: nat :| HasLength(rows, i, k);
      assert HasLength(init, i, k);
    }
  }

  /** It is the sum of the lengths of all rows that parse. */
  lemma {:induction false} TotalIsTruth(rows: seq<MetaRow>, m: map<Key, int>)
    requires InOrder(rows) && AreLengths(rows, m)
    ensures TotalSize(rows) == Accounting.Sum(m)
  {
    hide AreLengths;
    if rows == [] {
      NoLengths(m);
    } else {
      var last := rows[|rows| - 1];
      LengthsBefore(rows, m);
      if last.length.Some? {
        LastHasLength(rows, m);
        Accounting.SumWithout(m, last.key);
        TotalIsTruth(rows[..|rows| - 1], m - {last.key});
      } else {
        TotalIsTruth(rows[..|rows| - 1], m);
      }
    }
  }

  lemma NoLengths(m: map<Key, int>)
    requires AreLengths([], m)
    ensures m == map[]
  {
  }

  lemma LastHasLength(rows: seq<MetaRow>, m: map<Key, int>)
    requires AreLengths(rows, m) && rows != [] && rows[|rows| - 1].length.Some?
    ensures rows[|rows| - 1].key in m && m[rows[|rows| - 1].key] == rows[|rows| - 1].length.value
  {
    assert HasLength(rows, |rows| - 1, rows[|rows| - 1].key);
  }

  /** The back-reference iterator: its position, and the position at which it fails, if at all. */
  datatype Cursor = Cursor(at: nat, failsAt: Option<nat>)

  predicate Valid(backrefs: seq<Key>, c: Cursor) {
    c.at < |backrefs| && c.failsAt != Some(c.at)
  }

  /** Everything behind the cursor sorts before `k`, so it can be forgotten. */
  ghost predicate Behind(backrefs: seq<Key>, c: Cursor, k: Key) {
    c.at <= |backrefs| && (c.failsAt.Some? ==> c.at <= c.failsAt.value) && forall i :: 0 <= i < c.at ==> Less(backrefs[i], k)
  }

  /** Moves forward to `k`. Never moving back, it still answers exactly whether `k` has a
      back-reference, and says so when it cannot know; it comes to rest on the first one past `k`. */
  method AdvanceBackrefTo(backrefs: seq<Key>, c: Cursor, k: Key) returns (covered: bool, ok: bool, c': Cursor)
    requires Ascending(backrefs) && Behind(backrefs, c, k)
    ensures c'.failsAt == c.failsAt && c.at <= c'.at
    ensures ok ==> (covered <==> k in backrefs)
    ensures ok ==> forall i :: 0 <= i < |backrefs| ==> (i < c'.at <==> !Less(k, backrefs[i]))
    ensures !ok ==> !covered && c'.failsAt == Some(c'.at)
    ensures forall later :: Less(k, later) ==> Behind(backrefs, c', later)
  {
    c' := c;
    while Valid(backrefs, c')
      invariant c'.failsAt == c.failsAt && c.at <= c'.at && Behind(backrefs, c', k)
      decreases |backrefs| - c'.at
    {
      if Less(backrefs[c'.at], k) {
        c' := c'.(at := c'.at + 1);
      } else if backrefs[c'.at] == k {
        c' := c'.(at := c'.at + 1);
        BehindNext(backrefs, c', k);
        RestsPast(backrefs, c'.at, k);
        return true, true, c';
      } else {
        LessTotal(backrefs[c'.at], k);
        PastIsAbsent(backrefs, c', k);
        BehindNext(backrefs, c', k);
        RestsPast(backrefs, c'.at, k);
        return false, true, c';
      }
    }
    PastIsAbsent(backrefs, c', k);
    BehindNext(backrefs, c', k);
    if c'.failsAt != Some(c'.at) {
      RestsPast(backrefs, c'.at, k);
    }
    return false, c'.failsAt != Some(c'.at), c';
  }

  lemma {:induction false} PastIsAbsent(backrefs: seq<Key>, c: Cursor, k: Key)
    requires Ascending(backrefs) && Behind(backrefs, c, k) && (c.at < |backrefs| ==> Less(k, backrefs[c.at]) || c.failsAt == Some(c.at))
    ensures c.failsAt != Some(c.at) ==> k !in backrefs
  {
    if c.failsAt != Some(c.at) && k in backrefs {
      var i :| 0 <= i < |backrefs| && backrefs[i] == k;
      LessIrreflexive(k);
      if i > c.at {
        LessAsymmetric(k, backrefs[c.at]);
      }
    }
  }

  lemma BehindNext(backrefs: seq<Key>, c: Cursor, k: Key)
    requires c.at <= |backrefs| && (c.failsAt.Some? ==> c.at <= c.failsAt.value)
    requires forall i :: 0 <= i < c.at ==> Less(backrefs[i], k) || backrefs[i] == k
    ensures forall later :: Less(k, later) ==> Behind(backrefs, c, later)
  {
    forall later, i | Less(k, later) && 0 <= i < c.at ensures Less(backrefs[i], later) {
      if backrefs[i] != k {
        LessTransitive(backrefs[i], k, later);
      }
    }
  }

  lemma {:induction false} RestsPast(backrefs: seq<Key>, at: nat, k: Key)
    requires Ascending(backrefs) && at <= |backrefs| && (at < |backrefs| ==> Less(k, backrefs[at]))
    requires forall i :: 0 <= i < at ==> Less(backrefs[i], k) || backrefs[i] == k
    ensures forall i :: 0 <= i < |backrefs| ==> (i < at <==> !Less(k, backrefs[i]))
  {
    LessIrreflexive(k);
    forall i | 0 <= i < |backrefs| ensures i < at <==> !Less(k, backrefs[i]) {
      if i < at {
        if backrefs[i] != k {
          LessAsymmetric(backrefs[i], k);
        }
      } else if i > at {
        LessTransitive(k, backrefs[at], backrefs[i]);
      }
    }
  }

  // ---- The index, and who writes it ----

  /** What other writers do to the index in one go: the stamp a put gives a key, `None` for a delete. */
  type Change = map<Key, Option<int>>

  type Others = nat -> Change

  function Changed(index: map<Key, int>, c: Change): map<Key, int> {
    map k | k in index.Keys + c.Keys && (k in c ==> c[k].Some?) :: if k in c then c[k].value else index[k]
  }

  function Stamped(batch: seq<Key>, stamp: int): map<Key, int> {
    map k | k in batch :: stamp
  }

  /** What the pass writes at moment `m`. */
  function Ours(written: map<Key, nat>, m: nat, stamp: int): map<Key, int> {
    map k | k in written && written[k] == m :: stamp
  }

  /** The index after `n` moments of a pass that started on `was`: at each the others make their
      change, and then the keys the pass wrote at that moment get its stamp. */
  function IndexAt(was: map<Key, int>, others: Others, written: map<Key, nat>, stamp: int, n: nat): map<Key, int> {
    if n == 0 then was
    else Changed(IndexAt(was, others, written, stamp, n - 1), others(n - 1)) + Ours(written, n - 1, stamp)
  }

  /** The last thing the others did to `k` from moment `from` on. */
  function LastChange(others: Others, from: nat, n: nat, k: Key): Option<Option<int>> {
    if n <= from then None
    else if k in others(n - 1) then Some(others(n - 1)[k])
    else LastChange(others, from, n - 1, k)
  }

  /** Whose stamp a key carries: the last other writer's since the pass wrote it, and else the
      pass's; a key the pass has not written is left to the others. */
  lemma {:induction false} IndexExactly(was: map<Key, int>, others: Others, written: map<Key, nat>, stamp: int, n: nat, k: Key)
    ensures Lookup(IndexAt(was, others, written, stamp, n), k) ==
            var ours := k in written && written[k] < n;
            var theirs := LastChange(others, if ours then written[k] + 1 else 0, n, k);
            if theirs.Some? then theirs.value else if ours then Some(stamp) else Lookup(was, k)
  {
    if n > 0 {
      IndexExactly(was, others, written, stamp, n - 1, k);
    }
  }

  /** The pass overwrites somebody's stamp exactly on the keys it writes that had no
      back-reference in its snapshot and were last put, not deleted, since. */
  lemma {:induction false} RestampsExactly(was: map<Key, int>, others: Others, written: map<Key, nat>, stamp: int, k: Key)
    requires k in written && k !in was
    ensures k in Changed(IndexAt(was, others, written, stamp, written[k]), others(written[k])) <==>
            var theirs := LastChange(others, 0, written[k] + 1, k); theirs.Some? && theirs.value.Some?
  {
    IndexExactly(was, others, written, stamp, written[k], k);
  }

  /** A key first put at 9 while the pass of 5 is under way ends up stamped 5. */
  lemma PutIsRestamped(others: Others)
    requires others(0) == map["k" := Some(9)]
    ensures Changed(map[], others(0)) == map["k" := 9] && IndexAt(map[], others, map["k" := 0], 5, 1) == map["k" := 5]
  {
    assert IndexAt(map[], others, map["k" := 0], 5, 0) == map[];
    assert Ours(map["k" := 0], 0, 5) == map["k" := 5];
  }

  function WrittenWith(written: map<Key, nat>, batch: seq<Key>, at: nat): map<Key, nat> {
    written + map k | k in batch :: at
  }

  lemma OursWith(written: map<Key, nat>, batch: seq<Key>, at: nat, m: nat, stamp: int)
    requires forall k :: k in batch ==> k !in written
    ensures Ours(WrittenWith(written, batch, at), m, stamp) ==
            if m == at then Ours(written, m, stamp) + Stamped(batch, stamp) else Ours(written, m, stamp)
  {
  }

  lemma {:induction false} EarlierStays(was: map<Key, int>, others: Others, written: map<Key, nat>, stamp: int,
                                        batch: seq<Key>, at: nat, n: nat)
    requires n <= at && forall k :: k in batch ==> k !in written
    ensures IndexAt(was, others, WrittenWith(written, batch, at), stamp, n) == IndexAt(was, others, written, stamp, n)
  {
    hide Changed, Ours, WrittenWith;
    if n > 0 {
      EarlierStays(was, others, written, stamp, batch, at, n - 1);
      OursWith(written, batch, at, n - 1, stamp);
    }
  }

  lemma BatchLands(was: map<Key, int>, others: Others, written: map<Key, nat>, stamp: int, batch: seq<Key>, at: nat)
    requires forall k :: k in batch ==> k !in written
    ensures IndexAt(was, others, WrittenWith(written, batch, at), stamp, at + 1) ==
            IndexAt(was, others, written, stamp, at + 1) + Stamped(batch, stamp)
  {
    hide Changed, Ours, Stamped, WrittenWith;
    EarlierStays(was, others, written, stamp, batch, at, at);
    OursWith(written, batch, at, at, stamp);
  }

  // ---- The pass ----

  /** What the environment decides: where the two iterators fail, which writes fail, a shutdown,
      and what others do before each row. */
  datatype World = World(metaFailsAt: Option<nat>, backrefFailsAt: Option<nat>, writeFails: nat -> bool, closed: nat -> bool,
                         others: Others)

  predicate RowKey(rows: seq<MetaRow>, n: nat, k: Key) {
    exists i :: 0 <= i < n && i < |rows| && rows[i].key == k
  }

  /** The index is what the others and the pass have made of it, and the pass has written only
      rows without a back-reference in its snapshot. */
  ghost predicate Ledger(was: map<Key, int>, others: Others, written: map<Key, nat>, stamp: int, m: nat,
                         index: map<Key, int>, rows: seq<MetaRow>, n: nat)
  {
    && index == IndexAt(was, others, written, stamp, m)
    && (forall k :: k in written ==> written[k] < m && k !in was && RowKey(rows, n, k))
  }

  ghost predicate StagedOk(was: map<Key, int>, written: map<Key, nat>, rows: seq<MetaRow>, n: nat, batch: seq<Key>) {
    forall k :: k in batch ==> k !in was && k !in written && RowKey(rows, n, k)
  }

  /** Every row so far had a back-reference, was written, or is about to be. */
  ghost predicate CoveredSoFar(rows: seq<MetaRow>, n: nat, was: map<Key, int>, written: map<Key, nat>, batch: seq<Key>) {
    forall j :: 0 <= j < n && j < |rows| ==> rows[j].key in was || rows[j].key in written || rows[j].key in batch
  }

  lemma OthersAct(was: map<Key, int>, others: Others, written: map<Key, nat>, stamp: int, m: nat,
                  index: map<Key, int>, rows: seq<MetaRow>, n: nat)
    requires Ledger(was, others, written, stamp, m, index, rows, n)
    ensures Ledger(was, others, written, stamp, m + 1, Changed(index, others(m)), rows, n)
  {
    hide Changed, RowKey;
    assert Ours(written, m, stamp) == map[];
  }

  lemma BatchWritten(was: map<Key, int>, others: Others, written: map<Key, nat>, stamp: int, m: nat,
                     index: map<Key, int>, rows: seq<MetaRow>, n: nat, batch: seq<Key>)
    requires 0 < m && Ledger(was, others, written, stamp, m, index, rows, n) && StagedOk(was, written, rows, n, batch)
    ensures Ledger(was, others, WrittenWith(written, batch, m - 1), stamp, m, index + Stamped(batch, stamp), rows, n)
  {
    hide IndexAt, Stamped, RowKey;
    BatchLands(was, others, written, stamp, batch, m - 1);
  }

  lemma BatchCovers(was: map<Key, int>, written: map<Key, nat>, rows: seq<MetaRow>, n: nat, batch: seq<Key>, at: nat)
    requires CoveredSoFar(rows, n, was, written, batch)
    ensures CoveredSoFar(rows, n, was, WrittenWith(written, batch, at), [])
  {
  }

  lemma RowScanned(was: map<Key, int>, others: Others, written: map<Key, nat>, stamp: int, m: nat,
                   index: map<Key, int>, rows: seq<MetaRow>, n: nat, batch: seq<Key>)
    requires n < |rows| && InOrder(rows)
    requires Ledger(was, others, written, stamp, m, index, rows, n) && StagedOk(was, written, rows, n, batch)
    ensures Ledger(was, others, written, stamp, m, index, rows, n + 1) && StagedOk(was, written, rows, n + 1, batch)
    ensures RowKey(rows, n + 1, rows[n].key) && rows[n].key !in written
    ensures TotalSize(rows[..n + 1]) == TotalSize(rows[..n]) + (if rows[n].length.Some? then rows[n].length.value else 0)
  {
    forall k | RowKey(rows, n, k) ensures RowKey(rows, n + 1, k) && k != rows[n].key {
      var i :| 0 <= i < n && i < |rows| && rows[i].key == k;
      LessIrreflexive(k);
    }
    assert rows[n].key == rows[n].key;
    assert rows[..n + 1][..n] == rows[..n];
  }

  /** Where the join stands; once an entry was lost or the back-references broke, coverage is unknown. */
  datatype Join = Join(cursor: Cursor, batch: seq<Key>, commits: nat, lost: bool, broken: bool)

  ghost predicate JoinOk(was: map<Key, int>, written: map<Key, nat>, rows: seq<MetaRow>, n: nat, backrefs: seq<Key>, j: Join) {
    && StagedOk(was, written, rows, n, j.batch)
    && (!j.broken && n < |rows| ==> Behind(backrefs, j.cursor, rows[n].key))
    && (!j.broken && !j.lost ==> CoveredSoFar(rows, n, was, written, j.batch))
  }

  lemma PassStarts(index: map<Key, int>, others: Others, stamp: int, rows: seq<MetaRow>, backrefs: seq<Key>, j: Join)
    requires j.cursor.at == 0 && j.batch == []
    ensures Ledger(index, others, map[], stamp, 0, index, rows, 0) && JoinOk(index, map[], rows, 0, backrefs, j)
  {
  }

  lemma Complete(was: map<Key, int>, others: Others, written: map<Key, nat>, stamp: int, m: nat, index: map<Key, int>,
                 rows: seq<MetaRow>)
    requires Ledger(was, others, written, stamp, m, index, rows, |rows|) && CoveredSoFar(rows, |rows|, was, written, [])
    ensures forall k :: k in written <==> RowKey(rows, |rows|, k) && k !in was
  {
  }

  lemma {:induction false} Widen(was: map<Key, int>, others: Others, written: map<Key, nat>, stamp: int, m: nat, index: map<Key, int>,
                                 rows: seq<MetaRow>, n: nat)
    requires n <= |rows| && Ledger(was, others, written, stamp, m, index, rows, n)
    ensures Ledger(was, others, written, stamp, m, index, rows, |rows|)
    ensures index == IndexAt(was, others, written, stamp, m)
    ensures forall k :: k in written ==> written[k] < m && k !in was && RowKey(rows, |rows|, k)
  {
  }

  class Reconciler {
    var totalSize: int
    var backfillPending: bool
    var index: map<Key, int>      // each back-reference, with the stamp it was written under

    constructor (totalSize: int, index: map<Key, int>)
      ensures this.totalSize == totalSize && this.index == index && !backfillPending
    {
      this.totalSize, this.index, backfillPending := totalSize, index, false;
    }

    /** Writes the staged entries; a failed write loses them and is remembered. */
    method Flush(batch: seq<Key>, stamp: int, fails: bool, ghost was: map<Key, int>, ghost others: Others,
                 ghost written: map<Key, nat>, ghost m: nat, ghost rows: seq<MetaRow>, ghost n: nat)
      returns (lost: bool, ghost written': map<Key, nat>)
      requires 0 < m && Ledger(was, others, written, stamp, m, index, rows, n) && StagedOk(was, written, rows, n, batch)
      modifies this`index
      ensures lost <==> fails && batch != []
      ensures Ledger(was, others, written', stamp, m, index, rows, n)
      ensures written' == if fails then written else WrittenWith(written, batch, m - 1)
      ensures !lost && CoveredSoFar(rows, n, was, written, batch) ==> CoveredSoFar(rows, n, was, written', [])
    {
      hide Ledger, StagedOk, CoveredSoFar;
      BatchWritten(was, others, written, stamp, m, index, rows, n, batch);
      if CoveredSoFar(rows, n, was, written, batch) {
        BatchCovers(was, written, rows, n, batch, m - 1);
      }
      if batch == [] {
        assert WrittenWith(written, batch, m - 1) == written;
        return false, written;
      }
      lost, written' := fails, written;
      if !fails {
        index := index + map k | k in batch :: stamp;
        written' := WrittenWith(written, batch, m - 1);
      }
    }

    /** Stages an entry for an uncovered row, and flushes a batch that has grown large. */
    method StageRow(rows: seq<MetaRow>, i: nat, stamp: int, world: World, j: Join, ghost was: map<Key, int>,
                    ghost written: map<Key, nat>, ghost m: nat)
      returns (j': Join, ghost written': map<Key, nat>)
      requires 0 < m && i < |rows| && Ledger(was, world.others, written, stamp, m, index, rows, i + 1)
      requires StagedOk(was, written, rows, i + 1, j.batch) && rows[i].key !in was && rows[i].key !in written
      requires !j.lost ==> CoveredSoFar(rows, i, was, written, j.batch)
      modifies this`index
      ensures Ledger(was, world.others, written', stamp, m, index, rows, i + 1) && StagedOk(was, written', rows, i + 1, j'.batch)
      ensures j'.lost ==> j.lost || world.writeFails(j.commits)
      ensures j'.cursor == j.cursor && j'.broken == j.broken && (|j.batch| < 500 ==> |j'.batch| < 500)
      ensures !j'.lost ==> CoveredSoFar(rows, i + 1, was, written', j'.batch)
    {
      hide Ledger;
      assert RowKey(rows, i + 1, rows[i].key);
      j', written' := j.(batch := j.batch + [rows[i].key]), written;
      assert !j.lost ==> CoveredSoFar(rows, i + 1, was, written, j'.batch);
      if 2 * |j'.batch| >= 1000 {
        var failed;
        failed, written' := Flush(j'.batch, stamp, world.writeFails(j.commits), was, world.others, written, m, rows, i + 1);
        j' := j'.(batch := [], commits := j.commits + 1, lost := j.lost || failed);
      }
    }

    /** Joins one more row: it is indexed already, or gets an entry staged. */
    method JoinRow(rows: seq<MetaRow>, i: nat, backrefs: seq<Key>, stamp: int, world: World, j: Join,
                   ghost was: map<Key, int>, ghost written: map<Key, nat>, ghost m: nat)
      returns (j': Join, ghost written': map<Key, nat>)
      requires 0 < m && i < |rows| && InOrder(rows) && Ascending(backrefs) && (forall k :: k in backrefs <==> k in was)
      requires Ledger(was, world.others, written, stamp, m, index, rows, i) && JoinOk(was, written, rows, i, backrefs, j)
      modifies this`index
      ensures Ledger(was, world.others, written', stamp, m, index, rows, i + 1) && JoinOk(was, written', rows, i + 1, backrefs, j')
      ensures j.broken ==> j' == j && written' == written && index == old(index)
      ensures |j.batch| < 500 ==> |j'.batch| < 500
      ensures j'.lost ==> j.lost || world.writeFails(j.commits)
      ensures j'.cursor.failsAt == j.cursor.failsAt && (j'.broken ==> j.broken || j.cursor.failsAt.Some?)
    {
      hide Ledger;
      RowScanned(was, world.others, written, stamp, m, index, rows, i, j.batch);
      if j.broken {
        return j, written;
      }
      var covered, ok, next := AdvanceBackrefTo(backrefs, j.cursor, rows[i].key);
      j', written' := j.(cursor := next), written;
      if !ok {
        return j'.(broken := true), written;
      }
      if !covered {
        j', written' := StageRow(rows, i, stamp, world, j', was, written, m);
      }
    }

    /** The scan: up to the end, a failing iterator or a shutdown. */
    method Scan(rows: seq<MetaRow>, backrefs: seq<Key>, capped: bool, stamp: int, world: World)
      returns (i: nat, total: int, j: Join, stopped: bool, ghost written: map<Key, nat>)
      requires InOrder(rows) && Ascending(backrefs) && forall k :: k in backrefs <==> k in index
      modifies this`index
      ensures i <= |rows| && total == TotalSize(rows[..i])
      ensures forall n :: 0 <= n < i ==> !world.closed(n) && world.metaFailsAt != Some(n)
      ensures if stopped then i < |rows| && world.closed(i) && world.metaFailsAt != Some(i)
              else i == |rows| || world.metaFailsAt == Some(i)
      ensures Ledger(old(index), world.others, written, stamp, i, index, rows, i) && JoinOk(old(index), written, rows, i, backrefs, j)
      ensures !capped ==> written == map[] && j.batch == [] && j.broken
      ensures j.cursor.failsAt == world.backrefFailsAt && (capped && j.broken ==> world.backrefFailsAt.Some?)
      ensures (j.lost ==> exists n: nat :: world.writeFails(n)) && |j.batch| < 500
    {
      hide Ledger, StagedOk, CoveredSoFar, Behind, IndexAt, Changed, RowKey;
      ghost var was := index;
      i, total, stopped, written := 0, 0, false, map[];
      j := Join(Cursor(0, world.backrefFailsAt), [], 0, false, !capped);
      PassStarts(index, world.others, stamp, rows, backrefs, j);
      while i < |rows| && world.metaFailsAt != Some(i)
        invariant 0 <= i <= |rows| && total == TotalSize(rows[..i]) && !stopped
        invariant forall n :: 0 <= n < i ==> !world.closed(n) && world.metaFailsAt != Some(n)
        invariant Ledger(was, world.others, written, stamp, i, index, rows, i) && JoinOk(was, written, rows, i, backrefs, j)
        invariant !capped ==> written == map[] && j.batch == [] && j.broken
        invariant j.cursor.failsAt == world.backrefFailsAt && (capped && j.broken ==> world.backrefFailsAt.Some?)
        invariant (j.lost ==> exists n: nat :: world.writeFails(n)) && |j.batch| < 500
      {
        if world.closed(i) {
          stopped := true;
          break;
        }
        OthersAct(was, world.others, written, stamp, i, index, rows, i);
        index := Changed(index, world.others(i));
        RowScanned(was, world.others, written, stamp, i + 1, index, rows, i, j.batch);
        if rows[i].length.Some? {
          total := total + rows[i].length.value;
        }
        j, written := JoinRow(rows, i, backrefs, stamp, world, j, was, written, i + 1);
        i := i + 1;
      }
    }

    /** One pass beside other writers. Whatever fails, the index ends as theirs with the pass's
        entries written in between, and it writes only rows that had no back-reference in its
        snapshot; a pass that leaves the retry flag down has written all of those; and the
        counter becomes the sum of the rows exactly when the whole scan was read. */
    method ReconcileFromMetadata(rows: seq<MetaRow>, backrefs: seq<Key>, capped: bool, stamp: int, world: World)
      returns (finished: bool, ghost written: map<Key, nat>, ghost moments: nat)
      requires InOrder(rows) && Ascending(backrefs) && forall k :: k in backrefs <==> k in index
      modifies this
      ensures index == IndexAt(old(index), world.others, written, stamp, moments)
      ensures forall k :: k in written ==> written[k] < moments && k !in old(index) && RowKey(rows, |rows|, k)
      ensures !capped ==> written == map[] && backfillPending == old(backfillPending)
      ensures capped && finished && !backfillPending ==> forall k :: k in written <==> RowKey(rows, |rows|, k) && k !in old(index)
      ensures capped && finished && world.backrefFailsAt.None? && (forall n: nat :: !world.writeFails(n)) ==> !backfillPending
      ensures capped && !finished && (forall i :: 0 <= i < |rows| ==> !world.closed(i)) ==> backfillPending
      ensures totalSize == if finished then TotalSize(rows) else old(totalSize)
      ensures finished <==> world.metaFailsAt != Some(|rows|) &&
                            forall i :: 0 <= i < |rows| ==> !world.closed(i) && world.metaFailsAt != Some(i)
    {
      hide Ledger, StagedOk, CoveredSoFar, Behind, IndexAt, Changed, RowKey;
      ghost var was := index;
      var tracked := totalSize;
      var i, total, j, stopped;
      i, total, j, stopped, written := Scan(rows, backrefs, capped, stamp, world);
      OthersAct(was, world.others, written, stamp, i, index, rows, i);
      index := Changed(index, world.others(i));
      var failed;
      failed, written := Flush(j.batch, stamp, world.writeFails(j.commits), was, world.others, written, i + 1, rows, i);
      moments := i + 1;
      Widen(was, world.others, written, stamp, moments, index, rows, i);
      finished := !stopped && world.metaFailsAt != Some(i);
      if !finished {
        if capped && !stopped {
          backfillPending := true;
        }
        return;
      }
      if capped {
        backfillPending := j.lost || failed || j.broken || j.cursor.failsAt == Some(j.cursor.at);
        if !backfillPending {
          Complete(was, world.others, written, stamp, moments, index, rows);
        }
      }
      assert rows[..i] == rows;
      totalSize := totalSize + (total - tracked);
    }
  }
}
