/** Adding up the lengths of rows: what a pass that removes rows subtracts is what the sum of all
    lengths loses, so a counter that was true stays true. */
module Tally {
  import opened Rows
  import Accounting

  /** Rows by key; `None` is a row that does not decode, and counts for nothing. */
  type Table = map<Key, Option<ValueMessage>>

  function Length(row: Option<ValueMessage>): int {
    if row.Some? then row.value.valueLength else 0
  }

  /** The lengths of the rows of `ks`, one after the other. */
  function TotalLength(rows: Table, ks: seq<Key>): int {
    if ks == [] then 0
    else TotalLength(rows, ks[..|ks| - 1]) + (if ks[|ks| - 1] in rows then Length(rows[ks[|ks| - 1]]) else 0)
  }

  lemma {:induction false} TotalLengthAppend(rows: Table, a: seq<Key>, b: seq<Key>)
    ensures TotalLength(rows, a + b) == TotalLength(rows, a) + TotalLength(rows, b)
  {
    if b == [] {
      assert a + b == a;
    } else {
      assert (a + b)[..|a + b| - 1] == a + b[..|b| - 1];
      TotalLengthAppend(rows, a, b[..|b| - 1]);
    }
  }

  ghost predicate Distinct(ks: seq<Key>) {
    forall i, j :: 0 <= i < j < |ks| ==> ks[i] != ks[j]
  }

  function Lengths(rows: Table): map<Key, int> {
    map k | k in rows :: Length(rows[k])
  }

  /** The live bytes of a store. */
  ghost function LiveBytes(rows: Table): int {
    Accounting.Sum(Lengths(rows))
  }

  lemma LiveBytesWithout(rows: Table, k: Key)
    requires k in rows
    ensures LiveBytes(rows) == Length(rows[k]) + LiveBytes(rows - {k})
  {
    Accounting.SumWithout(Lengths(rows), k);
    assert Lengths(rows) - {k} == Lengths(rows - {k});
  }

  /** Removing distinct rows takes exactly their lengths off the live bytes. */
  lemma {:induction false} RemovedBytes(rows: Table, ks: seq<Key>)
    requires Distinct(ks) && forall k :: k in ks ==> k in rows
    ensures LiveBytes(rows - (set k | k in ks)) == LiveBytes(rows) - TotalLength(rows, ks)
  {
    if ks == [] {
      assert rows - (set k | k in ks) == rows;
    } else {
      var init, last := ks[..|ks| - 1], ks[|ks| - 1];
      RemovedBytes(rows, init);
      assert last !in init;
      LiveBytesWithout(rows - (set k | k in init), last);
      assert rows - (set k | k in init) - {last} == rows - (set k | k in ks);
    }
  }

  /** Rows that do not decode can go without changing the live bytes. */
  lemma {:induction false} UndecodedCountNothing(rows: Table, gone: set<Key>)
    requires forall k :: k in gone ==> k in rows && rows[k].None?
    ensures LiveBytes(rows - gone) == LiveBytes(rows)
  {
    if gone == {} {
      assert rows - gone == rows;
    } else {
      var k :| k in gone;
      UndecodedCountNothing(rows, gone - {k});
      LiveBytesWithout(rows - (gone - {k}), k);
      assert rows - (gone - {k}) - {k} == rows - gone;
    }
  }
}
