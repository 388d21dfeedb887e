/** Listing one node's keys, page by page (storage/storage.go, server/operations/list.go). */
module Listing {
  import opened Rows
  import opened Order

  /** What listing sees of a metadata row; a row that does not parse has no expiry. */
  datatype Row = Row(key: Key, expiry: Option<int>)

  const MAX_LIST_LIMIT := 1000

  predicate Expired(r: Row, now: int) {
    r.expiry.Some? && r.expiry.value > 0 && now >= r.expiry.value
  }

  /** The store as its iterator walks it. */
  predicate InOrder(rows: seq<Row>) {
    forall i, j :: 0 <= i < j < |rows| ==> Less(rows[i].key, rows[j].key)
  }

  predicate Wanted(r: Row, prefix: Key, start: Key, now: int) {
    Under(prefix, r.key) && (start == "" || Less(start, r.key)) && !Expired(r, now)
  }

  /** The unexpired keys under `prefix` after `start`, in order. */
  function Live(rows: seq<Row>, prefix: Key, start: Key, now: int): seq<Key> {
    if rows == [] then []
    else (if Wanted(rows[0], prefix, start, now) then [rows[0].key] else []) + Live(rows[1..], prefix, start, now)
  }

  function Take<T>(s: seq<T>, limit: int): seq<T> {
    if 0 < limit < |s| then s[..limit] else s
  }

  /** A start key before the prefix with a row in between: iteration stops at that row. */
  predicate Blocked(rows: seq<Row>, prefix: Key, start: Key) {
    start != "" && exists i :: 0 <= i < |rows| && Less(start, rows[i].key) && Less(rows[i].key, prefix)
  }

  lemma {:induction false} LiveAppend(a: seq<Row>, b: seq<Row>, prefix: Key, start: Key, now: int)
    ensures Live(a + b, prefix, start, now) == Live(a, prefix, start, now) + Live(b, prefix, start, now)
  {
    if a == [] {
      assert a + b == b;
    } else {
      assert (a + b)[1..] == a[1..] + b;
      LiveAppend(a[1..], b, prefix, start, now);
    }
  }

  lemma {:induction false} LiveEmpty(rows: seq<Row>, prefix: Key, start: Key, now: int)
    requires forall i :: 0 <= i < |rows| ==> !Wanted(rows[i], prefix, start, now)
    ensures Live(rows, prefix, start, now) == []
  {
    if rows != [] {
      LiveEmpty(rows[1..], prefix, start, now);
    }
  }

  lemma {:induction false} LiveMember(rows: seq<Row>, prefix: Key, start: Key, now: int, k: Key)
    ensures k in Live(rows, prefix, start, now) <==>
            exists i :: 0 <= i < |rows| && rows[i].key == k && Wanted(rows[i], prefix, start, now)
  {
    if rows != [] {
      LiveMember(rows[1..], prefix, start, now, k);
      if exists i :: 0 <= i < |rows| && rows[i].key == k && Wanted(rows[i], prefix, start, now) {
        var i :| 0 <= i < |rows| && rows[i].key == k && Wanted(rows[i], prefix, start, now);
        assert i > 0 ==> rows[1..][i - 1] == rows[i];
      }
      if k in Live(rows[1..], prefix, start, now) {
        var i :| 0 <= i < |rows[1..]| && rows[1..][i].key == k && Wanted(rows[1..][i], prefix, start, now);
        assert rows[i + 1] == rows[1..][i];
      }
    }
  }

  /** Listed are exactly the keys of rows that begin with the prefix, come after the start key, and
      have no expiry, or one still ahead; a row that does not parse is listed. */
  lemma {:induction false} ListedExactly(rows: seq<Row>, prefix: Key, start: Key, now: int, k: Key)
    ensures k in Live(rows, prefix, start, now) <==>
            && prefix <= k && (start == "" || Less(start, k))
            && exists i :: 0 <= i < |rows| && rows[i].key == k &&
                           (rows[i].expiry.None? || rows[i].expiry.value <= 0 || now < rows[i].expiry.value)
  {
    LiveMember(rows, prefix, start, now, k);
    assert Under(prefix, k) <==> prefix <= k;
    if i :| 0 <= i < |rows| && rows[i].key == k && (rows[i].expiry.None? || rows[i].expiry.value <= 0 || now < rows[i].expiry.value) {
      assert prefix <= k && (start == "" || Less(start, k)) ==> Wanted(rows[i], prefix, start, now);
    }
  }

  lemma {:induction false} LiveAscends(rows: seq<Row>, prefix: Key, start: Key, now: int)
    requires InOrder(rows)
    ensures Ascending(Live(rows, prefix, start, now))
  {
    if rows != [] {
      LiveAscends(rows[1..], prefix, start, now);
      var rest := Live(rows[1..], prefix, start, now);
      forall j | 0 <= j < |rest| ensures Less(rows[0].key, rest[j]) {
        LiveMember(rows[1..], prefix, start, now, rest[j]);
      }
    }
  }

  /** The first row at or after `key`. */
  method Seek(rows: seq<Row>, key: Key) returns (i: nat)
    requires InOrder(rows)
    ensures i <= |rows|
    ensures forall j :: 0 <= j < i ==> Less(rows[j].key, key)
    ensures forall j :: i <= j < |rows| ==> !Less(rows[j].key, key)
  {
    i := 0;
    while i < |rows| && Less(rows[i].key, key)
      invariant i <= |rows|
      invariant forall j :: 0 <= j < i ==> Less(rows[j].key, key)
    {
      i := i + 1;
    }
    forall j | i <= j < |rows| ensures !Less(rows[j].key, key) {
      if Less(rows[j].key, key) && j != i {
        LessTransitive(rows[i].key, rows[j].key, key);
      }
    }
  }

  /** Where iteration begins: everything before is unwanted, everything from here is past `start`. */
  method Begin(rows: seq<Row>, prefix: Key, start: Key) returns (i: nat)
    requires InOrder(rows)
    ensures i <= |rows|
    ensures start != "" ==> forall j :: 0 <= j < i ==> !Less(start, rows[j].key)
    ensures start != "" ==> forall j :: i <= j < |rows| ==> Less(start, rows[j].key)
    ensures start == "" ==> forall j :: 0 <= j < i ==> Less(rows[j].key, prefix)
    ensures start == "" ==> forall j :: i <= j < |rows| ==> !Less(rows[j].key, prefix)
  {
    i := Seek(rows, if start != "" then start else prefix);
    if start != "" {
      if i < |rows| && rows[i].key == start {
        i := i + 1;
      }
      forall j | 0 <= j < i ensures !Less(start, rows[j].key) {
        if Less(start, rows[j].key) {
          LessAsymmetric(start, rows[j].key);
        }
      }
      forall j | i <= j < |rows| ensures Less(start, rows[j].key) {
        LessTotal(start, rows[j].key);
      }
    }
  }

  /** The stretch under the prefix has ended: nothing wanted is left, unless it never began. */
  lemma {:induction false} StretchEnds(rows: seq<Row>, prefix: Key, start: Key, now: int, i: nat)
    requires InOrder(rows) && i < |rows| && !Under(prefix, rows[i].key) && !Less(rows[i].key, prefix)
    ensures Live(rows[i..], prefix, start, now) == []
  {
    forall j | 0 <= j < |rows[i..]| ensures !Wanted(rows[i..][j], prefix, start, now) {
      if Under(prefix, rows[i + j].key) {
        PrefixStretch(prefix, rows[i + j].key, rows[i].key);
        LessAsymmetric(rows[i + j].key, rows[i].key);
      }
    }
    LiveEmpty(rows[i..], prefix, start, now);
  }

  lemma {:induction false} BeginSkipsNothing(rows: seq<Row>, prefix: Key, start: Key, now: int, i: nat)
    requires InOrder(rows) && i <= |rows|
    requires start != "" ==> forall j :: 0 <= j < i ==> !Less(start, rows[j].key)
    requires start == "" ==> forall j :: 0 <= j < i ==> Less(rows[j].key, prefix)
    ensures Live(rows, prefix, start, now) == Live(rows[i..], prefix, start, now)
  {
    forall j | 0 <= j < i ensures !Wanted(rows[j], prefix, start, now) {
      if Under(prefix, rows[j].key) {
        PrefixFirst(prefix, rows[j].key);
      }
    }
    LiveEmpty(rows[..i], prefix, start, now);
    LiveAppend(rows[..i], rows[i..], prefix, start, now);
    assert rows[..i] + rows[i..] == rows;
  }

  /** Having begun at `begin` and walked the stretch up to `i`, either the walk
      stopped inside the stretch, or nothing wanted remains, or it was blocked from
      the start. */
  lemma {:induction false} WhereItStops(rows: seq<Row>, prefix: Key, start: Key, now: int, begin: nat, i: nat)
    requires InOrder(rows) && begin <= i <= |rows|
    requires start != "" ==> forall j :: 0 <= j < begin ==> !Less(start, rows[j].key)
    requires start != "" ==> forall j :: begin <= j < |rows| ==> Less(start, rows[j].key)
    requires start == "" ==> forall j :: begin <= j < |rows| ==> !Less(rows[j].key, prefix)
    requires forall j :: begin <= j < i ==> Under(prefix, rows[j].key)
    ensures Blocked(rows, prefix, start) ==> i == begin < |rows| && !Under(prefix, rows[i].key)
    ensures !Blocked(rows, prefix, start) && (i < |rows| ==> !Under(prefix, rows[i].key)) ==>
              Live(rows[i..], prefix, start, now) == []
  {
    if Blocked(rows, prefix, start) {
      var j :| 0 <= j < |rows| && Less(start, rows[j].key) && Less(rows[j].key, prefix);
      if j > begin {
        LessTransitive(rows[begin].key, rows[j].key, prefix);
      }
      if Under(prefix, rows[begin].key) {
        PrefixFirst(prefix, rows[begin].key);
      }
    } else if i < |rows| && !Under(prefix, rows[i].key) {
      StretchEnds(rows, prefix, start, now, i);
    }
  }

  lemma {:induction false} LiveStep(rows: seq<Row>, prefix: Key, start: Key, now: int, i: nat)
    requires i < |rows| && Under(prefix, rows[i].key) && (start == "" || Less(start, rows[i].key))
    ensures Live(rows[i..], prefix, start, now) ==
            (if Expired(rows[i], now) then [] else [rows[i].key]) + Live(rows[i + 1..], prefix, start, now)
  {
  }

  /** Walks the stretch under the prefix from `begin`, skipping expired rows, until the page is full. */
  method Walk(rows: seq<Row>, prefix: Key, start: Key, limit: int, now: int, begin: nat)
    returns (keys: seq<Key>, i: nat)
    requires begin <= |rows|
    requires start != "" ==> forall j :: begin <= j < |rows| ==> Less(start, rows[j].key)
    ensures begin <= i <= |rows|
    ensures keys + Live(rows[i..], prefix, start, now) == Live(rows[begin..], prefix, start, now)
    ensures forall j :: begin <= j < i ==> Under(prefix, rows[j].key)
    ensures i == begin ==> keys == []
    ensures if i < |rows| && Under(prefix, rows[i].key) then |keys| == limit > 0 else limit > 0 ==> |keys| <= limit
  {
    hide Live, Under, Less;
    keys, i := [], begin;
    while i < |rows| && Under(prefix, rows[i].key) && (limit <= 0 || |keys| < limit)
      invariant begin <= i <= |rows|
      invariant limit > 0 ==> |keys| <= limit
      invariant keys + Live(rows[i..], prefix, start, now) == Live(rows[begin..], prefix, start, now)
      invariant forall j :: begin <= j < i ==> Under(prefix, rows[j].key)
      invariant i == begin ==> keys == []
    {
      LiveStep(rows, prefix, start, now, i);
      ghost var rest := Live(rows[i + 1..], prefix, start, now);
      if !Expired(rows[i], now) {
        assert keys + ([rows[i].key] + rest) == keys + [rows[i].key] + rest;
        keys := keys + [rows[i].key];
      } else {
        assert [] + rest == rest;
      }
      i := i + 1;
    }
  }

  /** What the walk gathered is the page. */
  lemma PageGathered(keys: seq<Key>, rest: seq<Key>, all: seq<Key>, limit: int, more: bool)
    requires keys + rest == all && (if more then |keys| == limit > 0 else limit > 0 ==> |keys| <= limit)
    requires !more ==> rest == []
    ensures keys == Take(all, limit) && (!more ==> keys == all)
  {
  }

  /** One page. It is the first `limit` live keys after `start`, and `hasMore` is
      raised only on a full page, unless the start key lies before the prefix with a
      row in between: then the page is empty and claims to be the last. */
  method ListKeysWithPagination(rows: seq<Row>, prefix: Key, start: Key, limit: int, now: int)
    returns (keys: seq<Key>, lastKey: Key, hasMore: bool)
    requires InOrder(rows)
    ensures Blocked(rows, prefix, start) ==> keys == [] && !hasMore
    ensures !Blocked(rows, prefix, start) ==> keys == Take(Live(rows, prefix, start, now), limit)
    ensures hasMore ==> limit > 0 && |keys| == limit && lastKey == keys[limit - 1]
    ensures !hasMore ==> lastKey == ""
    ensures !hasMore && !Blocked(rows, prefix, start) ==> keys == Live(rows, prefix, start, now)
  {
    hide Live, Under, Less, Blocked, InOrder, Take;
    var begin := Begin(rows, prefix, start);
    var i;
    keys, i := Walk(rows, prefix, start, limit, now, begin);
    BeginSkipsNothing(rows, prefix, start, now, begin);
    WhereItStops(rows, prefix, start, now, begin, i);
    hasMore := i < |rows| && Under(prefix, rows[i].key);
    lastKey := if hasMore then keys[|keys| - 1] else "";
    if !Blocked(rows, prefix, start) {
      PageGathered(keys, Live(rows[i..], prefix, start, now), Live(rows, prefix, start, now), limit, hasMore);
    }
  }

  lemma NeverBlockedInside(rows: seq<Row>, prefix: Key, start: Key)
    requires start == "" || Under(prefix, start)
    ensures !Blocked(rows, prefix, start)
  {
    if Blocked(rows, prefix, start) {
      var j :| 0 <= j < |rows| && Less(start, rows[j].key) && Less(rows[j].key, prefix);
      LessTransitive(start, rows[j].key, prefix);
      PrefixFirst(prefix, start);
    }
  }

  /** A key live later that comes no later than the page's last key is on the page or before it. */
  lemma {:induction false} PageCovers(rows: seq<Row>, prefix: Key, start: Key, now: int, later: int, limit: int, k: Key)
    requires InOrder(rows) && now <= later && 0 < limit <= |Live(rows, prefix, start, now)|
    requires k in Live(rows, prefix, "", later) && (start == "" || Less(start, k))
    requires !Less(Live(rows, prefix, start, now)[limit - 1], k)
    ensures k in Live(rows, prefix, start, now)[..limit]
  {
    var live := Live(rows, prefix, start, now);
    LiveMember(rows, prefix, "", later, k);
    LiveMember(rows, prefix, start, now, k);
    var j :| 0 <= j < |live| && live[j] == k;
    LiveAscends(rows, prefix, start, now);
    assert forall i :: limit <= i < |live| ==> Less(live[limit - 1], live[i]);
  }

  lemma {:induction false} LiveNarrows(rows: seq<Row>, prefix: Key, start: Key, now: int, earlier: int, k: Key)
    requires k in Live(rows, prefix, start, now) && earlier <= now
    ensures k in Live(rows, prefix, "", earlier) && Under(prefix, k) && (start == "" || Less(start, k))
  {
    LiveMember(rows, prefix, start, now, k);
    var i :| 0 <= i < |rows| && rows[i].key == k && Wanted(rows[i], prefix, start, now);
    assert Wanted(rows[i], prefix, "", earlier);
    LiveMember(rows, prefix, "", earlier, k);
  }

  /** What the loop has gathered when it is about to ask for the page after `start`. */
  ghost predicate Gathered(rows: seq<Row>, prefix: Key, start: Key, first: int, now: int, all: seq<Key>) {
    && Ascending(all)
    && (if start == "" then all == [] else all != [] && all[|all| - 1] == start && Under(prefix, start))
    && (forall k :: k in all ==> k in Live(rows, prefix, "", first))
    && (forall k :: k in Live(rows, prefix, "", now) && start != "" && !Less(start, k) ==> k in all)
  }

  lemma {:induction false} PageAscends(rows: seq<Row>, prefix: Key, start: Key, first: int, now: int, all: seq<Key>, keys: seq<Key>)
    requires InOrder(rows) && Gathered(rows, prefix, start, first, now, all) && first <= now
    requires keys <= Live(rows, prefix, start, now)
    ensures Ascending(all + keys) && forall k :: k in all + keys ==> k in Live(rows, prefix, "", first)
  {
    LiveAscends(rows, prefix, start, now);
    forall j | 0 <= j < |keys| ensures keys[j] in Live(rows, prefix, "", first) && (start == "" || Less(start, keys[j])) {
      LiveNarrows(rows, prefix, start, now, first, keys[j]);
    }
    forall i, j | 0 <= i < |all| && 0 <= j < |keys| ensures Less(all[i], keys[j]) {
      if i < |all| - 1 {
        LessTransitive(all[i], start, keys[j]);
      }
    }
    AscendingAppend(all, keys);
  }

  lemma {:induction false} PageAdvances(rows: seq<Row>, prefix: Key, start: Key, first: int, now: int, later: int,
                                        all: seq<Key>, keys: seq<Key>)
    requires InOrder(rows) && Gathered(rows, prefix, start, first, now, all) && first <= now <= later
    requires |keys| == MAX_LIST_LIMIT && keys <= Live(rows, prefix, start, now)
    ensures Gathered(rows, prefix, keys[|keys| - 1], first, later, all + keys)
  {
    var last := keys[|keys| - 1];
    PageAscends(rows, prefix, start, first, now, all, keys);
    LiveNarrows(rows, prefix, start, now, first, last);
    assert Less((all + keys)[|all|], (all + keys)[|all + keys| - 1]);
    forall k | k in Live(rows, prefix, "", later) && !Less(last, k) ensures k in all + keys {
      if start != "" && !Less(start, k) {
        LiveNarrows(rows, prefix, "", later, now, k);
      } else {
        PageCovers(rows, prefix, start, now, later, |keys|, k);
      }
    }
  }

  lemma {:induction false} PageCompletes(rows: seq<Row>, prefix: Key, start: Key, first: int, now: int, all: seq<Key>)
    requires InOrder(rows) && Gathered(rows, prefix, start, first, now, all) && first <= now
    ensures forall k :: k in Live(rows, prefix, "", now) ==> k in all + Live(rows, prefix, start, now)
  {
    forall k | k in Live(rows, prefix, "", now) ensures k in all + Live(rows, prefix, start, now) {
      LiveMember(rows, prefix, "", now, k);
      LiveMember(rows, prefix, start, now, k);
    }
  }

  /** The position of a listed key in the store. */
  lemma RowOf(rows: seq<Row>, prefix: Key, start: Key, now: int, k: Key) returns (i: nat)
    requires k in Live(rows, prefix, start, now)
    ensures i < |rows| && rows[i].key == k
  {
    LiveMember(rows, prefix, start, now, k);
    i :| 0 <= i < |rows| && rows[i].key == k && Wanted(rows[i], prefix, start, now);
  }

  lemma NothingGathered(rows: seq<Row>, prefix: Key, first: int, now: int)
    ensures Gathered(rows, prefix, "", first, now, [])
  {
  }

  lemma GatheredInside(rows: seq<Row>, prefix: Key, start: Key, first: int, now: int, all: seq<Key>)
    requires Gathered(rows, prefix, start, first, now, all)
    ensures start == "" || Under(prefix, start)
  {
  }

  /** A full page ends in a key with a name: something comes before it. */
  lemma {:induction false} LastIsNamed(rows: seq<Row>, prefix: Key, start: Key, now: int, keys: seq<Key>)
    requires InOrder(rows) && |keys| == MAX_LIST_LIMIT && keys <= Live(rows, prefix, start, now)
    ensures keys[|keys| - 1] != ""
  {
    LiveAscends(rows, prefix, start, now);
    assert Less(keys[0], keys[|keys| - 1]);
  }

  lemma LaterRow(rows: seq<Row>, i: nat, j: nat)
    requires InOrder(rows) && i < |rows| && j < |rows| && Less(rows[i].key, rows[j].key)
    ensures i < j
  {
    if j == i {
      LessIrreflexive(rows[i].key);
    } else if j < i {
      LessAsymmetric(rows[j].key, rows[i].key);
    }
  }

  /** Listing everything, page after page; page `i` reads the clock as `clock(i)`.
      Every key unexpired at the end is listed, nothing is listed that was not there
      unexpired at the beginning, each key once and in order; with the clock standing
      still the list is exactly the live keys. The loop ends. */
  method List(rows: seq<Row>, prefix: Key, clock: nat -> int) returns (all: seq<Key>, pages: nat)
    requires InOrder(rows) && forall i: nat, j: nat :: i <= j ==> clock(i) <= clock(j)
    ensures Ascending(all)
    ensures forall k :: k in all ==> k in Live(rows, prefix, "", clock(0))
    ensures forall k :: k in Live(rows, prefix, "", clock(pages)) ==> k in all
    ensures clock(pages) == clock(0) ==> all == Live(rows, prefix, "", clock(0))
  {
    hide Gathered, Live, Less, Blocked, Ascending, InOrder;
    all, pages := [], 0;
    var start := "";
    ghost var at := -1;
    NothingGathered(rows, prefix, clock(0), clock(0));
    while true
      invariant Gathered(rows, prefix, start, clock(0), clock(pages), all)
      invariant -1 <= at < |rows| && (start == "" ==> at == -1) && (start != "" ==> at >= 0 && rows[at].key == start)
      decreases |rows| - at
    {
      GatheredInside(rows, prefix, start, clock(0), clock(pages), all);
      NeverBlockedInside(rows, prefix, start);
      var keys, next, hasMore := ListKeysWithPagination(rows, prefix, start, MAX_LIST_LIMIT, clock(pages));
      PageAscends(rows, prefix, start, clock(0), clock(pages), all, keys);
      if !hasMore || next == "" {
        if hasMore {
          LastIsNamed(rows, prefix, start, clock(pages), keys);
        }
        PageCompletes(rows, prefix, start, clock(0), clock(pages), all);
        all := all + keys;
        break;
      }
      PageAdvances(rows, prefix, start, clock(0), clock(pages), clock(pages + 1), all, keys);
      LiveNarrows(rows, prefix, start, clock(pages), clock(0), next);
      ghost var at' := RowOf(rows, prefix, start, clock(pages), next);
      if start != "" {
        LaterRow(rows, at, at');
      }
      at := at';
      all, start, pages := all + keys, next, pages + 1;
    }
    if clock(pages) == clock(0) {
      LiveAscends(rows, prefix, "", clock(0));
      AscendingUnique(all, Live(rows, prefix, "", clock(0)));
    }
  }

  /** A start key outside the prefix can hide every key under it. */
  lemma BlockedHidesKeys()
    ensures var rows := [Row("a", None), Row("b", None)];
            InOrder(rows) && Blocked(rows, "b", "0") && Live(rows, "b", "0", 0) == ["b"]
  {
    var rows := [Row("a", None), Row("b", None)];
    assert rows[1..] == [Row("b", None)] && rows[1..][1..] == [];
    assert Less("0", rows[0].key) && Less(rows[0].key, "b");
  }
}
