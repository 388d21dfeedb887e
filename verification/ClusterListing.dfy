/** Listing across the cluster: what a merged page is of the nodes' true contents,
    and what a sequence of pages adds up to (server/operations/list.go). */
module ClusterListing {
  import opened Rows
  import opened Order
  import opened Listing
  import opened KWayMerge

  /** The live keys of each node under the prefix, in order. */
  type Contents = map<NodeId, seq<Key>>

  type Cursors = map<NodeId, Key>

  datatype Page = Page(keys: seq<Key>, cursors: Cursors, hasMore: bool)

  ghost predicate Disjoint(c: Contents) {
    forall id, other, k :: id in c && other in c && k in c[id] && k in c[other] ==> id == other
  }

  /** Where a node is asked to go on; no cursor, or an empty one, means from the start. */
  function StartKey(cursors: Cursors, id: NodeId): Key {
    if id in cursors then cursors[id] else ""
  }

  predicate PastCursor(cursors: Cursors, id: NodeId, k: Key) {
    StartKey(cursors, id) == "" || Less(StartKey(cursors, id), k)
  }

  /** Some node holds `k` past its cursor. */
  predicate Pending(c: Contents, cursors: Cursors, k: Key) {
    exists id :: id in c && k in c[id] && PastCursor(cursors, id, k)
  }

  // ---- One page ----

  /** A response is the true contents past the cursor, cut off only when full. */
  ghost predicate Truthful(r: NodeResponse, ks: seq<Key>, cursors: Cursors, id: NodeId, limit: nat) {
    var sent := ItemKeys(r);
    && Ascending(sent)
    && (forall k :: k in sent ==> k in ks && PastCursor(cursors, id, k))
    && (forall k :: k in ks && PastCursor(cursors, id, k) && k !in sent ==> r.hasMore && forall j :: j in sent ==> Less(j, k))
    && (r.hasMore ==> |sent| >= limit && sent != [] && r.token == sent[|sent| - 1])
  }

  ghost predicate AllTruthful(rs: Responses, c: Contents, cursors: Cursors, limit: nat) {
    rs.Keys == c.Keys && forall id :: id in c ==> Truthful(rs[id], c[id], cursors, id, limit)
  }

  lemma SentIsPending(rs: Responses, c: Contents, cursors: Cursors, limit: nat, k: Key)
    requires AllTruthful(rs, c, cursors, limit) && Sent(rs, k)
    ensures Pending(c, cursors, k)
  {
    var id :| id in rs && Holds(rs[id], k);
    var i :| 0 <= i < ItemCount(rs[id]) && KeyAt(rs[id], i) == k;
    assert ItemKeys(rs[id])[i] == k;
  }

  lemma KeysAreSent(rs: Responses, c: Contents, cursors: Cursors, limit: nat, id: NodeId, k: Key)
    requires AllTruthful(rs, c, cursors, limit) && id in rs && k in ItemKeys(rs[id])
    ensures Sent(rs, k)
  {
  }

  /** A key no node has sent yet comes after a full page. */
  lemma {:induction false} UnsentComesLater(rs: Responses, c: Contents, cursors: Cursors, limit: nat, keys: seq<Key>, id: NodeId, k: Key)
    requires AllTruthful(rs, c, cursors, limit) && FirstKeys(keys, j => Sent(rs, j), limit)
    requires id in c && k in c[id] && PastCursor(cursors, id, k) && k !in ItemKeys(rs[id])
    ensures |keys| == limit && forall j :: j in keys ==> Less(j, k)
  {
    var sent := ItemKeys(rs[id]);
    assert Truthful(rs[id], c[id], cursors, id, limit);
    forall x | x in sent ensures Sent(rs, x) {
      KeysAreSent(rs, c, cursors, limit, id, x);
    }
    if x :| x in sent && x !in keys {
      forall j | j in keys ensures Less(j, k) {
        LessTransitive(j, x, k);
      }
    } else {
      AscendingSubset(sent, keys);
    }
  }

  /** The merged page is exactly the first `limit` distinct keys of everything pending,
      sent or not. */
  lemma PageIsFirstPending(rs: Responses, c: Contents, cursors: Cursors, limit: nat, keys: seq<Key>)
    requires AllTruthful(rs, c, cursors, limit) && FirstKeys(keys, k => Sent(rs, k), limit)
    ensures FirstKeys(keys, k => Pending(c, cursors, k), limit)
  {
    forall k | k in keys ensures Pending(c, cursors, k) {
      SentIsPending(rs, c, cursors, limit, k);
    }
    forall k | Pending(c, cursors, k) && k !in keys ensures |keys| == limit && forall j :: j in keys ==> Less(j, k) {
      var id :| id in c && k in c[id] && PastCursor(cursors, id, k);
      if k in ItemKeys(rs[id]) {
        KeysAreSent(rs, c, cursors, limit, id, k);
      } else {
        UnsentComesLater(rs, c, cursors, limit, keys, id, k);
      }
    }
  }

  lemma DrainedMeansTaken(rs: Responses, popped: Popped, id: NodeId, k: Key)
    requires Within(rs, popped) && Drained(rs, popped) && id in rs && k in ItemKeys(rs[id])
    ensures Taken(rs, popped, k)
  {
    assert !Waiting(rs, popped, id);
    var i :| 0 <= i < |ItemKeys(rs[id])| && ItemKeys(rs[id])[i] == k;
    assert KeyAt(rs[id], i) == k;
    assert Before(rs[id], popped[id], k);
  }

  /** `hasMore` is raised only on a full page, and lowered only when nothing is left. */
  lemma MoreIsHonest(rs: Responses, c: Contents, cursors: Cursors, limit: nat, keys: seq<Key>, hasMore: bool, popped: Popped)
    requires AllTruthful(rs, c, cursors, limit) && FirstKeys(keys, k => Sent(rs, k), limit)
    requires Within(rs, popped) && (forall k :: k in keys <==> Taken(rs, popped, k))
    requires hasMore <==> !Drained(rs, popped) || exists id :: id in rs && rs[id].hasMore
    requires |keys| < limit ==> Drained(rs, popped)
    ensures hasMore ==> |keys| == limit
    ensures !hasMore ==> forall k :: Pending(c, cursors, k) ==> k in keys
  {
    if hasMore && |keys| < limit {
      var id :| id in rs && rs[id].hasMore;
      assert Truthful(rs[id], c[id], cursors, id, limit);
      forall k | k in ItemKeys(rs[id]) ensures k in keys {
        DrainedMeansTaken(rs, popped, id, k);
      }
      AscendingSubset(ItemKeys(rs[id]), keys);
    }
    if !hasMore {
      forall k | Pending(c, cursors, k) ensures k in keys {
        var id :| id in c && k in c[id] && PastCursor(cursors, id, k);
        assert Truthful(rs[id], c[id], cursors, id, limit);
        DrainedMeansTaken(rs, popped, id, k);
      }
    }
  }

  /** The page delivered `k` and `k` is this node's. */
  predicate From(c: Contents, keys: seq<Key>, id: NodeId, k: Key) {
    id in c && k in keys && k in c[id]
  }

  /** A cursor for exactly the nodes the page took keys from, at the last of them. */
  ghost predicate NextCursors(c: Contents, keys: seq<Key>, cursors: Cursors) {
    && (forall id :: id in cursors <==> exists k :: From(c, keys, id, k))
    && (forall id :: id in cursors ==> From(c, keys, id, cursors[id]) && forall k :: From(c, keys, id, k) ==> !Less(cursors[id], k))
  }

  lemma TakenFromOwner(rs: Responses, c: Contents, cursors: Cursors, limit: nat, keys: seq<Key>, popped: Popped, id: NodeId, k: Key)
    requires AllTruthful(rs, c, cursors, limit) && Disjoint(c) && Within(rs, popped)
    requires (forall k :: k in keys <==> Taken(rs, popped, k)) && From(c, keys, id, k)
    ensures Before(rs[id], popped[id], k)
  {
    var owner :| owner in rs && Before(rs[owner], popped[owner], k);
    var i :| 0 <= i < popped[owner] && i < ItemCount(rs[owner]) && KeyAt(rs[owner], i) == k;
    assert Truthful(rs[owner], c[owner], cursors, owner, limit);
    assert ItemKeys(rs[owner])[i] == k;
  }

  lemma CursorOfNode(rs: Responses, c: Contents, before: Cursors, limit: nat, keys: seq<Key>, popped: Popped, after: Cursors, id: NodeId)
    requires AllTruthful(rs, c, before, limit) && Disjoint(c) && Within(rs, popped) && id in rs
    requires (forall k :: k in keys <==> Taken(rs, popped, k)) && FinalCursors(rs, popped, after)
    ensures id in after <==> popped[id] > 0
    ensures id in after ==> after[id] == KeyAt(rs[id], popped[id] - 1) && From(c, keys, id, after[id])
  {
    var r := rs[id];
    assert Truthful(r, c[id], before, id, limit);
    assert Drained(rs, popped) ==> !Waiting(rs, popped, id);
    if popped[id] > 0 {
      var last := KeyAt(r, popped[id] - 1);
      assert ItemKeys(r)[popped[id] - 1] == last;
      assert Before(r, popped[id], last);
      assert Taken(rs, popped, last);
    }
  }

  lemma {:induction false} CursorIsLast(rs: Responses, c: Contents, before: Cursors, limit: nat, keys: seq<Key>,
                                        popped: Popped, after: Cursors,
                                        id: NodeId, k: Key)
    requires AllTruthful(rs, c, before, limit) && Disjoint(c) && Within(rs, popped)
    requires (forall k :: k in keys <==> Taken(rs, popped, k)) && FinalCursors(rs, popped, after) && From(c, keys, id, k)
    ensures id in after && !Less(after[id], k)
  {
    hide FinalCursors, Taken, Disjoint;
    TakenFromOwner(rs, c, before, limit, keys, popped, id, k);
    CursorOfNode(rs, c, before, limit, keys, popped, after, id);
    var i :| 0 <= i < popped[id] && i < ItemCount(rs[id]) && KeyAt(rs[id], i) == k;
    assert Truthful(rs[id], c[id], before, id, limit);
    LessIrreflexive(k);
    if i < popped[id] - 1 {
      assert ItemKeys(rs[id])[i] == k && ItemKeys(rs[id])[popped[id] - 1] == after[id];
      LessAsymmetric(k, after[id]);
    }
  }

  lemma CursorsAreNext(rs: Responses, c: Contents, before: Cursors, limit: nat, keys: seq<Key>, popped: Popped, after: Cursors)
    requires AllTruthful(rs, c, before, limit) && Disjoint(c) && Within(rs, popped)
    requires (forall k :: k in keys <==> Taken(rs, popped, k)) && FinalCursors(rs, popped, after)
    ensures NextCursors(c, keys, after)
  {
    hide AllTruthful, Disjoint, Taken, Less;
    forall id, k | From(c, keys, id, k) ensures id in after && !Less(after[id], k) {
      CursorIsLast(rs, c, before, limit, keys, popped, after, id, k);
    }
    forall id | id in after ensures From(c, keys, id, after[id]) {
      CursorOfNode(rs, c, before, limit, keys, popped, after, id);
    }
  }

  /** What one cluster-wide page is, of contents `c` read past `before`. */
  ghost predicate IsPage(c: Contents, limit: nat, before: Cursors, page: Page) {
    && FirstKeys(page.keys, k => Pending(c, before, k), limit)
    && (page.hasMore ==> |page.keys| == limit)
    && (!page.hasMore ==> forall k :: Pending(c, before, k) ==> k in page.keys)
    && (Disjoint(c) ==> NextCursors(c, page.keys, page.cursors))
  }

  lemma MergeIsPage(rs: Responses, c: Contents, before: Cursors, limit: nat, page: Page, popped: Popped)
    requires AllTruthful(rs, c, before, limit) && FirstKeys(page.keys, k => Sent(rs, k), limit)
    requires Within(rs, popped) && (forall k :: k in page.keys <==> Taken(rs, popped, k))
    requires page.hasMore <==> !Drained(rs, popped) || exists id :: id in rs && rs[id].hasMore
    requires |page.keys| < limit ==> Drained(rs, popped)
    requires FinalCursors(rs, popped, page.cursors)
    ensures IsPage(c, limit, before, page)
  {
    PageIsFirstPending(rs, c, before, limit, page.keys);
    MoreIsHonest(rs, c, before, limit, page.keys, page.hasMore, popped);
    if Disjoint(c) {
      CursorsAreNext(rs, c, before, limit, page.keys, popped, page.cursors);
    }
  }

  /** What the nodes that answer hold. */
  function ContentsOf(stores: map<NodeId, seq<Row>>, up: set<NodeId>, prefix: Key, now: int): Contents {
    map id | id in stores && id in up :: Live(stores[id], prefix, "", now)
  }

  lemma {:induction false} LocalIsTruthful(rows: seq<Row>, prefix: Key, now: int, cursors: Cursors, id: NodeId, limit: nat,
                                           keys: seq<Key>, hasMore: bool, r: NodeResponse)
    requires InOrder(rows) && 0 < limit && keys == Take(Live(rows, prefix, StartKey(cursors, id), now), limit)
    requires hasMore ==> |keys| == limit && r.token == keys[limit - 1]
    requires !hasMore ==> keys == Live(rows, prefix, StartKey(cursors, id), now)
    requires ItemKeys(r) == keys && r.hasMore == hasMore
    ensures Truthful(r, Live(rows, prefix, "", now), cursors, id, limit)
  {
    var start := StartKey(cursors, id);
    var rest := Live(rows, prefix, start, now);
    LiveAscends(rows, prefix, start, now);
    forall k | k in keys ensures k in Live(rows, prefix, "", now) && PastCursor(cursors, id, k) {
      LiveNarrows(rows, prefix, start, now, now, k);
    }
    forall k | k in Live(rows, prefix, "", now) && PastCursor(cursors, id, k) && k !in keys
      ensures hasMore && forall j :: j in keys ==> Less(j, k)
    {
      LiveMember(rows, prefix, "", now, k);
      LiveMember(rows, prefix, start, now, k);
      var i :| 0 <= i < |rest| && rest[i] == k;
    }
  }

  predicate Unblocked(stores: map<NodeId, seq<Row>>, prefix: Key, cursors: Cursors) {
    forall id :: id in stores ==> !Blocked(stores[id], prefix, StartKey(cursors, id))
  }

  /** What each node reads as the value of a key. */
  type Values = (NodeId, Key) -> Bytes

  /** A response in the mode asked for, its entries holding the node's own values. */
  predicate InMode(r: NodeResponse, id: NodeId, withValues: bool, values: Values) {
    if withValues then r.keys == [] && forall e :: e in r.entries ==> e.value == values(id, e.key)
    else r.entries == []
  }

  /** The page of one node as the response it sends. */
  function ResponseOf(keys: seq<Key>, token: Key, hasMore: bool, id: NodeId, withValues: bool, values: Values): NodeResponse {
    if withValues
    then NodeResponse([], seq(|keys|, i requires 0 <= i < |keys| => KeyValue(keys[i], values(id, keys[i]))), token, hasMore)
    else NodeResponse(keys, [], token, hasMore)
  }

  lemma ResponseCarries(keys: seq<Key>, token: Key, hasMore: bool, id: NodeId, withValues: bool, values: Values)
    ensures var r := ResponseOf(keys, token, hasMore, id, withValues, values);
            ItemKeys(r) == keys && InMode(r, id, withValues, values)
  {
  }

  /** Asks one node for its page. */
  method FetchFromNode(rows: seq<Row>, prefix: Key, limit: nat, now: int, cursors: Cursors, id: NodeId,
                       withValues: bool, values: Values)
    returns (r: NodeResponse)
    requires 0 < limit && InOrder(rows)
    ensures Ascending(ItemKeys(r)) && InMode(r, id, withValues, values)
    ensures !Blocked(rows, prefix, StartKey(cursors, id)) ==>
              Truthful(r, Live(rows, prefix, "", now), cursors, id, limit)
  {
    var keys, token, hasMore := ListKeysWithPagination(rows, prefix, StartKey(cursors, id), limit, now);
    LiveAscends(rows, prefix, StartKey(cursors, id), now);
    r := ResponseOf(keys, token, hasMore, id, withValues, values);
    ResponseCarries(keys, token, hasMore, id, withValues, values);
    if !Blocked(rows, prefix, StartKey(cursors, id)) {
      LocalIsTruthful(rows, prefix, now, cursors, id, limit, keys, hasMore, r);
    }
  }

  /** Asks every node; one that does not answer is left out. */
  method FetchFromAllNodes(stores: map<NodeId, seq<Row>>, up: set<NodeId>, prefix: Key, limit: nat, now: int, cursors: Cursors,
                           withValues: bool, values: Values)
    returns (rs: Responses)
    requires 0 < limit && forall id :: id in stores ==> InOrder(stores[id])
    ensures forall id :: id in rs <==> id in stores && id in up
    ensures forall id :: id in rs ==> Ascending(ItemKeys(rs[id])) && InMode(rs[id], id, withValues, values)
    ensures Unblocked(stores, prefix, cursors) ==>
              forall id :: id in rs ==> Truthful(rs[id], Live(stores[id], prefix, "", now), cursors, id, limit)
  {
    hide Truthful, InMode, Ascending, ItemKeys;
    rs := map[];
    var todo := stores.Keys;
    while todo != {}
      invariant todo <= stores.Keys
      invariant forall id :: id in rs <==> id in stores && id !in todo && id in up
      invariant forall id :: id in rs ==> Ascending(ItemKeys(rs[id])) && InMode(rs[id], id, withValues, values)
      invariant forall id :: id in rs && !Blocked(stores[id], prefix, StartKey(cursors, id)) ==>
                  Truthful(rs[id], Live(stores[id], prefix, "", now), cursors, id, limit)
      decreases |todo|
    {
      var id :| id in todo;
      if id in up {
        var r := FetchFromNode(stores[id], prefix, limit, now, cursors, id, withValues, values);
        rs := rs[id := r];
      }
      todo := todo - {id};
    }
  }

  /** A continuation token: none, the cursors of an earlier page with its prefix, or, when it
      does not decode, a plain start key. */
  datatype Token = NoToken | Cluster(cursors: Cursors, prefix: Key) | PlainKey(start: Key)

  /** The cursors a token stands for; a token made for another prefix is refused. */
  function CursorsOf(token: Token, prefix: Key, nodes: set<NodeId>): Option<Cursors> {
    match token
    case NoToken => Some(map[])
    case Cluster(cursors, made) => if made == prefix then Some(cursors) else None
    case PlainKey(start) => Some(map id | id in nodes :: start)
  }

  /** Where a listing goes on: without a token, at the beginning; with a plain key, after that key on
      every node; with the token of a page, at that page's own cursors, if the prefix is the same. */
  lemma {:induction false} TokenMeans(token: Token, prefix: Key, c: Contents, k: Key)
    ensures token.NoToken? ==>
              CursorsOf(token, prefix, c.Keys).Some? && (Pending(c, CursorsOf(token, prefix, c.Keys).value, k) <==> Somewhere(c, k))
    ensures token.PlainKey? && token.start != "" ==>
              && CursorsOf(token, prefix, c.Keys).Some?
              && (Pending(c, CursorsOf(token, prefix, c.Keys).value, k) <==> Somewhere(c, k) && Less(token.start, k))
    ensures token.Cluster? ==> CursorsOf(token, prefix, c.Keys) == if token.prefix == prefix then Some(token.cursors) else None
  {
    if id :| id in c && k in c[id] {
      assert token.PlainKey? && token.start != "" && Less(token.start, k) ==>
          PastCursor(CursorsOf(token, prefix, c.Keys).value, id, k);
      assert token.NoToken? ==> PastCursor(CursorsOf(token, prefix, c.Keys).value, id, k);
    }
  }

  datatype Outcome = NoNodes | BadToken | Cancelled | Listed(page: Page, entries: seq<KeyValue>)

  /** Some node that answered holds this value under this key. */
  predicate Vouched(up: set<NodeId>, values: Values, e: KeyValue) {
    exists id :: id in up && e.value == values(id, e.key)
  }

  /** Each entry belongs to the key at its place and holds the value of a node that answered. */
  ghost predicate EntriesTrue(up: set<NodeId>, values: Values, keys: seq<Key>, entries: seq<KeyValue>) {
    && |entries| == |keys|
    && forall i :: 0 <= i < |keys| ==> entries[i].key == keys[i] && Vouched(up, values, entries[i])
  }

  lemma MergedEntriesTrue(rs: Responses, up: set<NodeId>, values: Values, keys: seq<Key>, entries: seq<KeyValue>)
    requires EntriesOk(rs, keys, entries, true) && forall id :: id in rs ==> id in up && InMode(rs[id], id, true, values)
    ensures EntriesTrue(up, values, keys, entries)
  {
  }

  lemma AscendingIsSorted(rs: Responses)
    requires forall id :: id in rs ==> Ascending(ItemKeys(rs[id]))
    ensures AllSorted(rs)
  {
    forall id | id in rs ensures Sorted(rs[id]) {
      forall i, j | 0 <= i < j < ItemCount(rs[id]) ensures Less(KeyAt(rs[id], i), KeyAt(rs[id], j)) {
        assert ItemKeys(rs[id])[i] == KeyAt(rs[id], i) && ItemKeys(rs[id])[j] == KeyAt(rs[id], j);
      }
    }
  }

  /** One page across the cluster, with or without values. It fails without active nodes, on a
      token made for another prefix, and when the context ends before the page is merged. */
  method ListClusterWide(stores: map<NodeId, seq<Row>>, up: set<NodeId>, prefix: Key, limit: nat, now: int, token: Token,
                         withValues: bool, values: Values, cancelled: bool)
    returns (outcome: Outcome)
    requires 0 < limit <= MAX_LIST_LIMIT && forall id :: id in stores ==> InOrder(stores[id])
    ensures outcome.NoNodes? <==> stores.Keys == {}
    ensures outcome.BadToken? <==> stores.Keys != {} && CursorsOf(token, prefix, stores.Keys).None?
    ensures outcome.Cancelled? <==> stores.Keys != {} && CursorsOf(token, prefix, stores.Keys).Some? && cancelled
    ensures outcome.Listed? && Unblocked(stores, prefix, CursorsOf(token, prefix, stores.Keys).value) ==>
              IsPage(ContentsOf(stores, up, prefix, now), limit, CursorsOf(token, prefix, stores.Keys).value, outcome.page)
    ensures outcome.Listed? ==>
              if withValues then EntriesTrue(up, values, outcome.page.keys, outcome.entries) else outcome.entries == []
  {
    hide Truthful, InMode, ItemKeys, IsPage, FirstKeys, EntriesTrue;
    if stores.Keys == {} {
      return NoNodes;
    }
    var parsed := CursorsOf(token, prefix, stores.Keys);
    if parsed.None? {
      return BadToken;
    }
    var cursors := parsed.value;
    var rs := FetchFromAllNodes(stores, up, prefix, limit, now, cursors, withValues, values);
    if cancelled {
      return Cancelled;
    }
    AscendingIsSorted(rs);
    ValuesOnly(rs, withValues, values);
    var keys, entries, after, hasMore;
    ghost var popped;
    keys, entries, after, hasMore, popped := Merge(rs, limit, withValues);
    outcome := Listed(Page(keys, after, hasMore), entries);
    if Unblocked(stores, prefix, cursors) {
      MergeIsPage(rs, ContentsOf(stores, up, prefix, now), cursors, limit, outcome.page, popped);
    }
    if withValues {
      MergedEntriesTrue(rs, up, values, keys, entries);
    }
  }

  lemma ValuesOnly(rs: Responses, withValues: bool, values: Values)
    requires forall id :: id in rs ==> InMode(rs[id], id, withValues, values)
    ensures withValues ==> forall id :: id in rs ==> rs[id].keys == []
  {
  }

  // ---- Page after page ----

  /** The cursors page `i` of a run is read past. */
  function CursorsBefore(pages: seq<Page>, i: nat): Cursors
    requires i <= |pages|
  {
    if i == 0 then map[] else pages[i - 1].cursors
  }

  /** The pages of a run over fixed contents: each is read past the cursors of the one
      before, as long as there is more. */
  ghost predicate IsRun(c: Contents, limit: nat, pages: seq<Page>) {
    forall i :: 0 <= i < |pages| ==>
      IsPage(c, limit, CursorsBefore(pages, i), pages[i]) && (i + 1 < |pages| ==> pages[i].hasMore)
  }

  function Delivered(pages: seq<Page>): seq<Key> {
    if pages == [] then [] else Delivered(pages[..|pages| - 1]) + pages[|pages| - 1].keys
  }

  /** Every node that has delivered so far has a cursor. */
  ghost predicate Covers(c: Contents, delivered: seq<Key>, cursors: Cursors) {
    forall id, k :: From(c, delivered, id, k) ==> id in cursors
  }

  predicate Somewhere(c: Contents, k: Key) {
    exists id :: id in c && k in c[id]
  }

  /** What was delivered is a beginning of the whole list. */
  ghost predicate Beginning(c: Contents, delivered: seq<Key>) {
    && Ascending(delivered) && (forall k :: k in delivered ==> Somewhere(c, k))
    && (forall j, k :: j in delivered && Somewhere(c, k) && k !in delivered ==> Less(j, k))
  }

  /** ... and exactly the rest is pending. */
  ghost predicate Standing(c: Contents, delivered: seq<Key>, cursors: Cursors) {
    && Beginning(c, delivered)
    && (forall k :: Pending(c, cursors, k) <==> Somewhere(c, k) && k !in delivered)
  }

  /** Disjoint nodes, none of which holds the empty key: the service refuses to store it. */
  ghost predicate Partitioned(c: Contents) {
    Disjoint(c) && !Somewhere(c, "")
  }

  lemma PageExtends(c: Contents, limit: nat, delivered: seq<Key>, cursors: Cursors, page: Page)
    requires Standing(c, delivered, cursors) && IsPage(c, limit, cursors, page)
    ensures Beginning(c, delivered + page.keys)
  {
    forall k | k in page.keys ensures Pending(c, cursors, k) {
    }
    forall i, j | 0 <= i < |delivered| && 0 <= j < |page.keys| ensures Less(delivered[i], page.keys[j]) {
      assert page.keys[j] in page.keys && delivered[i] in delivered;
    }
    AscendingAppend(delivered, page.keys);
    forall j, k | j in page.keys && Somewhere(c, k) && k !in delivered + page.keys ensures Less(j, k) {
      assert Pending(c, cursors, k);
    }
  }

  /** With every delivering node covered, exactly what was not delivered is pending after the page. */
  lemma RestIsPending(c: Contents, limit: nat, delivered: seq<Key>, cursors: Cursors, page: Page)
    requires Partitioned(c) && Standing(c, delivered, cursors) && IsPage(c, limit, cursors, page)
    requires Covers(c, delivered + page.keys, page.cursors)
    ensures Standing(c, delivered + page.keys, page.cursors)
  {
    PageExtends(c, limit, delivered, cursors, page);
    forall k ensures Pending(c, page.cursors, k) <==> Somewhere(c, k) && k !in delivered + page.keys {
      if Pending(c, page.cursors, k) {
        NotDelivered(c, limit, delivered, cursors, page, k);
      }
      if Somewhere(c, k) && k !in delivered + page.keys {
        BecomesPending(c, limit, delivered, cursors, page, k);
      }
    }
  }

  lemma NotDelivered(c: Contents, limit: nat, delivered: seq<Key>, cursors: Cursors, page: Page, k: Key)
    requires Partitioned(c) && Standing(c, delivered, cursors) && IsPage(c, limit, cursors, page)
    requires Covers(c, delivered + page.keys, page.cursors) && Pending(c, page.cursors, k)
    ensures Somewhere(c, k) && k !in delivered + page.keys
  {
    var id :| id in c && k in c[id] && PastCursor(page.cursors, id, k);
    if k in delivered + page.keys {
      assert From(c, delivered + page.keys, id, k) && (k in page.keys ==> From(c, page.keys, id, k));
      var cur := page.cursors[id];
      assert From(c, page.keys, id, cur) && Less(cur, k);
      assert Pending(c, cursors, cur);
      if k in delivered {
        LessAsymmetric(k, cur);
      }
    }
  }

  lemma BecomesPending(c: Contents, limit: nat, delivered: seq<Key>, cursors: Cursors, page: Page, k: Key)
    requires Partitioned(c) && Standing(c, delivered, cursors) && IsPage(c, limit, cursors, page)
    requires Somewhere(c, k) && k !in delivered + page.keys
    ensures Pending(c, page.cursors, k)
  {
  }

  /** The first `n` pages each left a cursor for every node that had delivered. */
  ghost predicate CoveredThrough(c: Contents, pages: seq<Page>, n: nat)
    requires n <= |pages|
  {
    forall i :: 0 <= i < n ==> Covers(c, Delivered(pages[..i + 1]), pages[i].cursors)
  }

  lemma DeliveredNext(pages: seq<Page>, n: nat)
    requires n < |pages|
    ensures Delivered(pages[..n + 1]) == Delivered(pages[..n]) + pages[n].keys
  {
    assert pages[..n + 1][..n] == pages[..n];
  }

  lemma {:induction false} CoveredRunStands(c: Contents, limit: nat, pages: seq<Page>, n: nat)
    requires Partitioned(c) && IsRun(c, limit, pages) && n <= |pages| && CoveredThrough(c, pages, n)
    ensures Standing(c, Delivered(pages[..n]), CursorsBefore(pages, n))
  {
    hide Standing, IsPage, Partitioned;
    if n == 0 {
      StartStands(c);
    } else {
      CoveredRunStands(c, limit, pages, n - 1);
      DeliveredNext(pages, n - 1);
      RestIsPending(c, limit, Delivered(pages[..n - 1]), CursorsBefore(pages, n - 1), pages[n - 1]);
    }
  }

  lemma StartStands(c: Contents)
    ensures Standing(c, [], map[])
  {
  }

  /** Whatever a covered run has delivered is a beginning of the whole list: in order, nothing twice. */
  lemma {:induction false} CoveredRunDelivers(c: Contents, limit: nat, pages: seq<Page>)
    requires Partitioned(c) && IsRun(c, limit, pages) && pages != [] && CoveredThrough(c, pages, |pages| - 1)
    ensures Beginning(c, Delivered(pages))
    ensures !pages[|pages| - 1].hasMore ==> forall k :: k in Delivered(pages) <==> Somewhere(c, k)
  {
    var n := |pages| - 1;
    CoveredRunStands(c, limit, pages, n);
    CoveredRunBegins(c, limit, pages, n);
    assert pages[..n + 1] == pages;
    DeliveredNext(pages, n);
  }

  /** A run that covers and comes to its last page has listed every key of the cluster exactly once, in order. */
  lemma {:induction false} CoveredRunListsAll(c: Contents, limit: nat, pages: seq<Page>, all: seq<Key>)
    requires Partitioned(c) && IsRun(c, limit, pages) && pages != [] && CoveredThrough(c, pages, |pages| - 1)
    requires !pages[|pages| - 1].hasMore
    requires Ascending(all) && forall k :: k in all <==> Somewhere(c, k)
    ensures Delivered(pages) == all
  {
    CoveredRunDelivers(c, limit, pages);
    AscendingUnique(Delivered(pages), all);
  }

  /** And it does come to its last page: every page before it is full. */
  lemma CoveredRunEnds(c: Contents, limit: nat, pages: seq<Page>, all: seq<Key>)
    requires Partitioned(c) && IsRun(c, limit, pages) && pages != [] && CoveredThrough(c, pages, |pages| - 1)
    requires Ascending(all) && forall k :: k in all <==> Somewhere(c, k)
    ensures (|pages| - 1) * limit + |pages[|pages| - 1].keys| <= |all|
  {
    CoveredRunDelivers(c, limit, pages);
    AscendingSubset(Delivered(pages), all);
    FullPages(c, limit, pages, |pages| - 1);
    TimesIs(|pages| - 1, limit);
    assert pages[..|pages|] == pages;
    DeliveredNext(pages, |pages| - 1);
  }

  lemma {:induction false} FullPages(c: Contents, limit: nat, pages: seq<Page>, n: nat)
    requires IsRun(c, limit, pages) && n < |pages|
    ensures |Delivered(pages[..n])| == Times(n, limit)
  {
    hide IsRun;
    if n > 0 {
      FullPages(c, limit, pages, n - 1);
      DeliveredNext(pages, n - 1);
      FullPage(c, limit, pages, n - 1);
    }
  }

  lemma FullPage(c: Contents, limit: nat, pages: seq<Page>, n: nat)
    requires IsRun(c, limit, pages) && n + 1 < |pages|
    ensures |pages[n].keys| == limit
  {
    hide FirstKeys, NextCursors, Pending;
    assert IsPage(c, limit, CursorsBefore(pages, n), pages[n]) && pages[n].hasMore;
  }

  /** `n` times `limit`, page by page. */
  function Times(n: nat, limit: nat): nat {
    if n == 0 then 0 else Times(n - 1, limit) + limit
  }

  lemma {:induction false} TimesIs(n: nat, limit: nat)
    ensures Times(n, limit) == n * limit
  {
    if n > 0 {
      TimesIs(n - 1, limit);
    }
  }

  /** Cursors are the whole story: after a run that covered up to its last page but one,
      the last page repeats a key exactly when a node that had delivered was left
      without a cursor. */
  lemma RepeatsExactly(c: Contents, limit: nat, pages: seq<Page>)
    requires Partitioned(c) && 0 < limit && IsRun(c, limit, pages) && |pages| >= 2
    requires CoveredThrough(c, pages, |pages| - 2)
    ensures var n := |pages| - 1;
            (exists k :: k in pages[n].keys && k in Delivered(pages[..n])) <==>
            !Covers(c, Delivered(pages[..n]), pages[n - 1].cursors)
  {
    var n := |pages| - 1;
    var before, cursors := Delivered(pages[..n]), pages[n - 1].cursors;
    if Covers(c, before, cursors) {
      assert CoveredThrough(c, pages, n);
      CoveredRunStands(c, limit, pages, n);
      NothingRepeats(c, limit, before, cursors, pages[n]);
    } else {
      CoveredRunBegins(c, limit, pages, n - 1);
      var id, k :| From(c, before, id, k) && id !in cursors;
      RepeatsLost(c, limit, before, cursors, pages[n], id, k);
    }
  }

  lemma CoveredRunBegins(c: Contents, limit: nat, pages: seq<Page>, n: nat)
    requires Partitioned(c) && IsRun(c, limit, pages) && n < |pages| && CoveredThrough(c, pages, n)
    ensures Beginning(c, Delivered(pages[..n + 1]))
  {
    var before := Delivered(pages[..n]);
    CoveredRunStands(c, limit, pages, n);
    PageExtends(c, limit, before, CursorsBefore(pages, n), pages[n]);
    DeliveredNext(pages, n);
  }

  lemma NothingRepeats(c: Contents, limit: nat, before: seq<Key>, cursors: Cursors, page: Page)
    requires Standing(c, before, cursors) && IsPage(c, limit, cursors, page)
    ensures forall k :: k in page.keys ==> k !in before
  {
  }

  lemma RepeatsLost(c: Contents, limit: nat, before: seq<Key>, cursors: Cursors, page: Page, id: NodeId, k: Key)
    requires Beginning(c, before) && 0 < limit && IsPage(c, limit, cursors, page) && From(c, before, id, k) && id !in cursors
    ensures exists j :: j in page.keys && j in before
  {
    assert PastCursor(cursors, id, k);
    assert Pending(c, cursors, k);
    if k !in page.keys {
      var x := page.keys[0];
      assert x in page.keys;
      assert Pending(c, cursors, x) && Less(x, k);
      if x !in before {
        LessAsymmetric(k, x);
      }
    }
  }

  // ---- A run that never ends ----

  const A := NodeId("A")
  const B := NodeId("B")

  const EXAMPLE: Contents := map[A := ["a"], B := ["c", "d"]]

  function LoopingPage(i: nat): Page {
    if i % 2 == 0 then Page(["a"], map[A := "a"], true) else Page(["c"], map[B := "c"], true)
  }

  lemma ExampleOrder()
    ensures Less("a", "c") && Less("a", "d") && Less("c", "d") && !Less("a", "a") && !Less("c", "c")
  {
  }

  lemma EvenPage(cursors: Cursors)
    requires cursors == map[] || cursors == map[B := "c"]
    ensures IsPage(EXAMPLE, 1, cursors, Page(["a"], map[A := "a"], true))
  {
    ExampleOrder();
    assert PastCursor(cursors, A, "a");
    assert Pending(EXAMPLE, cursors, "a") && From(EXAMPLE, ["a"], A, "a");
  }

  lemma OddPage(cursors: Cursors)
    requires cursors == map[A := "a"]
    ensures IsPage(EXAMPLE, 1, cursors, Page(["c"], map[B := "c"], true))
  {
    ExampleOrder();
    assert !Pending(EXAMPLE, cursors, "a");
    assert PastCursor(cursors, B, "c");
    assert Pending(EXAMPLE, cursors, "c") && From(EXAMPLE, ["c"], B, "c");
  }

  lemma LoopingPageIsPage(cursors: Cursors, i: nat)
    requires if i == 0 then cursors == map[] else cursors == LoopingPage(i - 1).cursors
    ensures IsPage(EXAMPLE, 1, cursors, LoopingPage(i))
  {
    if i % 2 == 0 {
      EvenPage(cursors);
    } else {
      OddPage(cursors);
    }
  }

  /** Two nodes, three keys, one key a page: each page forgets the other node, and the
      listing hands out `a` and `c` for ever and never reaches `d`. */
  lemma ListingLoops(n: nat)
    ensures Partitioned(EXAMPLE) && IsRun(EXAMPLE, 1, seq(n, (i: nat) => LoopingPage(i)))
    ensures Somewhere(EXAMPLE, "d")
    ensures forall i: nat :: i < n ==> LoopingPage(i).hasMore && "d" !in LoopingPage(i).keys
  {
    hide IsPage;
    var pages := seq(n, (i: nat) => LoopingPage(i));
    forall i: nat | i < n ensures IsPage(EXAMPLE, 1, CursorsBefore(pages, i), pages[i]) {
      LoopingPageIsPage(CursorsBefore(pages, i), i);
    }
    assert "d" in EXAMPLE[B];
  }
}
