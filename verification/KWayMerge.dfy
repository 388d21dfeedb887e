/** Merging the nodes' sorted responses into one page (server/operations/list.go). */
module KWayMerge {
  import opened Rows
  import opened Order

  /** Node identities are only ever compared for equality. */
  datatype NodeId = NodeId(name: string)

  datatype KeyValue = KeyValue(key: Key, value: Bytes)

  /** One node's answer: `keys` in keys-only mode, `entries` with values. */
  datatype NodeResponse = NodeResponse(keys: seq<Key>, entries: seq<KeyValue>, token: Key, hasMore: bool)

  type Responses = map<NodeId, NodeResponse>

  datatype HeapNode = HeapNode(key: Key, node: NodeId)

  function ItemCount(r: NodeResponse): nat {
    if |r.entries| > 0 then |r.entries| else |r.keys|
  }

  function KeyAt(r: NodeResponse, i: nat): Key
    requires i < ItemCount(r)
  {
    if |r.entries| > 0 then r.entries[i].key else r.keys[i]
  }

  /** The keys of a response, in either mode. */
  function ItemKeys(r: NodeResponse): seq<Key> {
    seq(ItemCount(r), i requires 0 <= i < ItemCount(r) => KeyAt(r, i))
  }

  predicate Sorted(r: NodeResponse) {
    forall i, j :: 0 <= i < j < ItemCount(r) ==> Less(KeyAt(r, i), KeyAt(r, j))
  }

  predicate AllSorted(rs: Responses) {
    forall id :: id in rs ==> Sorted(rs[id])
  }

  predicate Holds(r: NodeResponse, k: Key) {
    exists i :: 0 <= i < ItemCount(r) && KeyAt(r, i) == k
  }

  /** Some node sent `k`. */
  predicate Sent(rs: Responses, k: Key) {
    exists id :: id in rs && Holds(rs[id], k)
  }

  // ---- Where the merge stands ----

  /** How many items of each response have been popped. */
  type Popped = map<NodeId, nat>

  predicate Within(rs: Responses, popped: Popped) {
    popped.Keys == rs.Keys && forall id :: id in rs ==> popped[id] <= ItemCount(rs[id])
  }

  predicate Before(r: NodeResponse, n: nat, k: Key) {
    exists i :: 0 <= i < n && i < ItemCount(r) && KeyAt(r, i) == k
  }

  /** `k` is among the items popped so far. */
  predicate Taken(rs: Responses, popped: Popped, k: Key)
    requires popped.Keys == rs.Keys
  {
    exists id :: id in rs && Before(rs[id], popped[id], k)
  }

  predicate Waiting(rs: Responses, popped: Popped, id: NodeId)
    requires popped.Keys == rs.Keys
  {
    id in rs && popped[id] < ItemCount(rs[id])
  }

  /** The heap holds exactly the next item of every response that has one. */
  ghost predicate HeapOk(rs: Responses, popped: Popped, h: set<HeapNode>)
    requires Within(rs, popped)
  {
    forall x :: x in h <==> Waiting(rs, popped, x.node) && x.key == KeyAt(rs[x.node], popped[x.node])
  }

  /** The index kept of each node: of its item in the heap, or of its last item. */
  predicate IndicesOk(rs: Responses, popped: Popped, indices: map<NodeId, int>)
    requires Within(rs, popped)
  {
    indices.Keys == rs.Keys &&
    forall id :: id in rs ==> indices[id] == if popped[id] < ItemCount(rs[id]) then popped[id] else ItemCount(rs[id]) - 1
  }

  ghost predicate CursorsOk(rs: Responses, popped: Popped, cursors: map<NodeId, Key>)
    requires Within(rs, popped)
  {
    && (forall id :: id in cursors <==> id in rs && popped[id] > 0)
    && (forall id :: id in cursors ==> cursors[id] == KeyAt(rs[id], popped[id] - 1))
  }

  /** The result is the popped keys, in order, and nothing waiting comes before any of them. */
  ghost predicate ResultOk(rs: Responses, popped: Popped, keys: seq<Key>)
    requires Within(rs, popped)
  {
    && Ascending(keys)
    && (forall k :: k in keys <==> Taken(rs, popped, k))
    && (forall id, k :: Waiting(rs, popped, id) && k in keys ==> !Less(KeyAt(rs[id], popped[id]), k))
  }

  ghost predicate EntriesOk(rs: Responses, keys: seq<Key>, entries: seq<KeyValue>, withValues: bool) {
    if withValues then
      && |entries| == |keys|
      && forall i :: 0 <= i < |keys| ==> entries[i].key == keys[i] && SomeEntry(rs, entries[i])
    else entries == []
  }

  ghost predicate SomeEntry(rs: Responses, e: KeyValue) {
    exists id :: id in rs && e in rs[id].entries
  }

  /** Removes a least node from the heap; which of several least ones is left open. */
  method PopMin(h: set<HeapNode>) returns (min: HeapNode, rest: set<HeapNode>)
    requires h != {}
    ensures min in h && rest == h - {min}
    ensures forall x :: x in h ==> !Less(x.key, min.key)
  {
    min :| min in h;
    LessIrreflexive(min.key);
    var todo := h - {min};
    while todo != {}
      invariant todo < h && min in h && forall x :: x in h - todo ==> !Less(x.key, min.key)
      decreases |todo|
    {
      var x :| x in todo;
      if Less(x.key, min.key) {
        forall y | y in h - todo ensures !Less(y.key, x.key) {
          if Less(y.key, x.key) {
            LessTransitive(y.key, x.key, min.key);
          }
        }
        LessIrreflexive(x.key);
        min := x;
      }
      todo := todo - {x};
    }
    rest := h - {min};
  }

  /** The nodes of `done` have their first item, if any, in the heap. */
  ghost predicate Primed(rs: Responses, done: set<NodeId>, h: set<HeapNode>, indices: map<NodeId, int>) {
    && done <= rs.Keys && indices.Keys == done
    && (forall x :: x in h <==> x.node in done && ItemCount(rs[x.node]) > 0 && x.key == KeyAt(rs[x.node], 0))
    && (forall id :: id in done ==> indices[id] == if ItemCount(rs[id]) > 0 then 0 else -1)
  }

  lemma PrimeStep(rs: Responses, done: set<NodeId>, h: set<HeapNode>, indices: map<NodeId, int>, id: NodeId)
    requires Primed(rs, done, h, indices) && id in rs && id !in done
    ensures if ItemCount(rs[id]) > 0
            then Primed(rs, done + {id}, h + {HeapNode(KeyAt(rs[id], 0), id)}, indices[id := 0])
            else Primed(rs, done + {id}, h, indices[id := -1])
  {
    hide ItemCount, KeyAt;
  }

  lemma PrimedIsReady(rs: Responses, popped: Popped, h: set<HeapNode>, indices: map<NodeId, int>)
    requires Primed(rs, rs.Keys, h, indices) && popped.Keys == rs.Keys && forall id :: id in rs ==> popped[id] == 0
    ensures Within(rs, popped) && HeapOk(rs, popped, h) && IndicesOk(rs, popped, indices)
  {
    hide ItemCount, KeyAt;
  }

  /** Puts the first item of every non-empty response into the heap. */
  method Prime(rs: Responses) returns (h: set<HeapNode>, indices: map<NodeId, int>, ghost popped: Popped)
    ensures Within(rs, popped) && (forall id :: id in rs ==> popped[id] == 0)
    ensures HeapOk(rs, popped, h) && IndicesOk(rs, popped, indices)
  {
    hide Primed, HeapOk, IndicesOk, ItemCount, KeyAt;
    popped := map id | id in rs :: 0;
    h, indices := {}, map[];
    var todo := rs.Keys;
    NothingPrimed(rs);
    assert rs.Keys - todo == {};
    while todo != {}
      invariant todo <= rs.Keys && Primed(rs, rs.Keys - todo, h, indices)
      decreases |todo|
    {
      var id :| id in todo;
      PrimeStep(rs, rs.Keys - todo, h, indices, id);
      assert rs.Keys - todo + {id} == rs.Keys - (todo - {id});
      if ItemCount(rs[id]) > 0 {
        h, indices := h + {HeapNode(KeyAt(rs[id], 0), id)}, indices[id := 0];
      } else {
        indices := indices[id := -1];
      }
      todo := todo - {id};
    }
    assert rs.Keys - todo == rs.Keys;
    PrimedIsReady(rs, popped, h, indices);
  }

  lemma NothingPrimed(rs: Responses)
    ensures Primed(rs, {}, {}, map[])
  {
  }

  function Advance(popped: Popped, id: NodeId): Popped
    requires id in popped
  {
    popped[id := popped[id] + 1]
  }

  /** The heap after its least node was replaced by that node's next item, if there is one. */
  function Refill(rs: Responses, popped: Popped, rest: set<HeapNode>, id: NodeId): set<HeapNode>
    requires id in rs && id in popped
  {
    var n := popped[id] + 1;
    if n < ItemCount(rs[id]) then rest + {HeapNode(KeyAt(rs[id], n), id)} else rest
  }

  lemma HeapStep(rs: Responses, popped: Popped, h: set<HeapNode>, min: HeapNode)
    requires Within(rs, popped) && HeapOk(rs, popped, h) && min in h
    ensures Within(rs, Advance(popped, min.node))
    ensures HeapOk(rs, Advance(popped, min.node), Refill(rs, popped, h - {min}, min.node))
  {
  }

  lemma TakenStep(rs: Responses, popped: Popped, id: NodeId, k: Key)
    requires Within(rs, popped) && Waiting(rs, popped, id)
    ensures Taken(rs, Advance(popped, id), k) <==> Taken(rs, popped, k) || k == KeyAt(rs[id], popped[id])
  {
  }

  function Extend(keys: seq<Key>, k: Key): seq<Key> {
    if k in keys then keys else keys + [k]
  }

  lemma ResultStep(rs: Responses, popped: Popped, h: set<HeapNode>, min: HeapNode, keys: seq<Key>)
    requires AllSorted(rs) && Within(rs, popped) && HeapOk(rs, popped, h) && ResultOk(rs, popped, keys) && min in h
    requires forall x :: x in h ==> !Less(x.key, min.key)
    ensures Within(rs, Advance(popped, min.node))
    ensures ResultOk(rs, Advance(popped, min.node), Extend(keys, min.key))
  {
    var id, key := min.node, min.key;
    assert Waiting(rs, popped, id);
    var popped', keys' := Advance(popped, id), Extend(keys, key);
    forall i | 0 <= i < |keys| && key !in keys ensures Less(keys[i], key) {
      assert keys[i] in keys;
      LessTotal(keys[i], key);
    }
    forall k ensures k in keys' <==> Taken(rs, popped', k) {
      TakenStep(rs, popped, id, k);
    }
    forall other, k | Waiting(rs, popped', other) && k in keys' ensures !Less(KeyAt(rs[other], popped'[other]), k) {
      NextIsLater(rs, popped, h, min, other);
      if k == key {
      } else {
        NotBefore(KeyAt(rs[other], popped'[other]), key, k);
      }
    }
  }

  /** Whatever waits after the pop comes no earlier than what was popped. */
  lemma NextIsLater(rs: Responses, popped: Popped, h: set<HeapNode>, min: HeapNode, other: NodeId)
    requires AllSorted(rs) && Within(rs, popped) && HeapOk(rs, popped, h) && min in h
    requires forall x :: x in h ==> !Less(x.key, min.key)
    requires Waiting(rs, Advance(popped, min.node), other)
    ensures !Less(KeyAt(rs[other], Advance(popped, min.node)[other]), min.key)
  {
    if other == min.node {
      assert Sorted(rs[other]);
      LessAsymmetric(min.key, KeyAt(rs[other], popped[other] + 1));
    } else {
      assert HeapNode(KeyAt(rs[other], popped[other]), other) in h;
    }
  }

  lemma {:induction false} NotBefore(a: Key, b: Key, c: Key)
    requires !Less(a, b) && !Less(b, c)
    ensures !Less(a, c)
  {
    LessTotal(b, c);
    if b != c && Less(a, c) {
      LessTransitive(a, c, b);
    }
  }

  // ---- The merge ----

  /** The strictly ascending first `limit` keys of a set. */
  ghost predicate FirstKeys(keys: seq<Key>, have: Key -> bool, limit: nat) {
    && Ascending(keys) && |keys| <= limit
    && (forall k :: k in keys ==> have(k))
    && (forall k :: have(k) && k !in keys ==> |keys| == limit && forall j :: j in keys ==> Less(j, k))
  }

  lemma FirstKeysWithin(a: seq<Key>, b: seq<Key>, have: Key -> bool, limit: nat, k: Key)
    requires FirstKeys(a, have, limit) && FirstKeys(b, have, limit) && k in a
    ensures k in b
  {
    if k !in b {
      forall j | j in b ensures j in a {
        if j !in a {
          LessAsymmetric(j, k);
        }
      }
      AscendingSubset(b, a);
    }
  }

  /** There is only one such page. */
  lemma FirstKeysUnique(a: seq<Key>, b: seq<Key>, have: Key -> bool, limit: nat)
    requires FirstKeys(a, have, limit) && FirstKeys(b, have, limit)
    ensures a == b
  {
    forall k ensures k in a <==> k in b {
      if k in a {
        FirstKeysWithin(a, b, have, limit, k);
      }
      if k in b {
        FirstKeysWithin(b, a, have, limit, k);
      }
    }
    AscendingUnique(a, b);
  }

  ghost predicate Drained(rs: Responses, popped: Popped)
    requires Within(rs, popped)
  {
    forall id :: !Waiting(rs, popped, id)
  }

  /** Cursors as returned: the last popped key of each node, or, once everything
      sent has been popped, the token of a node that has more. */
  ghost predicate FinalCursors(rs: Responses, popped: Popped, cursors: map<NodeId, Key>)
    requires Within(rs, popped)
  {
    && (forall id :: id in cursors <==> id in rs && (popped[id] > 0 || (Drained(rs, popped) && rs[id].hasMore && rs[id].token != "")))
    && (forall id :: id in cursors ==>
          if Drained(rs, popped) && rs[id].hasMore && rs[id].token != "" then cursors[id] == rs[id].token
          else popped[id] > 0 && cursors[id] == KeyAt(rs[id], popped[id] - 1))
  }

  lemma {:induction false} WaitingAfter(rs: Responses, popped: Popped, keys: seq<Key>, k: Key)
    requires AllSorted(rs) && Within(rs, popped) && ResultOk(rs, popped, keys) && Sent(rs, k) && k !in keys
    ensures !Drained(rs, popped) && forall j :: j in keys ==> Less(j, k)
  {
    var id :| id in rs && Holds(rs[id], k);
    var i :| 0 <= i < ItemCount(rs[id]) && KeyAt(rs[id], i) == k;
    assert !Before(rs[id], popped[id], k);
    assert Waiting(rs, popped, id) && Sorted(rs[id]);
    var head := KeyAt(rs[id], popped[id]);
    forall j | j in keys ensures Less(j, k) {
      if i > popped[id] {
        LessAsymmetric(head, k);
      }
      LessIrreflexive(k);
      NotBefore(k, head, j);
      LessTotal(j, k);
    }
  }

  lemma TakenIsSent(rs: Responses, popped: Popped, k: Key)
    requires Within(rs, popped) && Taken(rs, popped, k)
    ensures Sent(rs, k)
  {
  }

  ghost function Unpopped(rs: Responses, popped: Popped): set<(NodeId, nat)>
    requires Within(rs, popped)
  {
    set id, i: nat | id in rs && popped[id] <= i < ItemCount(rs[id]) :: (id, i)
  }

  lemma UnpoppedShrinks(rs: Responses, popped: Popped, id: NodeId)
    requires Within(rs, popped) && Waiting(rs, popped, id)
    ensures Within(rs, Advance(popped, id)) && Unpopped(rs, Advance(popped, id)) < Unpopped(rs, popped)
  {
    assert (id, popped[id]) in Unpopped(rs, popped) && (id, popped[id]) !in Unpopped(rs, Advance(popped, id));
  }

  lemma IndicesStep(rs: Responses, popped: Popped, indices: map<NodeId, int>, id: NodeId)
    requires Within(rs, popped) && IndicesOk(rs, popped, indices) && Waiting(rs, popped, id)
    ensures Within(rs, Advance(popped, id))
    ensures var n := popped[id] + 1;
            IndicesOk(rs, Advance(popped, id), if n < ItemCount(rs[id]) then indices[id := n] else indices)
  {
    hide ItemCount;
  }

  lemma CursorsStep(rs: Responses, popped: Popped, cursors: map<NodeId, Key>, id: NodeId)
    requires Within(rs, popped) && CursorsOk(rs, popped, cursors) && Waiting(rs, popped, id)
    ensures Within(rs, Advance(popped, id))
    ensures CursorsOk(rs, Advance(popped, id), cursors[id := KeyAt(rs[id], popped[id])])
  {
    hide ItemCount, KeyAt;
  }

  lemma BookkeepingStep(rs: Responses, popped: Popped, indices: map<NodeId, int>, cursors: map<NodeId, Key>, min: HeapNode)
    requires Within(rs, popped) && IndicesOk(rs, popped, indices) && CursorsOk(rs, popped, cursors)
    requires Waiting(rs, popped, min.node) && min.key == KeyAt(rs[min.node], popped[min.node])
    ensures Within(rs, Advance(popped, min.node)) && CursorsOk(rs, Advance(popped, min.node), cursors[min.node := min.key])
    ensures var n := popped[min.node] + 1;
            IndicesOk(rs, Advance(popped, min.node), if n < ItemCount(rs[min.node]) then indices[min.node := n] else indices)
  {
    hide IndicesOk, CursorsOk, ItemCount, KeyAt;
    IndicesStep(rs, popped, indices, min.node);
    CursorsStep(rs, popped, cursors, min.node);
  }

  ghost predicate MergeOk(rs: Responses, popped: Popped, h: set<HeapNode>, indices: map<NodeId, int>,
                          cursors: map<NodeId, Key>, keys: seq<Key>)
  {
    && Within(rs, popped) && HeapOk(rs, popped, h) && IndicesOk(rs, popped, indices)
    && CursorsOk(rs, popped, cursors) && ResultOk(rs, popped, keys)
  }

  lemma MergeStep(rs: Responses, popped: Popped, h: set<HeapNode>, indices: map<NodeId, int>,
                  cursors: map<NodeId, Key>, keys: seq<Key>, min: HeapNode)
    requires AllSorted(rs) && MergeOk(rs, popped, h, indices, cursors, keys) && min in h
    requires forall x :: x in h ==> !Less(x.key, min.key)
    ensures Waiting(rs, popped, min.node) && indices[min.node] == popped[min.node] && min.key == KeyAt(rs[min.node], popped[min.node])
    ensures var n := popped[min.node] + 1;
            MergeOk(rs, Advance(popped, min.node), Refill(rs, popped, h - {min}, min.node),
                    if n < ItemCount(rs[min.node]) then indices[min.node := n] else indices,
                    cursors[min.node := min.key], Extend(keys, min.key))
  {
    HeapStep(rs, popped, h, min);
    ResultStep(rs, popped, h, min, keys);
    BookkeepingStep(rs, popped, indices, cursors, min);
  }

  /** What the loop carries from one pop to the next. */
  datatype Work = Work(keys: seq<Key>, entries: seq<KeyValue>, seen: set<Key>, cursors: map<NodeId, Key>,
                       h: set<HeapNode>, indices: map<NodeId, int>)

  ghost predicate WorkOk(rs: Responses, popped: Popped, withValues: bool, w: Work) {
    && MergeOk(rs, popped, w.h, w.indices, w.cursors, w.keys)
    && EntriesOk(rs, w.keys, w.entries, withValues)
    && forall k :: k in w.seen <==> k in w.keys
  }

  /** One round of the loop. */
  method PopOne(rs: Responses, withValues: bool, w: Work, ghost popped: Popped) returns (w': Work, ghost popped': Popped)
    requires AllSorted(rs) && WorkOk(rs, popped, withValues, w) && w.h != {}
    requires withValues ==> forall id :: id in rs ==> rs[id].keys == []
    ensures WorkOk(rs, popped', withValues, w') && |w'.keys| <= |w.keys| + 1
    ensures Unpopped(rs, popped') < Unpopped(rs, popped)
  {
    hide HeapOk, ResultOk, CursorsOk, AllSorted, Unpopped, Less;
    var min, rest := PopMin(w.h);
    MergeStep(rs, popped, w.h, w.indices, w.cursors, w.keys, min);
    UnpoppedShrinks(rs, popped, min.node);
    popped' := Advance(popped, min.node);
    w' := w.(cursors := w.cursors[min.node := min.key], h := rest);
    if min.key !in w.seen {
      if withValues {
        var entries := Aligned(rs, w.keys, w.entries, min, w.indices[min.node]);
        w' := w'.(entries := entries);
      }
      w' := w'.(keys := w.keys + [min.key], seen := w.seen + {min.key});
    }
    var next := w.indices[min.node] + 1;
    if next < ItemCount(rs[min.node]) {
      w' := w'.(h := rest + {HeapNode(KeyAt(rs[min.node], next), min.node)}, indices := w.indices[min.node := next]);
    }
    assert w'.keys == Extend(w.keys, min.key);
    assert w'.h == Refill(rs, popped, rest, min.node);
  }

  /** Pops until the page is full or nothing waits. */
  method Collect(rs: Responses, limit: nat, withValues: bool) returns (w: Work, ghost popped: Popped)
    requires AllSorted(rs)
    requires withValues ==> forall id :: id in rs ==> rs[id].keys == []
    ensures WorkOk(rs, popped, withValues, w)
    ensures |w.keys| <= limit && (w.h != {} ==> |w.keys| == limit)
  {
    var h, indices;
    h, indices, popped := Prime(rs);
    w := Work([], [], {}, map[], h, indices);
    assert MergeOk(rs, popped, h, indices, map[], []);
    while w.h != {} && |w.keys| < limit
      invariant WorkOk(rs, popped, withValues, w) && |w.keys| <= limit
      decreases Unpopped(rs, popped)
    {
      w, popped := PopOne(rs, withValues, w, popped);
    }
  }

  /** The page is the first `limit` distinct keys sent, with their entries alongside;
      `hasMore` is lowered only when everything sent was popped and no node has more. */
  method Merge(rs: Responses, limit: nat, withValues: bool)
    returns (keys: seq<Key>, entries: seq<KeyValue>, cursors: map<NodeId, Key>, hasMore: bool, ghost popped: Popped)
    requires AllSorted(rs)
    requires withValues ==> forall id :: id in rs ==> rs[id].keys == []
    ensures FirstKeys(keys, k => Sent(rs, k), limit)
    ensures EntriesOk(rs, keys, entries, withValues)
    ensures Within(rs, popped) && (forall k :: k in keys <==> Taken(rs, popped, k))
    ensures hasMore <==> !Drained(rs, popped) || exists id :: id in rs && rs[id].hasMore
    ensures FinalCursors(rs, popped, cursors)
    ensures |keys| < limit ==> Drained(rs, popped)
  {
    var w;
    w, popped := Collect(rs, limit, withValues);
    keys, entries, cursors, hasMore := w.keys, w.entries, w.cursors, w.h != {};
    FirstSent(rs, popped, keys, limit, w.h);
    if !hasMore {
      hasMore, cursors := AnyMore(rs, w.indices, cursors, popped);
    }
  }

  /** Appends the entry of the key just added. */
  method Aligned(rs: Responses, keys: seq<Key>, entries: seq<KeyValue>, min: HeapNode, index: int) returns (more: seq<KeyValue>)
    requires EntriesOk(rs, keys, entries, true) && min.node in rs && rs[min.node].keys == []
    requires 0 <= index < ItemCount(rs[min.node]) && min.key == KeyAt(rs[min.node], index)
    ensures EntriesOk(rs, keys + [min.key], more, true)
  {
    var e := rs[min.node].entries[index];
    assert SomeEntry(rs, e);
    more := entries + [e];
  }

  lemma FirstSent(rs: Responses, popped: Popped, keys: seq<Key>, limit: nat, h: set<HeapNode>)
    requires AllSorted(rs) && Within(rs, popped) && ResultOk(rs, popped, keys) && HeapOk(rs, popped, h)
    requires |keys| <= limit && (h != {} ==> |keys| == limit)
    ensures FirstKeys(keys, k => Sent(rs, k), limit)
    ensures h == {} <==> Drained(rs, popped)
  {
    forall id | Waiting(rs, popped, id) ensures h != {} {
      assert HeapNode(KeyAt(rs[id], popped[id]), id) in h;
    }
    if h != {} {
      var x :| x in h;
      assert Waiting(rs, popped, x.node);
    }
    forall k | k in keys ensures Sent(rs, k) {
      TakenIsSent(rs, popped, k);
    }
    forall k | Sent(rs, k) && k !in keys ensures |keys| == limit && forall j :: j in keys ==> Less(j, k) {
      WaitingAfter(rs, popped, keys, k);
    }
  }

  /** A node that has more and named where to go on. */
  predicate HasToken(r: NodeResponse) {
    r.hasMore && r.token != ""
  }

  /** `cursors` is `before`, overridden by the tokens of `done`. */
  ghost predicate Tokened(rs: Responses, done: set<NodeId>, before: map<NodeId, Key>, cursors: map<NodeId, Key>)
    requires done <= rs.Keys
  {
    && (forall id :: id in cursors <==> id in before || (id in done && HasToken(rs[id])))
    && (forall id :: id in cursors ==> cursors[id] == if id in done && HasToken(rs[id]) then rs[id].token else before[id])
  }

  lemma NoTokens(rs: Responses, before: map<NodeId, Key>)
    ensures Tokened(rs, {}, before, before)
  {
  }

  lemma TokenStep(rs: Responses, done: set<NodeId>, before: map<NodeId, Key>, cursors: map<NodeId, Key>, id: NodeId)
    requires done <= rs.Keys && id in rs && id !in done && Tokened(rs, done, before, cursors)
    ensures Tokened(rs, done + {id}, before, if HasToken(rs[id]) then cursors[id := rs[id].token] else cursors)
  {
  }

  /** Everything sent was popped: is there a node that has not sent everything? */
  method AnyMore(rs: Responses, indices: map<NodeId, int>, before: map<NodeId, Key>, ghost popped: Popped)
    returns (hasMore: bool, cursors: map<NodeId, Key>)
    requires Within(rs, popped) && Drained(rs, popped) && IndicesOk(rs, popped, indices)
    ensures hasMore <==> exists id :: id in rs && rs[id].hasMore
    ensures Tokened(rs, rs.Keys, before, cursors)
  {
    hide Tokened, ItemCount;
    hasMore, cursors := false, before;
    NoTokens(rs, before);
    var todo := rs.Keys;
    ghost var done: set<NodeId> := {};
    while todo != {}
      invariant done <= rs.Keys && todo == rs.Keys - done
      invariant hasMore <==> exists id :: id in done && rs[id].hasMore
      invariant Tokened(rs, done, before, cursors)
      decreases |todo|
    {
      var id :| id in todo;
      assert !Waiting(rs, popped, id);
      assert indices[id] == ItemCount(rs[id]) - 1;
      TokenStep(rs, done, before, cursors, id);
      if rs[id].hasMore && indices[id] >= ItemCount(rs[id]) - 1 {
        hasMore := true;
        if rs[id].token != "" {
          cursors := cursors[id := rs[id].token];
        }
      }
      todo, done := todo - {id}, done + {id};
    }
    assert done == rs.Keys;
  }
}
