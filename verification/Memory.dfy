/** The in-memory cache client of client/memory.go: the sequential statement of
    what a compare-and-swap with fences means, and what it guarantees over runs.
    Every reading of the clock is a parameter. */
module Memory {
  import opened Rows

  datatype Entry = Entry(value: Bytes, expiresAt: Option<int>)

  datatype Cache = Cache(
    data: map<Key, Entry>,
    versions: map<Key, nat>,
    fences: map<Key, nat>,
    counter: nat)

  datatype Outcome = Done(version: nat) | Mismatch(current: nat)

  const EMPTY := Cache(map[], map[], map[], VERSION_LEGACY)

  predicate Live(c: Cache, k: Key, t: int) {
    k in c.data && (c.data[k].expiresAt.None? || t < c.data[k].expiresAt.value)
  }

  function EffectiveVersion(c: Cache, k: Key, t: int): nat {
    if !Live(c, k, t) then 0
    else if k in c.versions && c.versions[k] != 0 then c.versions[k]
    else VERSION_LEGACY
  }

  /** Admission, and the version a mismatch reports. Liveness and version are
      decided by two separate clock readings. */
  function Admits(c: Cache, k: Key, expected: nat, t1: int, t2: int): (bool, nat) {
    if Live(c, k, t1) then (EffectiveVersion(c, k, t2) == expected, EffectiveVersion(c, k, t2))
    else if k in c.fences then (expected == 0 || expected >= c.fences[k], c.fences[k])
    else (true, 0)
  }

  function Expiry(ttl: int, t: int): Option<int> {
    if ttl > 0 then Some(t + ttl) else None
  }

  /** A versioned read: the cache afterwards, the version or token, and whether a value was found. */
  function Read(c: Cache, k: Key, t1: int, t2: int): (Cache, nat, bool) {
    if Live(c, k, t1) then (c, EffectiveVersion(c, k, t2), true)
    else if k in c.fences then (c, c.fences[k], false)
    else (c.(counter := c.counter + 1), c.counter + 1, false)
  }

  function PutIf(c: Cache, k: Key, value: Bytes, ttl: int, expected: nat, t1: int, t2: int, t3: int): (Cache, Outcome) {
    var (ok, cur) := Admits(c, k, expected, t1, t2);
    if !ok then (c, Mismatch(cur))
    else
      var v := c.counter + 1;
      (Cache(c.data[k := Entry(value, Expiry(ttl, t3))], c.versions[k := v], c.fences - {k}, v), Done(v))
  }

  function DeleteIf(c: Cache, k: Key, expected: nat, t1: int, t2: int): (Cache, Outcome) {
    var refusal :=
      if Live(c, k, t1) then
        if EffectiveVersion(c, k, t2) != expected then Some(EffectiveVersion(c, k, t2)) else None
      else if k in c.fences then
        if !(expected == 0 || expected >= c.fences[k]) then Some(c.fences[k]) else None
      else if expected != 0 then Some(0) else None;
    if refusal.Some? then (c, Mismatch(refusal.value))
    else
      var v := c.counter + 1;
      (Cache(c.data - {k}, c.versions - {k}, c.fences[k := v], v), Done(v))
  }

  function PlainPut(c: Cache, k: Key, value: Bytes, ttl: int, t: int): Cache {
    Cache(c.data[k := Entry(value, Expiry(ttl, t))], c.versions - {k}, c.fences - {k}, c.counter)
  }

  function Drop(c: Cache, k: Key): Cache {
    Cache(c.data - {k}, c.versions - {k}, c.fences - {k}, c.counter)
  }

  /** Lazy expiry re-checks under the write lock and never touches fences. */
  function Expire(c: Cache, k: Key, t: int): Cache {
    if k !in c.data || Live(c, k, t) then c
    else c.(data := c.data - {k}, versions := c.versions - {k})
  }

  /** The object: each method's effect is the function of the same name. */
  class MemoryCache {
    var data: map<Key, Entry>
    var versions: map<Key, nat>
    var fences: map<Key, nat>
    var versionCounter: nat

    function State(): Cache
      reads this
    {
      Cache(data, versions, fences, versionCounter)
    }

    constructor ()
      ensures State() == EMPTY && Consistent(State())
    {
      data, versions, fences, versionCounter := map[], map[], map[], VERSION_LEGACY;
    }

    method GetWithVersion(key: Key, t1: int, t2: int) returns (value: Bytes, version: nat, found: bool)
      requires Consistent(State())
      modifies this
      ensures (State(), version, found) == Read(old(State()), key, t1, t2)
      ensures found ==> key in old(data) && value == old(data)[key].value
      ensures Consistent(State())
    {
      ReadKeepsConsistent(State(), key, t1, t2);
      if !Live(State(), key, t1) {
        if key in fences {
          return [], fences[key], false;
        }
        versionCounter := versionCounter + 1;
        return [], versionCounter, false;
      }
      return data[key].value, EffectiveVersion(State(), key, t2), true;
    }

    method PutIfVersion(key: Key, value: Bytes, ttl: int, expected: nat, t1: int, t2: int, t3: int) returns (r: Outcome)
      requires Consistent(State())
      modifies this
      ensures (State(), r) == PutIf(old(State()), key, value, ttl, expected, t1, t2, t3)
      ensures r.Done? ==> key in data && data[key].value == value && key in versions && versions[key] == r.version
      ensures Consistent(State())
    {
      var (ok, cur) := Admits(State(), key, expected, t1, t2);
      if !ok {
        return Mismatch(cur);
      }
      fences := fences - {key};
      var entry := Entry(value, if ttl > 0 then Some(t3 + ttl) else None);
      versionCounter := versionCounter + 1;
      data := data[key := entry];
      versions := versions[key := versionCounter];
      return Done(versionCounter);
    }

    method DeleteIfVersion(key: Key, expected: nat, t1: int, t2: int) returns (r: Outcome)
      requires Consistent(State())
      modifies this
      ensures (State(), r) == DeleteIf(old(State()), key, expected, t1, t2)
      ensures Consistent(State())
    {
      if Live(State(), key, t1) {
        var cur := EffectiveVersion(State(), key, t2);
        if cur != expected {
          return Mismatch(cur);
        }
      } else if key in fences {
        if !(expected == 0 || expected >= fences[key]) {
          return Mismatch(fences[key]);
        }
      } else if expected != 0 {
        return Mismatch(0);
      }
      data := data - {key};
      versions := versions - {key};
      versionCounter := versionCounter + 1;
      fences := fences[key := versionCounter];
      return Done(versionCounter);
    }

    method Put(key: Key, value: Bytes, ttl: int, t: int)
      requires Consistent(State())
      modifies this
      ensures State() == PlainPut(old(State()), key, value, ttl, t)
      ensures key in data && data[key].value == value && key !in versions && key !in fences
      ensures Consistent(State())
    {
      data := data[key := Entry(value, Expiry(ttl, t))];
      fences := fences - {key};
      versions := versions - {key};
    }

    method Delete(key: Key) returns (found: bool)
      requires Consistent(State())
      modifies this
      ensures found == (key in old(data))
      ensures State() == if found then Drop(old(State()), key) else old(State())
      ensures Consistent(State())
    {
      if key !in data {
        return false;
      }
      data := data - {key};
      versions := versions - {key};
      fences := fences - {key};
      return true;
    }

    /** The plain read: the entry is read first; an expired one is dropped in a
        second critical section, at a later clock reading. */
    method Get(key: Key, t1: int, t2: int) returns (value: Option<Bytes>)
      requires Consistent(State()) && t1 <= t2
      modifies this
      ensures value.Some? <==> key in old(data) && (old(data)[key].expiresAt.None? || t1 <= old(data)[key].expiresAt.value)
      ensures value.Some? ==> value.value == old(data)[key].value && State() == old(State())
      ensures value.None? ==> State() == Expire(old(State()), key, t2)
      ensures Consistent(State())
    {
      if key !in data {
        return None;
      }
      var entry := data[key];
      if entry.expiresAt.Some? && t1 > entry.expiresAt.value {
        if !(t2 < entry.expiresAt.value) {
          data := data - {key};
          versions := versions - {key};
        }
        return None;
      }
      return Some(entry.value);
    }
  }

  // ---- Invariants of every reachable cache ----

  /** A key never holds both a value and a fence, stamps sit on values only, and
      the counter is ahead of every stamp. */
  ghost predicate Consistent(c: Cache) {
    && c.counter >= VERSION_LEGACY
    && c.data.Keys !! c.fences.Keys
    && c.versions.Keys <= c.data.Keys
    && (forall k :: k in c.versions ==> VERSION_LEGACY < c.versions[k] <= c.counter)
    && (forall k :: k in c.fences ==> VERSION_LEGACY < c.fences[k] <= c.counter)
  }

  datatype Event =
    | Reading(key: Key, t1: int, t2: int)
    | PuttingIf(key: Key, value: Bytes, ttl: int, expected: nat, t1: int, t2: int, t3: int)
    | DeletingIf(key: Key, expected: nat, t1: int, t2: int)
    | Putting(key: Key, value: Bytes, ttl: int, t1: int)
    | Deleting(key: Key)
    | Expiring(key: Key, t1: int)
    | Closing

  function Next(c: Cache, e: Event): Cache {
    match e
    case Reading(k, t1, t2) => Read(c, k, t1, t2).0
    case PuttingIf(k, value, ttl, expected, t1, t2, t3) => PutIf(c, k, value, ttl, expected, t1, t2, t3).0
    case DeletingIf(k, expected, t1, t2) => DeleteIf(c, k, expected, t1, t2).0
    case Putting(k, value, ttl, t1) => PlainPut(c, k, value, ttl, t1)
    case Deleting(k) => if k in c.data then Drop(c, k) else c
    case Expiring(k, t1) => Expire(c, k, t1)
    case Closing => Cache(map[], map[], map[], c.counter)
  }

  predicate IsCas(e: Event) {
    e.PuttingIf? || e.DeletingIf?
  }

  /** A conditional event that the cache admits. */
  predicate Succeeds(c: Cache, e: Event)
    ensures Succeeds(c, e) ==> IsCas(e)
  {
    match e
    case PuttingIf(k, value, ttl, expected, t1, t2, t3) => PutIf(c, k, value, ttl, expected, t1, t2, t3).1.Done?
    case DeletingIf(k, expected, t1, t2) => DeleteIf(c, k, expected, t1, t2).1.Done?
    case _ => false
  }

  /** The cache after a run of events. */
  function After(c: Cache, es: seq<Event>): Cache
    decreases |es|
  {
    if es == [] then c else Next(After(c, es[..|es| - 1]), es[|es| - 1])
  }

  function At(c: Cache, es: seq<Event>, i: nat): Cache
    requires i <= |es|
  {
    After(c, es[..i])
  }

  lemma AtNext(c: Cache, es: seq<Event>, i: nat)
    requires i < |es|
    ensures At(c, es, i + 1) == Next(At(c, es, i), es[i])
  {
    assert es[..i + 1][..i] == es[..i];
  }

  lemma ReadKeepsConsistent(c: Cache, k: Key, t1: int, t2: int)
    requires Consistent(c)
    ensures Consistent(Read(c, k, t1, t2).0)
  {
  }

  lemma NextKeepsConsistent(c: Cache, e: Event)
    requires Consistent(c)
    ensures Consistent(Next(c, e)) && Next(c, e).counter >= c.counter
  {
  }

  lemma {:induction false} RunKeepsConsistent(c: Cache, es: seq<Event>, i: nat)
    requires Consistent(c) && i <= |es|
    ensures Consistent(At(c, es, i))
  {
    if i > 0 {
      RunKeepsConsistent(c, es, i - 1);
      NextKeepsConsistent(At(c, es, i - 1), es[i - 1]);
      AtNext(c, es, i - 1);
    }
  }

  lemma {:induction false} RunsKeepConsistent(c: Cache, es: seq<Event>, i: nat, j: nat)
    requires Consistent(c) && i <= j <= |es|
    ensures Consistent(At(c, es, i)) && Consistent(At(c, es, j))
    ensures At(c, es, i).counter <= At(c, es, j).counter
    decreases j - i
  {
    RunKeepsConsistent(c, es, j);
    if i < j {
      RunsKeepConsistent(c, es, i, j - 1);
      NextKeepsConsistent(At(c, es, j - 1), es[j - 1]);
      AtNext(c, es, j - 1);
    }
  }

  // ---- What each operation does, as a reader sees it ----

  /** Until then, or for ever, a reader finds exactly these bytes under this version, and
      afterwards none. */
  ghost predicate Shows(c: Cache, k: Key, value: Bytes, version: nat, until: Option<int>) {
    && k in c.data && c.data[k].value == value
    && (forall t1, t2 :: until.None? || (t1 < until.value && t2 < until.value) ==> Read(c, k, t1, t2) == (c, version, true))
    && (forall t1, t2 :: until.Some? && t1 >= until.value ==> !Read(c, k, t1, t2).2)
  }

  /** No reader finds a value, and all are told the same token. */
  ghost predicate ShowsFence(c: Cache, k: Key, fence: nat) {
    forall t1, t2 :: Read(c, k, t1, t2) == (c, fence, false)
  }

  /** Every other key keeps value, stamp and fence. */
  ghost predicate OthersAlone(c: Cache, c': Cache, k: Key) {
    forall k' :: k' != k ==>
      && (k' in c.data <==> k' in c'.data) && (k' in c.data ==> c'.data[k'] == c.data[k'])
      && (k' in c.versions <==> k' in c'.versions) && (k' in c.versions ==> c'.versions[k'] == c.versions[k'])
      && (k' in c.fences <==> k' in c'.fences) && (k' in c.fences ==> c'.fences[k'] == c.fences[k'])
  }

  /** How long a value put at `t` lives. */
  function Until(ttl: int, t: int): Option<int> {
    if ttl <= 0 then None else Some(t + ttl)
  }

  /** A conditional put that succeeds shows its value under the next stamp for its lifetime; one
      that fails changes nothing and reports what a reader is shown. */
  lemma PutIfShows(c: Cache, k: Key, value: Bytes, ttl: int, expected: nat, t1: int, t2: int, t3: int)
    requires Consistent(c)
    ensures var (c', r) := PutIf(c, k, value, ttl, expected, t1, t2, t3);
            && OthersAlone(c, c', k)
            && (if r.Done? then r.version == c.counter + 1 && Shows(c', k, value, r.version, Until(ttl, t3))
                else c' == c && r.current == Read(c, k, t1, t2).1)
  {
  }

  /** A conditional delete that succeeds leaves a fence with the next stamp; one that fails changes
      nothing and reports what a reader is shown, or 0 for a key without history. */
  lemma DeleteIfShows(c: Cache, k: Key, expected: nat, t1: int, t2: int)
    requires Consistent(c)
    ensures var (c', r) := DeleteIf(c, k, expected, t1, t2);
            && OthersAlone(c, c', k)
            && (if r.Done? then r.version == c.counter + 1 && ShowsFence(c', k, r.version)
                else c' == c && (r.current == Read(c, k, t1, t2).1 || (r.current == 0 && !Live(c, k, t1) && k !in c.fences)))
  {
  }

  /** A plain put shows its value under the legacy version for its lifetime. */
  lemma PlainPutShows(c: Cache, k: Key, value: Bytes, ttl: int, t: int)
    requires Consistent(c)
    ensures OthersAlone(c, PlainPut(c, k, value, ttl, t), k) && Shows(PlainPut(c, k, value, ttl, t), k, value, 1, Until(ttl, t))
  {
  }

  /** A plain delete leaves nothing: the next reader draws a token above every stamp so far. */
  lemma DropShows(c: Cache, k: Key, t1: int, t2: int)
    ensures OthersAlone(c, Drop(c, k), k)
    ensures var (c', token, found) := Read(Drop(c, k), k, t1, t2); !found && token == c.counter + 1 == c'.counter
  {
  }

  /** Lazy expiry removes the entry exactly when it has expired, and no later reader can tell. */
  lemma ExpireIsInvisible(c: Cache, k: Key, t: int, k': Key, t1: int, t2: int)
    requires Consistent(c) && t <= t1 && t <= t2
    ensures k in Expire(c, k, t).data <==> k in c.data && (c.data[k].expiresAt.None? || t < c.data[k].expiresAt.value)
    ensures var (a, b) := (Read(c, k', t1, t2), Read(Expire(c, k, t), k', t1, t2)); a.1 == b.1 && a.2 == b.2
    ensures k' in Expire(c, k, t).data ==> k' in c.data && Expire(c, k, t).data[k'] == c.data[k']
  {
  }

  lemma DeletingHides(c: Cache, k: Key)
    requires Consistent(c)
    ensures var c' := Next(c, Deleting(k));
            OthersAlone(c, c', k) && (k !in c.data ==> c' == c) && forall t1, t2 :: !Read(c', k, t1, t2).2
  {
  }

  lemma QuietShows(c: Cache, k: Key, t1: int, t2: int)
    requires Consistent(c)
    ensures OthersAlone(c, Read(c, k, t1, t2).0, k) && OthersAlone(c, Expire(c, k, t1), k)
    ensures Live(c, k, t1) || k in c.fences ==> Read(c, k, t1, t2).0 == c && Expire(c, k, t1) == c
  {
  }

  lemma ClosingHides(c: Cache)
    ensures forall k, t1, t2 :: Read(Next(c, Closing), k, t1, t2).1 == c.counter + 1 && !Read(Next(c, Closing), k, t1, t2).2
  {
  }

  /** What every event of a run shows from then on: a write that is admitted its value or its fence,
      a delete nothing, and a read, an expiry or a refused write what there was. */
  lemma NextShows(c: Cache, e: Event)
    requires Consistent(c)
    ensures var c' := Next(c, e);
            match e
            case PuttingIf(k, value, ttl, _, _, _, t) =>
              OthersAlone(c, c', k) && if Succeeds(c, e) then Shows(c', k, value, c.counter + 1, Until(ttl, t)) else c' == c
            case DeletingIf(k, _, _, _) =>
              OthersAlone(c, c', k) && if Succeeds(c, e) then ShowsFence(c', k, c.counter + 1) else c' == c
            case Putting(k, value, ttl, t) => OthersAlone(c, c', k) && Shows(c', k, value, 1, Until(ttl, t))
            case Deleting(k) =>
              OthersAlone(c, c', k) && (k !in c.data ==> c' == c) && forall t1, t2 :: !Read(c', k, t1, t2).2
            case Reading(k, t, _) => OthersAlone(c, c', k) && (Live(c, k, t) || k in c.fences ==> c' == c)
            case Expiring(k, t) => OthersAlone(c, c', k) && (Live(c, k, t) || k in c.fences ==> c' == c)
            case Closing => forall k, t1, t2 :: Read(c', k, t1, t2).1 == c.counter + 1 && !Read(c', k, t1, t2).2
  {
    hide Consistent, Shows, ShowsFence, OthersAlone, PutIf, DeleteIf, PlainPut, Drop, Expire, Read;
    match e
    case PuttingIf(k, value, ttl, expected, t1, t2, t3) => PutIfShows(c, k, value, ttl, expected, t1, t2, t3);
    case DeletingIf(k, expected, t1, t2) => DeleteIfShows(c, k, expected, t1, t2);
    case Putting(k, value, ttl, t) => PlainPutShows(c, k, value, ttl, t);
    case Deleting(k) => DeletingHides(c, k);
    case Reading(k, t1, t2) => QuietShows(c, k, t1, t2);
    case Expiring(k, t) => QuietShows(c, k, t, t);
    case Closing => ClosingHides(c);
  }

  // ---- Fence ordering and lost-update freedom ----

  /** Event `e` is no plain operation on `k` and does not drop it as expired. */
  predicate Undisturbed(c: Cache, e: Event, k: Key) {
    match e
    case Putting(k', _, _, _) => k' != k
    case Deleting(k') => k' != k
    case Expiring(k', t1) => k' == k && k in c.data ==> Live(c, k, t1)
    case Closing => false
    case _ => true
  }

  /** A conditional put that finds its key past its lifetime. */
  predicate FindsExpired(c: Cache, e: Event) {
    e.PuttingIf? && e.key in c.data && !Live(c, e.key, e.t1)
  }

  /** The issued token `v` matches nothing `k` shows: neither its value's version nor its fence. */
  predicate Guarded(c: Cache, k: Key, v: nat) {
    && 0 < v <= c.counter
    && (if k in c.data then (if k in c.versions then c.versions[k] else VERSION_LEGACY) != v
        else k in c.fences && c.fences[k] > v)
  }

  lemma GuardedRefuses(c: Cache, e: Event, k: Key, v: nat)
    requires Consistent(c) && Guarded(c, k, v)
    requires IsCas(e) && e.key == k && e.expected == v
    ensures Succeeds(c, e) <==> FindsExpired(c, e)
  {
  }

  lemma GuardedStep(c: Cache, e: Event, k: Key, v: nat)
    requires Guarded(c, k, v) && Undisturbed(c, e, k)
    ensures Guarded(Next(c, e), k, v)
  {
  }

  lemma {:induction false} GuardedPersists(c: Cache, es: seq<Event>, i: nat, j: nat, k: Key, v: nat)
    requires i <= j <= |es|
    requires Guarded(At(c, es, i), k, v)
    requires forall n :: i <= n < j ==> Undisturbed(At(c, es, n), es[n], k)
    ensures Guarded(At(c, es, j), k, v)
    decreases j - i
  {
    if i < j {
      GuardedPersists(c, es, i, j - 1, k, v);
      AtNext(c, es, j - 1);
      GuardedStep(At(c, es, j - 1), es[j - 1], k, v);
    }
  }

  /** A success carrying an already issued, non-zero expected value leaves the key guarded against it. */
  lemma SuccessGuards(c: Cache, e: Event, v: nat)
    requires IsCas(e) && Succeeds(c, e) && 0 < v <= c.counter
    ensures Guarded(Next(c, e), e.key, v)
  {
  }

  lemma TokenIsIssued(c: Cache, k: Key, t1: int, t2: int)
    requires Consistent(c) && !Read(c, k, t1, t2).2
    ensures 0 < Read(c, k, t1, t2).1 <= Read(c, k, t1, t2).0.counter
  {
  }

  /** Fence ordering. An absent read handed out a token and a conditional delete
      of the key succeeded later: after that, however many recreations and deletes follow,
      a put or delete carrying the token succeeds exactly if it is a put that finds the key
      expired, as long as the key sees no plain operation and is not dropped as expired. */
  lemma FenceOrdering(c: Cache, es: seq<Event>, r: nat, d: nat, j: nat)
    requires Consistent(c) && r < d < j < |es|
    requires es[r].Reading? && !Read(At(c, es, r), es[r].key, es[r].t1, es[r].t2).2
    requires es[d].DeletingIf? && es[d].key == es[r].key && Succeeds(At(c, es, d), es[d])
    requires forall n :: d < n < j ==> Undisturbed(At(c, es, n), es[n], es[r].key)
    requires IsCas(es[j]) && es[j].key == es[r].key
    requires es[j].expected == Read(At(c, es, r), es[r].key, es[r].t1, es[r].t2).1
    ensures Succeeds(At(c, es, j), es[j]) <==> FindsExpired(At(c, es, j), es[j])
  {
    hide Guarded, Undisturbed, Succeeds, FindsExpired, Consistent, At, Read;
    var k, token := es[r].key, es[j].expected;
    RunKeepsConsistent(c, es, r);
    AtNext(c, es, r);
    TokenIsIssued(At(c, es, r), k, es[r].t1, es[r].t2);
    RunsKeepConsistent(c, es, r + 1, d);
    AtNext(c, es, d);
    SuccessGuards(At(c, es, d), es[d], token);
    GuardedPersists(c, es, d + 1, j, k, token);
    RunKeepsConsistent(c, es, j);
    GuardedRefuses(At(c, es, j), es[j], k, token);
  }

  /** Lost-update freedom: an issued, non-zero expected value succeeds at most once per key, but for
      a put that finds the key expired. */
  lemma ExpectedSucceedsOnce(c: Cache, es: seq<Event>, i: nat, j: nat)
    requires Consistent(c) && i < j < |es|
    requires IsCas(es[i]) && IsCas(es[j]) && es[i].key == es[j].key && es[i].expected == es[j].expected
    requires 0 < es[i].expected <= At(c, es, i).counter
    requires Succeeds(At(c, es, i), es[i])
    requires forall n :: i < n < j ==> Undisturbed(At(c, es, n), es[n], es[i].key)
    ensures Succeeds(At(c, es, j), es[j]) <==> FindsExpired(At(c, es, j), es[j])
  {
    AtNext(c, es, i);
    SuccessGuards(At(c, es, i), es[i], es[i].expected);
    GuardedPersists(c, es, i + 1, j, es[i].key, es[i].expected);
    RunKeepsConsistent(c, es, j);
    GuardedRefuses(At(c, es, j), es[j], es[i].key, es[i].expected);
  }

  /** Failing early is sound: a put refused now by a value that is still live when its version is
      read, or by a fence, is refused for good, for every issued expected value but 0. */
  lemma RefusalIsFinal(c: Cache, es: seq<Event>, i: nat, j: nat)
    requires Consistent(c) && i < j < |es|
    requires es[i].PuttingIf? && IsCas(es[j]) && es[i].key == es[j].key && es[i].expected == es[j].expected
    requires 0 < es[i].expected <= At(c, es, i).counter
    requires !Succeeds(At(c, es, i), es[i])
    requires es[i].key in At(c, es, i).data ==> Live(At(c, es, i), es[i].key, es[i].t2)
    requires forall n :: i <= n < j ==> Undisturbed(At(c, es, n), es[n], es[i].key)
    ensures Succeeds(At(c, es, j), es[j]) <==> FindsExpired(At(c, es, j), es[j])
  {
    RunKeepsConsistent(c, es, i);
    assert Guarded(At(c, es, i), es[i].key, es[i].expected);
    GuardedPersists(c, es, i, j, es[i].key, es[i].expected);
    RunKeepsConsistent(c, es, j);
    GuardedRefuses(At(c, es, j), es[j], es[i].key, es[i].expected);
  }

  /** The exception: an unordered put refused by a live key succeeds once the key is deleted. */
  lemma ZeroMayMatchLater()
    ensures exists es: seq<Event> ::
              && |es| == 4 && es[1].PuttingIf? && es[1] == es[3] && es[1].expected == 0
              && !Succeeds(At(EMPTY, es, 1), es[1]) && Succeeds(At(EMPTY, es, 3), es[3])
              && forall i :: 0 <= i < 4 ==> Undisturbed(At(EMPTY, es, i), es[i], es[1].key)
  {
    var put := PuttingIf("k", [], 0, 0, 0, 0, 0);
    var es := [put, put, DeletingIf("k", 2, 0, 0), put];
    assert At(EMPTY, es, 0) == EMPTY;
    AtNext(EMPTY, es, 0);
    AtNext(EMPTY, es, 1);
    AtNext(EMPTY, es, 2);
    assert At(EMPTY, es, 1).versions["k"] == 2;
  }

  /** Nothing happened to `k`: reads, refused conditional events, expiry, and events on other keys. */
  predicate Quiet(c: Cache, e: Event, k: Key) {
    match e
    case Reading(_, _, _) => true
    case PuttingIf(k', _, _, _, _, _, _) => k' != k || !Succeeds(c, e)
    case DeletingIf(k', _, _, _) => k' != k || !Succeeds(c, e)
    case Putting(k', _, _, _) => k' != k
    case Deleting(k') => k' != k
    case Expiring(_, _) => true
    case Closing => false
  }

  /** `k` is absent from time `t` on and no fence is newer than `token`. */
  predicate AbsentSince(c: Cache, k: Key, t: int, token: nat) {
    !Live(c, k, t) && (k in c.fences ==> c.fences[k] <= token)
  }

  lemma AbsenceStep(c: Cache, e: Event, k: Key, t: int, token: nat)
    requires AbsentSince(c, k, t, token) && Quiet(c, e, k)
    ensures AbsentSince(Next(c, e), k, t, token)
  {
  }

  lemma {:induction false} AbsencePersists(c: Cache, es: seq<Event>, i: nat, j: nat, k: Key, t: int, token: nat)
    requires i <= j <= |es|
    requires AbsentSince(At(c, es, i), k, t, token)
    requires forall n :: i <= n < j ==> Quiet(At(c, es, n), es[n], k)
    ensures AbsentSince(At(c, es, j), k, t, token)
    decreases j - i
  {
    if i < j {
      AbsencePersists(c, es, i, j - 1, k, t, token);
      AtNext(c, es, j - 1);
      AbsenceStep(At(c, es, j - 1), es[j - 1], k, t, token);
    }
  }

  /** The other half of the ordering: with nothing done to the key since the
      absent read, the put carrying its token succeeds. */
  lemma TokenAdmittedWhenQuiet(c: Cache, es: seq<Event>, r: nat, j: nat)
    requires r < j < |es|
    requires es[r].Reading? && !Read(At(c, es, r), es[r].key, es[r].t1, es[r].t2).2
    requires es[j].PuttingIf? && es[j].key == es[r].key && es[r].t1 <= es[j].t1
    requires es[j].expected == Read(At(c, es, r), es[r].key, es[r].t1, es[r].t2).1
    requires forall n :: r < n < j ==> Quiet(At(c, es, n), es[n], es[r].key)
    ensures Succeeds(At(c, es, j), es[j])
  {
    AtNext(c, es, r);
    AbsencePersists(c, es, r + 1, j, es[r].key, es[r].t1, es[j].expected);
  }

  /** Why plain expiry is excluded: it leaves no fence, so a key deleted, put
      back with a lifetime and expired admits the token from before the delete. */
  lemma ExpiryForgetsTheFence()
    ensures exists es: seq<Event> ::
              && |es| == 4 && es[0].Reading? && es[1].DeletingIf? && es[2].PuttingIf? && es[3].PuttingIf?
              && (forall i :: 0 < i < 4 ==> es[i].key == es[0].key && Succeeds(At(EMPTY, es, i), es[i]))
              && es[3].expected == Read(EMPTY, es[0].key, es[0].t1, es[0].t2).1
  {
    var es := [Reading("k", 0, 0), DeletingIf("k", 0, 1, 1), PuttingIf("k", [], 5, 0, 2, 2, 2), PuttingIf("k", [], 0, 2, 9, 9, 9)];
    assert At(EMPTY, es, 0) == EMPTY;
    AtNext(EMPTY, es, 0);
    AtNext(EMPTY, es, 1);
    AtNext(EMPTY, es, 2);
    assert At(EMPTY, es, 1).counter == 2;
  }

  // ---- Stamps name values ----

  /** If `k` carries stamp `v` it holds `bytes`; `v` is issued and fences nothing of `k`. */
  predicate Names(c: Cache, k: Key, v: nat, bytes: Bytes) {
    && v <= c.counter
    && (k in c.versions && c.versions[k] == v ==> k in c.data && c.data[k].value == bytes)
    && (k in c.fences ==> c.fences[k] != v)
  }

  lemma NamesStep(c: Cache, e: Event, k: Key, v: nat, bytes: Bytes)
    requires Consistent(c) && Names(c, k, v, bytes)
    ensures Names(Next(c, e), k, v, bytes)
  {
  }

  lemma {:induction false} NamesPersists(c: Cache, es: seq<Event>, i: nat, j: nat, k: Key, v: nat, bytes: Bytes)
    requires Consistent(c) && i <= j <= |es|
    requires Names(At(c, es, i), k, v, bytes)
    ensures Names(At(c, es, j), k, v, bytes)
    decreases j - i
  {
    if i < j {
      NamesPersists(c, es, i, j - 1, k, v, bytes);
      RunKeepsConsistent(c, es, j - 1);
      NamesStep(At(c, es, j - 1), es[j - 1], k, v, bytes);
      AtNext(c, es, j - 1);
    }
  }

  /** In every run, plain operations and expiry included, a stamp of 2 or more on
      a key always denotes the same bytes. */
  lemma StampNamesOneValue(c: Cache, es: seq<Event>, i: nat, j: nat, k: Key, ti: int, tj: int)
    requires Consistent(c) && i <= j <= |es|
    requires EffectiveVersion(At(c, es, i), k, ti) == EffectiveVersion(At(c, es, j), k, tj) >= 2
    ensures k in At(c, es, i).data && k in At(c, es, j).data
    ensures At(c, es, i).data[k].value == At(c, es, j).data[k].value
  {
    RunsKeepConsistent(c, es, i, j);
    NamesPersists(c, es, i, j, k, At(c, es, i).versions[k], At(c, es, i).data[k].value);
  }

  /** So the version a put returned names its bytes ever after: whoever is shown the version
      later, over any run, is shown the bytes that were put. */
  lemma VersionNamesWhatWasPut(c: Cache, es: seq<Event>, i: nat, j: nat, tj: int)
    requires Consistent(c) && i < j <= |es| && es[i].PuttingIf? && Succeeds(At(c, es, i), es[i])
    requires EffectiveVersion(At(c, es, j), es[i].key, tj) == At(c, es, i).counter + 1
    ensures es[i].key in At(c, es, j).data && At(c, es, j).data[es[i].key].value == es[i].value
  {
    var k, v := es[i].key, At(c, es, i).counter + 1;
    RunKeepsConsistent(c, es, i);
    RunKeepsConsistent(c, es, j);
    AtNext(c, es, i);
    assert Names(At(c, es, i + 1), k, v, es[i].value);
    NamesPersists(c, es, i + 1, j, k, v, es[i].value);
  }

  /** The token `v` was handed out for `k` and no value of `k` carries it. */
  predicate Spent(c: Cache, k: Key, v: nat) {
    v <= c.counter && (k in c.versions ==> c.versions[k] != v)
  }

  lemma SpentStep(c: Cache, e: Event, k: Key, v: nat)
    requires Consistent(c) && Spent(c, k, v)
    ensures Spent(Next(c, e), k, v)
  {
  }

  lemma {:induction false} SpentPersists(c: Cache, es: seq<Event>, i: nat, j: nat, k: Key, v: nat)
    requires Consistent(c) && i <= j <= |es|
    requires Spent(At(c, es, i), k, v)
    ensures Spent(At(c, es, j), k, v)
    decreases j - i
  {
    if i < j {
      SpentPersists(c, es, i, j - 1, k, v);
      RunKeepsConsistent(c, es, j - 1);
      SpentStep(At(c, es, j - 1), es[j - 1], k, v);
      AtNext(c, es, j - 1);
    }
  }

  /** An absence token never equals a version the key shows live, before the read or after it, in any run. */
  lemma TokenIsNeverALiveVersion(c: Cache, es: seq<Event>, r: nat, j: nat, t: int)
    requires Consistent(c) && r < |es| && j <= |es|
    requires es[r].Reading? && !Read(At(c, es, r), es[r].key, es[r].t1, es[r].t2).2
    requires Live(At(c, es, j), es[r].key, t)
    ensures EffectiveVersion(At(c, es, j), es[r].key, t) != Read(At(c, es, r), es[r].key, es[r].t1, es[r].t2).1
  {
    var k := es[r].key;
    var token := Read(At(c, es, r), k, es[r].t1, es[r].t2).1;
    var cr, cj := At(c, es, r), At(c, es, j);
    RunKeepsConsistent(c, es, r);
    RunKeepsConsistent(c, es, j);
    if EffectiveVersion(cj, k, t) == VERSION_LEGACY {
      assert token > VERSION_LEGACY;
    } else if j <= r {
      RunsKeepConsistent(c, es, j, r);
      NamesPersists(c, es, j, r, k, cj.versions[k], cj.data[k].value);
    } else {
      AtNext(c, es, r);
      assert Spent(At(c, es, r + 1), k, token);
      SpentPersists(c, es, r + 1, j, k, token);
    }
  }

  /** A live read reports version 0 exactly when the entry expires between its
      two clock readings; otherwise it reports at least the legacy version. */
  lemma LiveReadVersion(c: Cache, k: Key, t1: int, t2: int)
    requires Read(c, k, t1, t2).2
    ensures Read(c, k, t1, t2).1 == 0 <==> c.data[k].expiresAt.Some? && c.data[k].expiresAt.value <= t2
    ensures Read(c, k, t1, t2).1 != 0 ==> Read(c, k, t1, t2).1 >= VERSION_LEGACY
  {
  }
}
