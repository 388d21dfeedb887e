/** The version-stamp source of storage/cas.go: concurrent callers of nextVersion
    as threads whose atomic steps interleave, an arbitrary clock, failed durable
    writes, crashes and restarts. */
module Stamps {
  import opened Rows

  type Tid = nat

  /** How far each durable reservation extends past the stamp that needed it. */
  const BLOCK: nat := 60_000_000_000

  /** Where a caller is between two of its atomic steps. */
  datatype Pc =
    | Idle
    | Chosen(last: nat, next: nat)               // read the clock and the last stamp
    | Waiting(last: nat, next: nat)              // above the ceiling, wants the lock
    | Holding(last: nat, next: nat)              // has the lock
    | Persisted(last: nat, next: nat)            // reservation durable, not yet published
    | Ready(last: nat, next: nat)                // about to compare and swap

  datatype State = State(
    lastVersion: nat,
    versionHi: nat,
    lock: Option<Tid>,
    durableHi: nat,                              // the row that survives a crash
    threads: map<Tid, Pc>,
    issued: seq<nat>)                            // every stamp ever handed out, in order

  const INIT := State(0, 0, None, 0, map[], [])

  datatype Action =
    | Choose(t: Tid, now: nat)
    | CompareCeiling(t: Tid)
    | Lock(t: Tid)
    | Extend(t: Tid)
    | ExtendFails(t: Tid, landed: bool)          // a failed write may or may not have reached the disk
    | Publish(t: Tid)
    | Swap(t: Tid)
    | Crash

  function PcOf(s: State, t: Tid): Pc {
    if t in s.threads then s.threads[t] else Idle
  }

  function Go(s: State, t: Tid, pc: Pc): State {
    s.(threads := s.threads[t := pc])
  }

  /** One atomic step; an action that is not enabled does nothing. */
  function Step(s: State, a: Action): State {
    match a
    case Choose(t, now) =>
      if PcOf(s, t) != Idle then s
      else Go(s, t, Chosen(s.lastVersion, if now <= s.lastVersion then s.lastVersion + 1 else now))
    case CompareCeiling(t) =>
      (match PcOf(s, t)
       case Chosen(last, next) => Go(s, t, if next > s.versionHi then Waiting(last, next) else Ready(last, next))
       case _ => s)
    case Lock(t) =>
      (match PcOf(s, t)
       case Waiting(last, next) => if s.lock.Some? then s else Go(s, t, Holding(last, next)).(lock := Some(t))
       case _ => s)
    case Extend(t) =>
      (match PcOf(s, t)
       case Holding(last, next) =>
         if next <= s.versionHi then Go(s, t, Ready(last, next)).(lock := None)
         else Go(s, t, Persisted(last, next)).(durableHi := next + BLOCK)
       case _ => s)
    case ExtendFails(t, landed) =>
      (match PcOf(s, t)
       case Holding(last, next) =>
         if next <= s.versionHi then s
         else Go(s, t, Idle).(lock := None, durableHi := if landed then next + BLOCK else s.durableHi)
       case _ => s)
    case Publish(t) =>
      (match PcOf(s, t)
       case Persisted(last, next) => Go(s, t, Ready(last, next)).(lock := None, versionHi := next + BLOCK)
       case _ => s)
    case Swap(t) =>
      (match PcOf(s, t)
       case Ready(last, next) =>
         if s.lastVersion == last then Go(s, t, Idle).(lastVersion := next, issued := s.issued + [next])
         else Go(s, t, Idle)
       case _ => s)
    case Crash => State(s.durableHi, s.durableHi, None, s.durableHi, map[], s.issued)
  }

  function After(s: State, run: seq<Action>): State {
    if run == [] then s else Step(After(s, run[..|run| - 1]), run[|run| - 1])
  }

  ghost predicate PcOk(s: State, t: Tid) {
    match PcOf(s, t)
    case Idle => s.lock != Some(t)
    case Chosen(last, next) => last < next && s.lock != Some(t)
    case Waiting(last, next) => last < next && s.lock != Some(t)
    case Holding(last, next) => last < next && s.lock == Some(t)
    case Persisted(last, next) => last < next && s.lock == Some(t) && s.versionHi < next && next + BLOCK <= s.durableHi
    case Ready(last, next) => last < next <= s.versionHi && s.lock != Some(t)
  }

  /** The stamps handed out increase and are covered. */
  ghost predicate IssuedOk(s: State) {
    && (forall i :: 0 <= i < |s.issued| ==> s.issued[i] <= s.lastVersion && s.issued[i] <= s.versionHi)
    && (forall i, j :: 0 <= i < j < |s.issued| ==> s.issued[i] < s.issued[j])
  }

  /** The published ceiling never passes the durable one, and both cover every stamp handed out. */
  ghost predicate Inv(s: State) {
    s.versionHi <= s.durableHi && IssuedOk(s) && forall t: Tid :: PcOk(s, t)
  }

  lemma StepKeepsIssued(s: State, a: Action)
    requires s.versionHi <= s.durableHi && IssuedOk(s) && (!a.Crash? ==> PcOk(s, a.t))
    ensures Step(s, a).versionHi <= Step(s, a).durableHi && IssuedOk(Step(s, a))
  {
  }

  lemma OwnPcOk(s: State, a: Action)
    requires !a.Crash? && PcOk(s, a.t)
    ensures PcOk(Step(s, a), a.t)
  {
  }

  lemma OtherPcOk(s: State, a: Action, t: Tid)
    requires !a.Crash? && t != a.t && PcOk(s, a.t) && PcOk(s, t)
    ensures PcOk(Step(s, a), t)
  {
  }

  lemma StepKeepsInv(s: State, a: Action)
    requires Inv(s)
    ensures Inv(Step(s, a))
  {
    hide IssuedOk, PcOk, Step;
    if !a.Crash? {
      assert PcOk(s, a.t);
      OwnPcOk(s, a);
    }
    StepKeepsIssued(s, a);
    forall t: Tid ensures PcOk(Step(s, a), t) {
      if a.Crash? {
        CrashPcOk(s, t);
      } else if t != a.t {
        OtherPcOk(s, a, t);
      }
    }
  }

  lemma CrashPcOk(s: State, t: Tid)
    ensures PcOk(Step(s, Crash), t)
  {
  }

  lemma {:induction false} RunFromKeepsInv(s: State, run: seq<Action>)
    requires Inv(s)
    ensures Inv(After(s, run))
  {
    hide Inv, Step;
    if run != [] {
      RunFromKeepsInv(s, run[..|run| - 1]);
      StepKeepsInv(After(s, run[..|run| - 1]), run[|run| - 1]);
    }
  }

  lemma {:induction false} RunKeepsInv(run: seq<Action>)
    ensures Inv(After(INIT, run))
  {
    RunFromKeepsInv(INIT, run);
  }

  /** Over any interleaving, any clock and any number of crashes, the stamps
      handed out strictly increase, and the durable ceiling covers them all. */
  lemma {:induction false} StampsStrictlyIncrease(run: seq<Action>, i: nat, j: nat)
    requires i < j < |After(INIT, run).issued|
    ensures After(INIT, run).issued[i] < After(INIT, run).issued[j] <= After(INIT, run).durableHi
  {
    RunKeepsInv(run);
  }

  // ---- Which stamp a caller gets ----

  /** The stamp a caller chooses: its clock reading, unless that was passed already. */
  function Max(a: nat, b: nat): nat {
    if a >= b then a else b
  }

  /** The steps of one caller; those that do not apply do nothing. */
  function Call(t: Tid, now: nat): seq<Action> {
    [Choose(t, now), CompareCeiling(t), Lock(t), Extend(t), Publish(t), Swap(t)]
  }

  function AfterCall(s: State, t: Tid, now: nat): State {
    var s1 := Step(Step(s, Choose(t, now)), CompareCeiling(t));
    var s2 := Step(Step(Step(s1, Lock(t)), Extend(t)), Publish(t));
    Step(s2, Swap(t))
  }

  lemma {:induction false} CallIs(s: State, t: Tid, now: nat)
    ensures After(s, Call(t, now)) == AfterCall(s, t, now)
  {
    var c := Call(t, now);
    assert c[..5][..4] == c[..4] && c[..4][..3] == c[..3] && c[..3][..2] == c[..2] && c[..2][..1] == c[..1] && c[..1][..0] == [];
    assert After(s, c[..1]) == Step(s, c[0]);
    assert After(s, c[..2]) == Step(After(s, c[..1]), c[1]);
    assert After(s, c[..3]) == Step(After(s, c[..2]), c[2]);
    assert After(s, c[..4]) == Step(After(s, c[..3]), c[3]);
    assert After(s, c[..5]) == Step(After(s, c[..4]), c[4]);
  }

  /** A caller that runs alone is issued the greater of its clock reading and one past the last
      stamp, with the ceiling raised first if need be. */
  lemma {:induction false} CallIssues(run: seq<Action>, t: Tid, now: nat)
    requires var s := After(INIT, run); PcOf(s, t).Idle? && (s.lock.None? || Max(now, s.lastVersion + 1) <= s.versionHi)
    ensures var s, s' := After(INIT, run), After(After(INIT, run), Call(t, now));
            && s'.issued == s.issued + [Max(now, s.lastVersion + 1)]
            && s'.lastVersion == Max(now, s.lastVersion + 1) <= s'.durableHi
            && (if Max(now, s.lastVersion + 1) <= s.versionHi then s'.durableHi == s.durableHi && s'.versionHi == s.versionHi
                else s'.durableHi == s'.versionHi == Max(now, s.lastVersion + 1) + 60_000_000_000)
            && PcOf(s', t).Idle? && s'.lock == s.lock
  {
    hide Step, Inv;
    RunKeepsInv(run);
    var s := After(INIT, run);
    CallIs(s, t, now);
    var last, next := s.lastVersion, Max(now, s.lastVersion + 1);
    ChooseIs(s, t, now);
    var s1 := Step(Step(s, Choose(t, now)), CompareCeiling(t));
    RaiseIs(s1, t, last, next, s.lock);
    SwapIs(Step(Step(Step(s1, Lock(t)), Extend(t)), Publish(t)), t, last, next);
    RunFromKeepsInv(s, Call(t, now));
    LastIsCovered(After(s, Call(t, now)));
  }

  lemma ChooseIs(s: State, t: Tid, now: nat)
    requires PcOf(s, t).Idle?
    ensures var next := Max(now, s.lastVersion + 1);
            var s' := Step(Step(s, Choose(t, now)), CompareCeiling(t));
            && s' == s.(threads := s'.threads)
            && PcOf(s', t) == if next > s.versionHi then Waiting(s.lastVersion, next) else Ready(s.lastVersion, next)
  {
  }

  /** The ceiling is raised only when the stamp is above it, and then before it is used. */
  lemma RaiseIs(s: State, t: Tid, last: nat, next: nat, lock: Option<Tid>)
    requires s.lock == lock && PcOf(s, t) == if next > s.versionHi then Waiting(last, next) else Ready(last, next)
    requires lock.None? || next <= s.versionHi
    ensures var s' := Step(Step(Step(s, Lock(t)), Extend(t)), Publish(t));
            && s'.lastVersion == s.lastVersion && s'.issued == s.issued && s'.lock == lock
            && PcOf(s', t) == Ready(last, next) && next <= s'.versionHi
            && (if next <= s.versionHi then s'.durableHi == s.durableHi && s'.versionHi == s.versionHi
                else s'.durableHi == s'.versionHi == next + 60_000_000_000)
  {
  }

  lemma SwapIs(s: State, t: Tid, last: nat, next: nat)
    requires PcOf(s, t) == Ready(last, next) && s.lastVersion == last
    ensures var s' := Step(s, Swap(t));
            && s'.issued == s.issued + [next] && s'.lastVersion == next && PcOf(s', t).Idle? && s'.lock == s.lock
            && s'.durableHi == s.durableHi && s'.versionHi == s.versionHi
  {
  }

  lemma LastIsCovered(s: State)
    requires Inv(s) && s.issued != [] && s.lastVersion == s.issued[|s.issued| - 1]
    ensures s.lastVersion <= s.durableHi
  {
  }

  /** The first stamp after a restart is past everything reserved before it. */
  lemma {:induction false} RestartIssuesAboveCeiling(run: seq<Action>, t: Tid, now: nat)
    ensures var s := After(INIT, run);
            After(After(INIT, run + [Crash]), Call(t, now)).issued == s.issued + [Max(now, s.durableHi + 1)]
  {
    assert (run + [Crash])[..|run|] == run;
    CallIssues(run + [Crash], t, now);
  }

  /** A caller under way chose its stamp at some step of the run, from the clock it read and the
      last stamp of that moment. */
  lemma {:induction false} ChosenFromTheClock(run: seq<Action>, t: Tid) returns (i: nat)
    requires !PcOf(After(INIT, run), t).Idle?
    ensures i < |run| && run[i].Choose? && run[i].t == t
    ensures var pc := PcOf(After(INIT, run), t);
            pc.last == After(INIT, run[..i]).lastVersion && pc.next == Max(run[i].now, pc.last + 1)
  {
    var init, a := run[..|run| - 1], run[|run| - 1];
    var s := After(INIT, init);
    if PcOf(s, t).Idle? {
      assert a.Choose? && a.t == t;
      i := |run| - 1;
    } else {
      KeepsChoice(s, a, t);
      i := ChosenFromTheClock(init, t);
      assert init[..i] == run[..i];
    }
  }

  lemma KeepsChoice(s: State, a: Action, t: Tid)
    requires !PcOf(s, t).Idle? && !PcOf(Step(s, a), t).Idle?
    ensures PcOf(Step(s, a), t).last == PcOf(s, t).last && PcOf(Step(s, a), t).next == PcOf(s, t).next
  {
  }

  /** Every stamp is at least the clock its caller read: with all readings at `floor` or later no
      stamp is below it, so none can be mistaken for the legacy version. */
  lemma {:induction false} StampsFollowTheClock(run: seq<Action>, floor: nat)
    requires forall i :: 0 <= i < |run| && run[i].Choose? ==> run[i].now >= floor
    ensures forall i :: 0 <= i < |After(INIT, run).issued| ==> After(INIT, run).issued[i] >= floor
  {
    if run != [] {
      var init, a := run[..|run| - 1], run[|run| - 1];
      var s := After(INIT, init);
      StampsFollowTheClock(init, floor);
      if a.Swap? && !PcOf(s, a.t).Idle? {
        var i := ChosenFromTheClock(init, a.t);
        assert run[i].Choose?;
      }
    }
  }

  /** The history only grows, so a stamp handed out later, in this process or a
      restarted one, exceeds every stamp handed out before it. */
  lemma {:induction false} HistoryGrows(run: seq<Action>, more: seq<Action>)
    ensures After(INIT, run).issued <= After(INIT, run + more).issued
  {
    if more == [] {
      assert run + more == run;
    } else {
      var shorter := more[..|more| - 1];
      assert (run + more)[..|run + more| - 1] == run + shorter;
      HistoryGrows(run, shorter);
    }
  }
}
