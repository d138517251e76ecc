/** Scheduler instances that poll one store under an optional distributed lock.
    checkAndEnqueue is cut at its store, queue and lock calls, so that any number of
    instances interleave; the result is exactly when two automatic enqueues of one
    schedule are always more than its interval apart. Times are nanoseconds. */
module Scheduler {
  import opened Wrappers

  /** The scheduling part of a ScheduledTask row. */
  datatype Row = Row(interval: int, enabled: bool, nextRun: int, lastRun: Option<int>, lastError: string)

  /** A row as it was read. */
  datatype Item = Item(id: string, row: Row)

  /** The parts of SchedulerConfig that decide about locking. */
  datatype Config = Config(hasLock: bool, lockRequired: bool)

  /** NewScheduler: a configured lock is always required. */
  predicate LockRequired(c: Config) {
    if c.hasLock && !c.lockRequired then true else c.lockRequired
  }

  predicate IsDue(r: Row, now: int) {
    r.enabled && now > r.nextRun
  }

  /** UpdateNextRun, with the error text UpdateLastRun stores along. */
  function UpdateNextRun(r: Row, now: int, err: string): Row {
    r.(lastRun := Some(now), nextRun := now + r.interval, lastError := err)
  }

  /** Where an instance is in checkAndEnqueue: outside, past the lock, in the loop
      over the rows it read, or between an enqueue attempt and UpdateLastRun. */
  datatype Phase =
    | Idle
    | Entered
    | Looping(rest: seq<Item>)
    | Attempted(rest: seq<Item>, err: string)

  datatype Entry = Entry(id: string, at: int, instance: nat)

  datatype State = State(
    now: int,
    rows: map<string, Row>,
    holder: Option<nat>,
    phases: seq<Phase>,
    log: seq<Entry>)

  datatype Event =
    | Tick(now: int)
    | Begin(i: nat, lockError: bool)
    | Read(i: nat, due: seq<Item>)
    | ReadError(i: nat)
    | Turn(i: nat, ok: bool)
    | Update(i: nat)
    | Lost(i: nat)
    | Finish(i: nat)

  predicate DistinctIds(items: seq<Item>) {
    forall a, b :: 0 <= a < b < |items| ==> items[a].id != items[b].id
  }

  /** GetDueScheduledTasks: each enabled row whose time has come, once, in some order. */
  ghost predicate IsDueList(rows: map<string, Row>, now: int, due: seq<Item>) {
    && DistinctIds(due)
    && (forall x :: x in due <==> x.id in rows && rows[x.id] == x.row && x.row.enabled && x.row.nextRun <= now)
  }

  ghost predicate Enabled(cfgs: seq<Config>, s: State, e: Event) {
    && |s.phases| == |cfgs|
    && (e.Tick? ==> e.now >= s.now)
    && (!e.Tick? ==>
          && e.i < |cfgs|
          && match e
             case Begin(i, _) => s.phases[i].Idle?
             case Read(i, due) => s.phases[i].Entered? && IsDueList(s.rows, s.now, due)
             case ReadError(i) => s.phases[i].Entered?
             case Turn(i, _) => s.phases[i].Looping? && s.phases[i].rest != []
             case Update(i) => s.phases[i].Attempted? && s.phases[i].rest != []
             case Lost(i) => s.phases[i].Attempted? && s.phases[i].rest != []
             case Finish(i) => s.phases[i].Looping? && s.phases[i].rest == [])
  }

  /** Leave checkAndEnqueue; the deferred release frees the lock if it is ours. */
  function Leave(s: State, i: nat): State
    requires i < |s.phases|
  {
    s.(holder := if s.holder == Some(i) then None else s.holder, phases := s.phases[i := Idle])
  }

  function At(s: State, i: nat, p: Phase): State
    requires i < |s.phases|
  {
    s.(phases := s.phases[i := p])
  }

  function BeginStep(c: Config, s: State, i: nat, lockError: bool): State
    requires i < |s.phases|
  {
    if !c.hasLock then At(s, i, Entered)
    else if lockError then (if LockRequired(c) then s else At(s, i, Entered))
    else if s.holder.Some? then s
    else At(s.(holder := Some(i)), i, Entered)
  }

  function TurnStep(s: State, i: nat, ok: bool): State
    requires i < |s.phases| && s.phases[i].Looping? && s.phases[i].rest != []
  {
    var rest := s.phases[i].rest;
    if !rest[0].row.enabled || !IsDue(rest[0].row, s.now) then At(s, i, Looping(rest[1..]))
    else if ok then At(s.(log := s.log + [Entry(rest[0].id, s.now, i)]), i, Attempted(rest, ""))
    else At(s, i, Attempted(rest, FAILED))
  }

  function UpdateStep(s: State, i: nat): State
    requires i < |s.phases| && s.phases[i].Attempted? && s.phases[i].rest != []
  {
    var p := s.phases[i];
    var id := p.rest[0].id;
    var rows := if id in s.rows then s.rows[id := UpdateNextRun(s.rows[id], s.now, p.err)] else s.rows;
    At(s.(rows := rows), i, Looping(p.rest[1..]))
  }

  /** UpdateLastRun fails, which is logged and passed over. */
  function LostStep(s: State, i: nat): State
    requires i < |s.phases| && s.phases[i].Attempted? && s.phases[i].rest != []
  {
    At(s, i, Looping(s.phases[i].rest[1..]))
  }

  ghost function Step(cfgs: seq<Config>, s: State, e: Event): State
    requires Enabled(cfgs, s, e)
  {
    match e
    case Tick(now) => s.(now := now)
    case Begin(i, lockError) => BeginStep(cfgs[i], s, i, lockError)
    case Read(i, due) => At(s, i, Looping(due))
    case ReadError(i) => Leave(s, i)
    case Turn(i, ok) => TurnStep(s, i, ok)
    case Update(i) => UpdateStep(s, i)
    case Lost(i) => LostStep(s, i)
    case Finish(i) => Leave(s, i)
  }

  /** The state after a run, None if some event was not possible. */
  ghost function Run(cfgs: seq<Config>, s: State, es: seq<Event>): Option<State>
    decreases |es|
  {
    if es == [] then Some(s)
    else if Enabled(cfgs, s, es[0]) then Run(cfgs, Step(cfgs, s, es[0]), es[1..])
    else None
  }

  /** Nobody inside, nobody holding the lock, nothing enqueued. */
  predicate Initial(cfgs: seq<Config>, s: State) {
    |s.phases| == |cfgs| && (forall i :: 0 <= i < |cfgs| ==> s.phases[i].Idle?) && s.holder.None? && s.log == []
  }

  // ---- the lock ----------------------------------------------------------

  /** An instance that has a lock configured is inside exactly while it holds it. */
  predicate LockDiscipline(cfgs: seq<Config>, s: State) {
    && |s.phases| == |cfgs|
    && (forall i :: 0 <= i < |cfgs| && cfgs[i].hasLock && !s.phases[i].Idle? ==> s.holder == Some(i))
    && (s.holder.Some? ==> s.holder.value < |cfgs| && cfgs[s.holder.value].hasLock && !s.phases[s.holder.value].Idle?)
  }

  lemma LockDisciplineKept(cfgs: seq<Config>, s: State, e: Event)
    requires LockDiscipline(cfgs, s) && Enabled(cfgs, s, e)
    ensures LockDiscipline(cfgs, Step(cfgs, s, e))
  {
  }

  lemma {:induction false} LockDisciplineOnRuns(cfgs: seq<Config>, s: State, es: seq<Event>)
    requires LockDiscipline(cfgs, s) && Run(cfgs, s, es).Some?
    ensures LockDiscipline(cfgs, Run(cfgs, s, es).value)
    decreases |es|
  {
    if es != [] {
      LockDisciplineKept(cfgs, s, es[0]);
      LockDisciplineOnRuns(cfgs, Step(cfgs, s, es[0]), es[1..]);
    }
  }

  /** In every reachable state an instance with a lock reads, enqueues and updates
      only while it holds the lock, however other instances are configured. */
  lemma NoWorkWithoutLock(cfgs: seq<Config>, s: State, es: seq<Event>, e: Event)
    requires Initial(cfgs, s) && Run(cfgs, s, es).Some?
    requires Enabled(cfgs, Run(cfgs, s, es).value, e) && (e.Read? || e.Turn? || e.Update? || e.Lost?)
    ensures cfgs[e.i].hasLock ==> Run(cfgs, s, es).value.holder == Some(e.i)
  {
    LockDisciplineOnRuns(cfgs, s, es);
  }

  // ---- spacing -----------------------------------------------------------

  /** Two enqueues of one schedule are more than its interval apart. */
  predicate Spaced(s: State) {
    forall k, l :: 0 <= k < l < |s.log| && s.log[k].id == s.log[l].id ==>
      s.log[k].id in s.rows && s.log[l].at > s.log[k].at + s.rows[s.log[k].id].interval
  }

  /** All instances share the lock, or there is only one instance. */
  predicate Coordinated(cfgs: seq<Config>) {
    |cfgs| <= 1 || forall i :: 0 <= i < |cfgs| ==> cfgs[i].hasLock
  }

  predicate Exclusive(s: State) {
    forall i, j :: 0 <= i < j < |s.phases| ==> s.phases[i].Idle? || s.phases[j].Idle?
  }

  lemma CoordinatedIsExclusive(cfgs: seq<Config>, s: State)
    requires Coordinated(cfgs) && LockDiscipline(cfgs, s)
    ensures Exclusive(s)
  {
  }

  /** The items an instance has still to look at or update. */
  function Rest(p: Phase): seq<Item> {
    match p
    case Looping(rest) => rest
    case Attempted(rest, _) => rest
    case _ => []
  }

  /** What an instance inside knows is still true of the store. */
  predicate Fresh(s: State, p: Phase) {
    && DistinctIds(Rest(p))
    && (forall k :: 0 <= k < |Rest(p)| ==> Rest(p)[k].id in s.rows && s.rows[Rest(p)[k].id] == Rest(p)[k].row)
    && (p.Attempted? ==> p.rest != [])
  }

  /** Some instance has attempted this schedule and not yet moved its next run. */
  predicate UpdateDue(s: State, id: string) {
    exists i :: 0 <= i < |s.phases| && s.phases[i].Attempted? && s.phases[i].rest != [] && s.phases[i].rest[0].id == id
  }

  predicate SpacingInv(s: State) {
    && (forall i :: 0 <= i < |s.phases| ==> Fresh(s, s.phases[i]))
    && (forall k :: 0 <= k < |s.log| ==>
          && s.log[k].id in s.rows
          && s.log[k].at <= s.now
          && (UpdateDue(s, s.log[k].id) || s.rows[s.log[k].id].nextRun >= s.log[k].at + s.rows[s.log[k].id].interval))
    && Spaced(s)
  }

  /** Moving an instance between phases that attempt nothing keeps the invariant. */
  lemma PhaseMove(s: State, t: State, i: nat, p: Phase)
    requires SpacingInv(s) && i < |s.phases| && !s.phases[i].Attempted? && !p.Attempted? && Fresh(s, p)
    requires t.now >= s.now && t.rows == s.rows && t.log == s.log && t.phases == s.phases[i := p]
    ensures SpacingInv(t)
  {
    forall id | UpdateDue(s, id) ensures UpdateDue(t, id) {
      var j :| 0 <= j < |s.phases| && s.phases[j].Attempted? && s.phases[j].rest != [] && s.phases[j].rest[0].id == id;
      assert t.phases[j] == s.phases[j];
    }
    forall j | 0 <= j < |t.phases| ensures Fresh(t, t.phases[j]) {
      assert Fresh(s, if j == i then p else s.phases[j]);
    }
  }

  lemma TurnKeepsSpacing(s: State, i: nat, ok: bool)
    requires SpacingInv(s) && Exclusive(s)
    requires i < |s.phases| && s.phases[i].Looping? && s.phases[i].rest != []
    ensures SpacingInv(TurnStep(s, i, ok))
  {
    var rest := s.phases[i].rest;
    var t := TurnStep(s, i, ok);
    assert Fresh(s, s.phases[i]);
    if !rest[0].row.enabled || !IsDue(rest[0].row, s.now) {
      assert Fresh(s, Looping(rest[1..]));
      PhaseMove(s, t, i, Looping(rest[1..]));
    } else {
      assert t.phases[i].Attempted? && t.phases[i].rest[0].id == rest[0].id;
      assert UpdateDue(t, rest[0].id);
      assert forall j :: 0 <= j < |s.phases| && j != i ==> s.phases[j].Idle?;
      forall j | 0 <= j < |t.phases| ensures Fresh(t, t.phases[j]) {
        assert Fresh(s, s.phases[j]);
      }
    }
  }

  lemma UpdateKeepsSpacing(s: State, i: nat)
    requires SpacingInv(s) && Exclusive(s)
    requires i < |s.phases| && s.phases[i].Attempted? && s.phases[i].rest != []
    ensures SpacingInv(UpdateStep(s, i))
  {
    var t := UpdateStep(s, i);
    var rest := s.phases[i].rest;
    assert Fresh(s, s.phases[i]);
    forall j | 0 <= j < |t.phases| ensures Fresh(t, t.phases[j]) {
      assert Fresh(s, s.phases[j]);
      if j == i {
        assert Rest(t.phases[j]) == rest[1..];
        forall k | 0 <= k < |rest[1..]|
          ensures rest[1..][k].id in t.rows && t.rows[rest[1..][k].id] == rest[1..][k].row
        {
          assert rest[0].id != rest[k + 1].id;
        }
      } else {
        assert s.phases[j].Idle?;
      }
    }
    forall id | UpdateDue(s, id) ensures id == rest[0].id {
      var j :| 0 <= j < |s.phases| && s.phases[j].Attempted? && s.phases[j].rest != [] && s.phases[j].rest[0].id == id;
      assert j == i;
    }
  }

  lemma SpacingKept(cfgs: seq<Config>, s: State, e: Event)
    requires SpacingInv(s) && Exclusive(s) && Enabled(cfgs, s, e) && !e.Lost?
    ensures SpacingInv(Step(cfgs, s, e))
  {
    var t := Step(cfgs, s, e);
    match e {
      case Tick(now) =>
        forall i | 0 <= i < |t.phases| ensures Fresh(t, t.phases[i]) { assert Fresh(s, s.phases[i]); }
        forall id | UpdateDue(s, id) ensures UpdateDue(t, id) {}
      case Begin(i, lockError) =>
        assert s.phases[i := s.phases[i]] == s.phases;
        PhaseMove(s, t, i, t.phases[i]);
      case Read(i, due) =>
        forall k | 0 <= k < |due|
          ensures due[k].id in s.rows && s.rows[due[k].id] == due[k].row
        {
          assert due[k] in due;
        }
        PhaseMove(s, t, i, Looping(due));
      case ReadError(i) => PhaseMove(s, t, i, Idle);
      case Turn(i, ok) => TurnKeepsSpacing(s, i, ok);
      case Update(i) => UpdateKeepsSpacing(s, i);
      case Finish(i) => PhaseMove(s, t, i, Idle);
    }
  }

  /** Every UpdateLastRun succeeds. */
  predicate NoneLost(es: seq<Event>) {
    forall k :: 0 <= k < |es| ==> !es[k].Lost?
  }

  lemma {:induction false} SpacingOnRuns(cfgs: seq<Config>, s: State, es: seq<Event>)
    requires Coordinated(cfgs) && LockDiscipline(cfgs, s) && SpacingInv(s) && Run(cfgs, s, es).Some? && NoneLost(es)
    ensures SpacingInv(Run(cfgs, s, es).value)
    decreases |es|
  {
    if es != [] {
      CoordinatedIsExclusive(cfgs, s);
      SpacingKept(cfgs, s, es[0]);
      LockDisciplineKept(cfgs, s, es[0]);
      SpacingOnRuns(cfgs, Step(cfgs, s, es[0]), es[1..]);
    }
  }

  /** Every run without a lost update, from any initial state, keeps enqueues of one
      schedule apart. */
  ghost predicate AlwaysSpaced(cfgs: seq<Config>) {
    forall s, es :: Initial(cfgs, s) && Run(cfgs, s, es).Some? && NoneLost(es) ==> Spaced(Run(cfgs, s, es).value)
  }

  /** Intervals are kept apart on all such runs exactly when the instances are
      coordinated. */
  lemma SpacingIff(cfgs: seq<Config>)
    ensures AlwaysSpaced(cfgs) <==> Coordinated(cfgs)
  {
    if Coordinated(cfgs) {
      forall s, es | Initial(cfgs, s) && Run(cfgs, s, es).Some? && NoneLost(es) ensures Spaced(Run(cfgs, s, es).value) {
        SpacingOnRuns(cfgs, s, es);
      }
    } else {
      var i :| 0 <= i < |cfgs| && !cfgs[i].hasLock;
      DoubleEnqueue(cfgs, i, if i == 0 then 1 else 0);
    }
  }

  const DUE_ROW := Row(60, true, 0, None, "")
  const DUE := [Item("document-sync", DUE_ROW)]

  /** Both instances pass the lock: the first has none to take, so it is free. */
  lemma {:induction false} BothEnter(cfgs: seq<Config>, s: State, i: nat, j: nat) returns (s1: State, s2: State)
    requires i < |cfgs| && j < |cfgs| && i != j && !cfgs[i].hasLock
    requires |s.phases| == |cfgs| && s.phases[i].Idle? && s.phases[j].Idle? && s.holder == None
    ensures Enabled(cfgs, s, Begin(i, false)) && s1 == Step(cfgs, s, Begin(i, false))
    ensures Enabled(cfgs, s1, Begin(j, false)) && s2 == Step(cfgs, s1, Begin(j, false))
    ensures |s2.phases| == |cfgs| && s2.phases[i].Entered? && s2.phases[j].Entered?
    ensures s2.rows == s.rows && s2.log == s.log && s2.now == s.now
  {
    s1 := Step(cfgs, s, Begin(i, false));
    s2 := Step(cfgs, s1, Begin(j, false));
  }

  /** Both read the same due row. */
  lemma {:induction false} BothRead(cfgs: seq<Config>, s: State, i: nat, j: nat) returns (s1: State, s2: State)
    requires i < |cfgs| && j < |cfgs| && i != j && |s.phases| == |cfgs| && s.phases[i].Entered? && s.phases[j].Entered?
    requires s.rows == map["document-sync" := DUE_ROW] && s.now == 1
    ensures Enabled(cfgs, s, Read(i, DUE)) && s1 == Step(cfgs, s, Read(i, DUE))
    ensures Enabled(cfgs, s1, Read(j, DUE)) && s2 == Step(cfgs, s1, Read(j, DUE))
    ensures |s2.phases| == |cfgs| && s2.phases[i] == Looping(DUE) && s2.phases[j] == Looping(DUE)
    ensures s2.rows == s.rows && s2.log == s.log && s2.now == s.now
  {
    assert DUE[0] == Item("document-sync", DUE_ROW);
    assert IsDueList(s.rows, 1, DUE);
    s1 := Step(cfgs, s, Read(i, DUE));
    s2 := Step(cfgs, s1, Read(j, DUE));
  }

  /** Both enqueue it. */
  lemma {:induction false} BothEnqueue(cfgs: seq<Config>, s: State, i: nat, j: nat) returns (s1: State, s2: State)
    requires i < |cfgs| && j < |cfgs| && i != j && |s.phases| == |cfgs| && s.now == 1
    requires s.phases[i] == Looping(DUE) && s.phases[j] == Looping(DUE)
    ensures Enabled(cfgs, s, Turn(i, true)) && s1 == Step(cfgs, s, Turn(i, true))
    ensures Enabled(cfgs, s1, Turn(j, true)) && s2 == Step(cfgs, s1, Turn(j, true))
    ensures s2.log == s.log + [Entry("document-sync", 1, i), Entry("document-sync", 1, j)] && s2.rows == s.rows
  {
    assert DUE != [] && DUE[0] == Item("document-sync", DUE_ROW);
    s1 := Step(cfgs, s, Turn(i, true));
    s2 := Step(cfgs, s1, Turn(j, true));
    assert s1.log == s.log + [Entry("document-sync", 1, i)];
    assert s2.log == s1.log + [Entry("document-sync", 1, j)];
  }

  /** One instance without the lock beside any other: both read a due schedule before
      either moves its next run, and it is enqueued twice at the same moment. */
  lemma {:induction false} DoubleEnqueue(cfgs: seq<Config>, i: nat, j: nat)
    requires i < |cfgs| && j < |cfgs| && i != j && !cfgs[i].hasLock
    ensures exists s, es :: Initial(cfgs, s) && Run(cfgs, s, es).Some? && NoneLost(es)
              && !Spaced(Run(cfgs, s, es).value)
  {
    var s0 := State(1, map["document-sync" := DUE_ROW], None, AllIdle(|cfgs|), []);
    var es := [Begin(i, false), Begin(j, false), Read(i, DUE), Read(j, DUE), Turn(i, true), Turn(j, true)];
    var s1, s2 := BothEnter(cfgs, s0, i, j);
    var s3, s4 := BothRead(cfgs, s2, i, j);
    var s5, s6 := BothEnqueue(cfgs, s4, i, j);
    SixSteps(cfgs, s0, es, s1, s2, s3, s4, s5, s6);
    assert s6.log[0] == Entry("document-sync", 1, i) && s6.log[1] == Entry("document-sync", 1, j);
    assert !Spaced(s6);
  }

  lemma {:induction false} SixSteps(cfgs: seq<Config>, s0: State, es: seq<Event>, s1: State, s2: State, s3: State,
                                    s4: State, s5: State, s6: State)
    requires |es| == 6
    requires Enabled(cfgs, s0, es[0]) && s1 == Step(cfgs, s0, es[0])
    requires Enabled(cfgs, s1, es[1]) && s2 == Step(cfgs, s1, es[1])
    requires Enabled(cfgs, s2, es[2]) && s3 == Step(cfgs, s2, es[2])
    requires Enabled(cfgs, s3, es[3]) && s4 == Step(cfgs, s3, es[3])
    requires Enabled(cfgs, s4, es[4]) && s5 == Step(cfgs, s4, es[4])
    requires Enabled(cfgs, s5, es[5]) && s6 == Step(cfgs, s5, es[5])
    ensures Run(cfgs, s0, es) == Some(s6)
  {
    assert Run(cfgs, s6, es[6..]) == Some(s6);
    assert es[5..][1..] == es[6..] && Run(cfgs, s5, es[5..]) == Some(s6);
    assert es[4..][1..] == es[5..] && Run(cfgs, s4, es[4..]) == Some(s6);
    assert es[3..][1..] == es[4..] && Run(cfgs, s3, es[3..]) == Some(s6);
    assert es[2..][1..] == es[3..] && Run(cfgs, s2, es[2..]) == Some(s6);
    assert es[1..][1..] == es[2..] && Run(cfgs, s1, es[1..]) == Some(s6);
  }

  /** A pass of one instance over one due row whose update is lost: the row stays due
      and one more entry is in the log. */
  lemma {:induction false} LossyPass(cfgs: seq<Config>, s: State, i: nat) returns (es: seq<Event>, t: State)
    requires i < |cfgs| == |s.phases| && s.phases[i].Idle? && s.holder == None
    requires s.rows == map["document-sync" := DUE_ROW] && s.now == 1
    ensures Run(cfgs, s, es) == Some(t) && t == s.(log := s.log + [Entry("document-sync", 1, i)])
  {
    assert DUE[0] == Item("document-sync", DUE_ROW) && DUE[1..] == [];
    var s1 := Step(cfgs, s, Begin(i, false));
    assert IsDueList(s1.rows, 1, DUE);
    var s2 := Step(cfgs, s1, Read(i, DUE));
    var s3 := Step(cfgs, s2, Turn(i, true));
    var s4 := Step(cfgs, s3, Lost(i));
    t := Step(cfgs, s4, Finish(i));
    assert t.phases == s.phases;
    es := RunCons(cfgs, s4, Finish(i), []);
    es := RunCons(cfgs, s3, Lost(i), es);
    es := RunCons(cfgs, s2, Turn(i, true), es);
    es := RunCons(cfgs, s1, Read(i, DUE), es);
    es := RunCons(cfgs, s, Begin(i, false), es);
  }

  lemma {:induction false} RunCons(cfgs: seq<Config>, s: State, e: Event, es: seq<Event>) returns (fs: seq<Event>)
    requires Enabled(cfgs, s, e)
    ensures Run(cfgs, s, fs) == Run(cfgs, Step(cfgs, s, e), es)
  {
    fs := [e] + es;
    assert fs[0] == e && fs[1..] == es;
  }

  lemma {:induction false} RunAppend(cfgs: seq<Config>, s: State, es: seq<Event>, fs: seq<Event>)
    requires Run(cfgs, s, es).Some?
    ensures Run(cfgs, s, es + fs) == Run(cfgs, Run(cfgs, s, es).value, fs)
    decreases |es|
  {
    if es == [] {
      assert es + fs == fs;
    } else {
      assert (es + fs)[0] == es[0] && (es + fs)[1..] == es[1..] + fs;
      RunAppend(cfgs, Step(cfgs, s, es[0]), es[1..], fs);
    }
  }

  /** Where an update may be lost no coordination helps: any single instance, with or
      without the lock, then enqueues a schedule twice at one moment. */
  lemma {:induction false} LostUpdateRepeats(cfgs: seq<Config>, i: nat) returns (s: State, es: seq<Event>)
    requires i < |cfgs|
    ensures Initial(cfgs, s) && Run(cfgs, s, es).Some? && !Spaced(Run(cfgs, s, es).value)
  {
    s := State(1, map["document-sync" := DUE_ROW], None, AllIdle(|cfgs|), []);
    var first, t := LossyPass(cfgs, s, i);
    var second, u := LossyPass(cfgs, t, i);
    RunAppend(cfgs, s, first, second);
    es := first + second;
    assert u.log[0].id == u.log[1].id && u.log[0].at == u.log[1].at && u.rows["document-sync"].interval == 60;
  }

  // ---- the code as a run -------------------------------------------------

  lemma {:induction false} RunSnoc(cfgs: seq<Config>, s: State, es: seq<Event>, e: Event)
    requires Run(cfgs, s, es).Some? && Enabled(cfgs, Run(cfgs, s, es).value, e)
    ensures Run(cfgs, s, es + [e]) == Some(Step(cfgs, Run(cfgs, s, es).value, e))
    decreases |es|
  {
    if es == [] {
      assert es + [e] == [e] && [e][1..] == [];
    } else {
      assert (es + [e])[1..] == es[1..] + [e];
      RunSnoc(cfgs, Step(cfgs, s, es[0]), es[1..], e);
    }
  }

  /** The shared store, queue and lock, with the clock that passes meanwhile. */
  class Deployment {
    const cfgs: seq<Config>
    var now: int
    var rows: map<string, Row>
    var holder: Option<nat>
    var log: seq<Entry>
    ghost var phases: seq<Phase>

    constructor (cfgs: seq<Config>, now: int, rows: map<string, Row>)
      ensures this.cfgs == cfgs && Initial(cfgs, View()) && this.now == now && this.rows == rows
    {
      this.cfgs, this.now, this.rows := cfgs, now, rows;
      holder, log := None, [];
      phases := AllIdle(|cfgs|);
    }

    ghost function View(): State
      reads this
    {
      State(now, rows, holder, phases, log)
    }

    /** Any amount of time passes. */
    method Wait(ghost s0: State, ghost es: seq<Event>) returns (ghost es': seq<Event>)
      requires |phases| == |cfgs| && Run(cfgs, s0, es) == Some(View())
      modifies this`now
      ensures Run(cfgs, s0, es') == Some(View()) && now >= old(now)
    {
      var later :| later >= now;
      RunSnoc(cfgs, s0, es, Tick(later));
      es' := es + [Tick(later)];
      now := later;
    }

    /** The due rows, gathered in any order. */
    method GetDueScheduledTasks() returns (due: seq<Item>)
      ensures IsDueList(rows, now, due)
      ensures forall id :: id in rows ==> (Item(id, rows[id]) in due <==> rows[id].enabled && rows[id].nextRun <= now)
    {
      due := [];
      var todo := rows.Keys;
      while todo != {}
        invariant todo <= rows.Keys && DistinctIds(due)
        invariant forall x :: x in due <==>
                    x.id in rows && x.id !in todo && rows[x.id] == x.row && x.row.enabled && x.row.nextRun <= now
        decreases todo
      {
        var id :| id in todo;
        if rows[id].enabled && rows[id].nextRun <= now {
          assert forall x :: x in due ==> x.id != id;
          due := due + [Item(id, rows[id])];
        }
        todo := todo - {id};
      }
    }

    method UpdateLastRun(id: string, err: string)
      modifies this`rows
      ensures rows == if id in old(rows) then old(rows)[id := UpdateNextRun(old(rows)[id], now, err)] else old(rows)
      ensures id in old(rows) ==> Moved(old(rows)[id], rows[id], now, err)
    {
      if id in rows {
        rows := rows[id := UpdateNextRun(rows[id], now, err)];
      }
    }

    /** The lock acquisition at the top of checkAndEnqueue. */
    method TryEnter(i: nat, ghost s0: State) returns (entered: bool, ghost es: seq<Event>)
      requires s0 == View() && |phases| == |cfgs| && i < |cfgs| && phases[i].Idle?
      modifies this`holder, this`phases
      ensures Run(cfgs, s0, es) == Some(View()) && |phases| == |cfgs|
      ensures phases[i] == if entered then Entered else Idle
    {
      var c := cfgs[i];
      var lockError := *;
      es := [Begin(i, lockError)];
      RunSnoc(cfgs, s0, [], Begin(i, lockError));
      assert [] + es == es;
      entered := true;
      if c.hasLock {
        if lockError {
          if LockRequired(c) {
            entered := false;
          }
        } else if holder.Some? {
          entered := false;
        } else {
          holder := Some(i);
        }
      }
      if entered {
        phases := phases[i := Entered];
      }
    }

    method Release(i: nat, ghost s0: State, ghost es: seq<Event>, ghost e: Event) returns (ghost es': seq<Event>)
      requires |phases| == |cfgs| && i < |cfgs| && Run(cfgs, s0, es) == Some(View())
      requires Enabled(cfgs, View(), e) && Step(cfgs, View(), e) == Leave(View(), i)
      modifies this`holder, this`phases
      ensures Run(cfgs, s0, es') == Some(View()) && phases == old(phases)[i := Idle]
    {
      RunSnoc(cfgs, s0, es, e);
      es' := es + [e];
      if holder == Some(i) {
        holder := None;
      }
      phases := phases[i := Idle];
    }

    /** One turn of the loop over the due tasks: a task that is due by now is enqueued,
        which may fail, and its row rescheduled either way, which may fail too. */
    method EnqueueTurn(i: nat, scheduled: Item, ghost rest: seq<Item>, ghost s0: State, ghost es: seq<Event>)
      returns (due: bool, err: string, lost: bool, at: int, ghost es': seq<Event>)
      requires |phases| == |cfgs| && i < |cfgs| && phases[i] == Looping([scheduled] + rest)
      requires Run(cfgs, s0, es) == Some(View()) && scheduled.id in rows && rows[scheduled.id] == scheduled.row
      modifies this`now, this`rows, this`log, this`phases
      ensures Run(cfgs, s0, es') == Some(View()) && phases == old(phases)[i := Looping(rest)]
      ensures old(now) <= at <= now && (err == "" || err == FAILED)
      ensures due ==> scheduled.row.enabled && at > scheduled.row.nextRun
      ensures !due ==> !(scheduled.row.enabled && IsDue(scheduled.row, old(now)))
      ensures rows ==
              if due && !lost then old(rows)[scheduled.id := UpdateNextRun(scheduled.row, at, err)] else old(rows)
      ensures if due && err == "" then
                |log| == |old(log)| + 1 && log[..|old(log)|] == old(log) && log[|old(log)|].id == scheduled.id
              else log == old(log)
    {
      es' := Wait(s0, es);
      var ok := *;
      ghost var todo := [scheduled] + rest;
      assert todo[1..] == rest;
      RunSnoc(cfgs, s0, es', Turn(i, ok));
      es' := es' + [Turn(i, ok)];
      at, err, lost := now, "", false;
      due := scheduled.row.enabled && IsDue(scheduled.row, now);
      if !due {
        phases := phases[i := Looping(rest)];
        return;
      }
      if ok {
        log := log + [Entry(scheduled.id, now, i)];
      } else {
        err := FAILED;
      }
      phases := phases[i := Attempted(todo, err)];
      es' := Wait(s0, es');
      at, lost := now, *;
      if lost {
        RunSnoc(cfgs, s0, es', Lost(i));
        es' := es' + [Lost(i)];
      } else {
        RunSnoc(cfgs, s0, es', Update(i));
        es' := es' + [Update(i)];
        UpdateLastRun(scheduled.id, err);
      }
      phases := phases[i := Looping(rest)];
    }

    /** checkAndEnqueue by instance `i` while the others rest: its effect on store,
        queue, lock and clock is a run of the protocol that ends outside again. When
        it gets to read the schedules, every enabled one that was due at the start is,
        unless its enqueue failed, enqueued once and, unless that failed, rescheduled
        once; the rest stay. */
    method CheckAndEnqueue(i: nat) returns (read: bool, ghost es: seq<Event>)
      requires |phases| == |cfgs| && i < |cfgs| && phases[i].Idle?
      modifies this
      ensures Run(cfgs, old(View()), es) == Some(View())
      ensures |phases| == |cfgs| && phases[i].Idle? && old(now) <= now
      ensures !read ==> rows == old(rows) && log == old(log)
      ensures read ==> rows.Keys == old(rows).Keys && old(log) <= log
      ensures read ==> forall id :: id in old(rows) ==>
                Treated(old(rows)[id], rows[id], Count(log[|old(log)|..], id), old(now), now)
    {
      ghost var s0 := View();
      read := false;
      var entered;
      entered, es := TryEnter(i, s0);
      if !entered {
        return;
      }
      es := Wait(s0, es);
      var readError := *;
      if readError {
        es := Release(i, s0, es, ReadError(i));
        return;
      }
      read := true;
      var tasks := GetDueScheduledTasks();
      RunSnoc(cfgs, s0, es, Read(i, tasks));
      es := es + [Read(i, tasks)];
      phases := phases[i := Looping(tasks)];
      ghost var start := now;
      es := EnqueueAll(i, tasks, s0, es);
      forall id | id in old(rows)
        ensures Treated(old(rows)[id], rows[id], Count(log[|old(log)|..], id), old(now), now)
      {
        TreatedLater(old(rows)[id], rows[id], Count(log[|old(log)|..], id), old(now), start, now, now);
      }
      es := Release(i, s0, es, Finish(i));
    }

    /** The loop over the due tasks. */
    method EnqueueAll(i: nat, tasks: seq<Item>, ghost s0: State, ghost es0: seq<Event>) returns (ghost es: seq<Event>)
      requires |phases| == |cfgs| && i < |cfgs| && phases[i] == Looping(tasks) && Run(cfgs, s0, es0) == Some(View())
      requires IsDueList(rows, now, tasks)
      modifies this`now, this`rows, this`log, this`phases
      ensures Run(cfgs, s0, es) == Some(View()) && phases == old(phases)[i := Looping([])]
      ensures old(now) <= now && rows.Keys == old(rows).Keys && old(log) <= log
      ensures forall id :: id in old(rows) ==>
                Treated(old(rows)[id], rows[id], Count(log[|old(log)|..], id), old(now), now)
    {
      es := es0;
      ghost var rows0, log0, start := rows, log, now;
      assert log[|log0|..] == [] && tasks[0..] == tasks;
      ProgressStart(rows, tasks, now);
      for k := 0 to |tasks|
        invariant |phases| == |cfgs| && phases == old(phases)[i := Looping(tasks[k..])]
        invariant Run(cfgs, s0, es) == Some(View()) && start <= now
        invariant log0 <= log && Progress(rows0, rows, tasks, log[|log0|..], k, start, now)
      {
        es := TreatOne(i, tasks, k, rows0, log0, start, s0, es);
      }
      assert tasks[|tasks|..] == [];
      TreatedAll(rows0, rows, tasks, log[|log0|..], start, now);
    }

    /** The loop's turn on its `k`th task. */
    method TreatOne(i: nat, tasks: seq<Item>, k: nat, ghost rows0: map<string, Row>, ghost log0: seq<Entry>,
                    ghost start: int, ghost s0: State, ghost es0: seq<Event>)
      returns (ghost es: seq<Event>)
      requires |phases| == |cfgs| && i < |cfgs| && k < |tasks| && phases[i] == Looping(tasks[k..])
      requires Run(cfgs, s0, es0) == Some(View()) && DistinctIds(tasks) && start <= now
      requires log0 <= log && Progress(rows0, rows, tasks, log[|log0|..], k, start, now)
      modifies this`now, this`rows, this`log, this`phases
      ensures Run(cfgs, s0, es) == Some(View()) && phases == old(phases)[i := Looping(tasks[k + 1..])]
                && old(now) <= now
      ensures log0 <= log && Progress(rows0, rows, tasks, log[|log0|..], k + 1, start, now)
    {
      assert tasks[k..] == [tasks[k]] + tasks[k + 1..];
      ghost var mid, earlier, whole := rows, now, log;
      var due, err, lost, at;
      due, err, lost, at, es := EnqueueTurn(i, tasks[k], tasks[k + 1..], s0, es0);
      NewPart(whole, log, |log0|);
      ProgressStep(rows0, mid, rows, tasks, whole[|log0|..], log[|log0|..], k, start, earlier, now, due, err, lost, at);
    }
  }

  const FAILED := "enqueue failed"

  /** How many entries of the log are for a schedule. */
  function Count(log: seq<Entry>, id: string): nat {
    if log == [] then 0 else Count(log[..|log| - 1], id) + if log[|log| - 1].id == id then 1 else 0
  }

  lemma {:induction false} CountSnoc(before: seq<Entry>, after: seq<Entry>, id: string)
    requires after == before || (|after| == |before| + 1 && after[..|before|] == before && after[|before|].id == id)
    ensures Count(after, id) == Count(before, id) + (|after| - |before|)
    ensures forall other :: other != id ==> Count(after, other) == Count(before, other)
  {
  }

  /** What a pass between `start` and `end` does to a row: rescheduled at a moment it
      was due, with one enqueue or the failure noted; due and as it was, if its update
      was lost; or as it was because it was not due at the start. */
  ghost predicate Treated(before: Row, after: Row, enqueued: nat, start: int, end: int) {
    (after == before && enqueued == 0 && !(before.enabled && start > before.nextRun))
    || exists at, err, lost :: AttemptedAt(before, after, enqueued, start, end, at, err, lost)
  }

  /** The row was due at `at` and attempted, with the given error text or none. */
  predicate AttemptedAt(before: Row, after: Row, enqueued: nat, start: int, end: int, at: int, err: string, lost: bool)
  {
    && start <= at <= end && before.enabled && at > before.nextRun
    && (if lost then after == before else Moved(before, after, at, err))
    && ((err == "" && enqueued == 1) || (err == FAILED && enqueued == 0))
  }

  /** The row runs again one interval after `at`; that and the error text are all that
      has changed. */
  predicate Moved(before: Row, after: Row, at: int, err: string) {
    && after.interval == before.interval && after.enabled == before.enabled
    && after.lastRun == Some(at) && after.nextRun == at + before.interval && after.lastError == err
  }

  /** The first `k` of the due tasks have been treated, nothing else is touched. */
  ghost predicate Progress(before: map<string, Row>, after: map<string, Row>, tasks: seq<Item>, entries: seq<Entry>,
                           k: nat, start: int, end: int)
  {
    && after.Keys == before.Keys
    && (forall j :: k <= j < |tasks| ==>
          tasks[j].id in after && after[tasks[j].id] == tasks[j].row && Count(entries, tasks[j].id) == 0)
    && (forall id :: id in after && (forall j :: 0 <= j < |tasks| ==> tasks[j].id != id) ==>
          after[id] == before[id] && Count(entries, id) == 0)
    && (forall j :: 0 <= j < k && j < |tasks| ==>
          tasks[j].id in after && Treated(tasks[j].row, after[tasks[j].id], Count(entries, tasks[j].id), start, end))
  }

  lemma ProgressStart(rows: map<string, Row>, tasks: seq<Item>, start: int)
    requires IsDueList(rows, start, tasks)
    ensures Progress(rows, rows, tasks, [], 0, start, start)
  {
    forall j | 0 <= j < |tasks| ensures tasks[j].id in rows && rows[tasks[j].id] == tasks[j].row {
      assert tasks[j] in tasks;
    }
  }

  lemma NewPart(whole: seq<Entry>, more: seq<Entry>, n: nat)
    requires n <= |whole| && (more == whole || (|more| == |whole| + 1 && more[..|whole|] == whole))
    ensures more[..n] == whole[..n]
    ensures if more == whole then more[n..] == whole[n..]
            else |more[n..]| == |whole[n..]| + 1 && more[n..][..|whole[n..]|] == whole[n..]
                 && more[n..][|whole[n..]|] == more[|whole|]
  {
    if more != whole {
      assert more == whole + [more[|whole|]];
      assert more[n..] == whole[n..] + [more[|whole|]];
    }
  }

  lemma ProgressStep(before: map<string, Row>, mid: map<string, Row>, after: map<string, Row>, tasks: seq<Item>,
                     entries: seq<Entry>, more: seq<Entry>, k: nat, start: int, earlier: int, end: int,
                     due: bool, err: string, lost: bool, at: int)
    requires k < |tasks| && DistinctIds(tasks) && Progress(before, mid, tasks, entries, k, start, earlier)
    requires start <= earlier <= at <= end && (err == "" || err == FAILED)
    requires due ==> tasks[k].row.enabled && at > tasks[k].row.nextRun
    requires !due ==> !(tasks[k].row.enabled && IsDue(tasks[k].row, earlier))
    requires after == if due && !lost then mid[tasks[k].id := UpdateNextRun(tasks[k].row, at, err)] else mid
    requires if due && err == "" then
               |more| == |entries| + 1 && more[..|entries|] == entries && more[|entries|].id == tasks[k].id
             else more == entries
    ensures Progress(before, after, tasks, more, k + 1, start, end)
  {
    CountSnoc(entries, more, tasks[k].id);
    forall j | 0 <= j < k
      ensures tasks[j].id in after && Treated(tasks[j].row, after[tasks[j].id], Count(more, tasks[j].id), start, end)
    {
      assert tasks[j].id != tasks[k].id;
      TreatedLater(tasks[j].row, mid[tasks[j].id], Count(entries, tasks[j].id), start, start, earlier, end);
    }
    TreatedNow(tasks[k].row, after[tasks[k].id], Count(more, tasks[k].id), start, earlier, end, due, err, lost, at);
  }

  lemma TreatedLater(before: Row, after: Row, enqueued: nat, earlier: int, start: int, end: int, later: int)
    requires Treated(before, after, enqueued, start, end) && earlier <= start && end <= later
    ensures Treated(before, after, enqueued, earlier, later)
  {
    if at, err, lost :| AttemptedAt(before, after, enqueued, start, end, at, err, lost) {
      assert AttemptedAt(before, after, enqueued, earlier, later, at, err, lost);
    }
  }

  lemma TreatedNow(before: Row, after: Row, enqueued: nat, start: int, earlier: int, end: int, due: bool, err: string,
                   lost: bool, at: int)
    requires start <= earlier <= at <= end && (err == "" || err == FAILED)
    requires due ==> before.enabled && at > before.nextRun
    requires due ==> after == if lost then before else UpdateNextRun(before, at, err)
    requires !due ==> after == before && !(before.enabled && IsDue(before, earlier))
    requires enqueued == if due && err == "" then 1 else 0
    ensures Treated(before, after, enqueued, start, end)
  {
    if due { assert AttemptedAt(before, after, enqueued, start, end, at, err, lost); }
  }

  /** One turn of the loop: a row that was enabled and due, as it was read, is attempted,
      and enqueued once unless the queue fails; any other is passed over. No row changes. */
  lemma TurnDoes(cfgs: seq<Config>, s: State, i: nat, ok: bool)
    requires Enabled(cfgs, s, Turn(i, ok))
    ensures var t, item := Step(cfgs, s, Turn(i, ok)), s.phases[i].rest[0];
            var due := item.row.enabled && s.now > item.row.nextRun;
            && t.rows == s.rows && t.holder == s.holder && t.now == s.now
            && t.log == s.log + (if due && ok then [Entry(item.id, s.now, i)] else [])
            && (t.phases[i].Attempted? <==> due) && (due ==> (t.phases[i].err == "" <==> ok))
            && Rest(t.phases[i]) == (if due then s.phases[i].rest else s.phases[i].rest[1..])
  {
  }

  /** Its update then moves the stored row, whatever was read; if it is lost, or the row
      is gone, nothing is stored. The loop goes on with the next row either way. */
  lemma UpdateDoes(cfgs: seq<Config>, s: State, e: Event)
    requires Enabled(cfgs, s, e) && (e.Update? || e.Lost?)
    ensures var t, p := Step(cfgs, s, e), s.phases[e.i];
            var id := p.rest[0].id;
            && t.rows.Keys == s.rows.Keys && (forall x :: x in s.rows && x != id ==> t.rows[x] == s.rows[x])
            && (id in s.rows ==>
                  if e.Update? then Moved(s.rows[id], t.rows[id], s.now, p.err) else t.rows[id] == s.rows[id])
            && t.log == s.log && t.holder == s.holder && t.now == s.now
            && t.phases[e.i] == Looping(p.rest[1..])
  {
  }

  /** A schedule goes on: a pass that treated a row and did not lose its update leaves
      it due again exactly once the clock is past that moment plus the interval. */
  lemma DueAgain(before: Row, after: Row, at: int, err: string, now: int)
    requires before.enabled && Moved(before, after, at, err)
    ensures IsDue(after, now) <==> now > at + before.interval
  {
  }

  /** Two passes in a row that both read: a row attempted at `at` in the first, with its
      update kept, is attempted in the second if that starts past `at` plus the interval,
      never if it ends before then, and always later than then. */
  lemma NextPass(first: Row, second: Row, third: Row, start: int, end: int, at: int, err: string, n: nat,
                 start': int, end': int, m: nat)
    requires AttemptedAt(first, second, n, start, end, at, err, false)
    requires Treated(second, third, m, start', end')
    ensures start' > at + first.interval ==>
              exists at', err', lost' :: AttemptedAt(second, third, m, start', end', at', err', lost')
    ensures end' <= at + first.interval ==> third == second && m == 0
    ensures forall at', err', lost' :: AttemptedAt(second, third, m, start', end', at', err', lost') ==>
              at' > at + first.interval
  {
  }

  /** A row that is switched off or not yet due at any moment of a pass stays as it is. */
  lemma NotDueStays(before: Row, after: Row, n: nat, start: int, end: int)
    requires Treated(before, after, n, start, end) && (!before.enabled || end <= before.nextRun)
    ensures after == before && n == 0
  {
  }

  /** Rows outside the due list were not due. */
  lemma TreatedAll(before: map<string, Row>, after: map<string, Row>, tasks: seq<Item>, entries: seq<Entry>,
                   start: int, end: int)
    requires IsDueList(before, start, tasks) && Progress(before, after, tasks, entries, |tasks|, start, end)
    ensures forall id :: id in before ==> Treated(before[id], after[id], Count(entries, id), start, end)
  {
    forall id | id in before ensures Treated(before[id], after[id], Count(entries, id), start, end) {
      if j :| 0 <= j < |tasks| && tasks[j].id == id {
        assert tasks[j] in tasks;
      } else {
        assert Item(id, before[id]) !in tasks;
      }
    }
  }

  function AllIdle(n: nat): (p: seq<Phase>)
    ensures |p| == n && forall i :: 0 <= i < n ==> p[i].Idle?
  {
    if n == 0 then [] else AllIdle(n - 1) + [Idle]
  }
}
