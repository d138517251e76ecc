/** The worker pool: goroutines that poll a stop channel, take tasks, run a handler
    and answer the queue, and a Start/Stop protocol built from a flag and two
    channels per generation. All goroutines interleave; one caller starts and stops. */
module Worker {
  import opened Wrappers

  // ---- handlers ----------------------------------------------------------

  datatype Task = Task(id: string, ty: string, payload: map<string, string>)

  /** What the orchestrator call ends in. */
  datatype Outcome =
    | CallError
    | Synced(success: bool)
    | SyncedAll(successes: seq<bool>)
    | Unsupported

  function PayloadValue(t: Task, key: string): string {
    if key in t.payload then t.payload[key] else ""
  }

  /** Whether a task ends in an error, for each kind of task. */
  predicate HandlerFails(t: Task, o: Outcome) {
    if t.ty == "sync_source" then
      PayloadValue(t, "source_id") == "" || !(o.Synced? && o.success)
    else if t.ty == "sync_all" then
      !o.SyncedAll?
    else if t.ty == "sync_container" then
      PayloadValue(t, "source_id") == "" || PayloadValue(t, "container_id") == "" || !(o.Synced? && o.success)
    else
      true
  }

  /** A task succeeds exactly if it is of one of the three kinds, names its source, and
      its container for the third, and the call made for it succeeded; a sync of all
      sources succeeds even if single sources fail. */
  lemma HandlerSucceedsIff(t: Task, o: Outcome)
    ensures !HandlerFails(t, o) <==>
              || (t.ty == "sync_source" && Names(t, "source_id") && o == Synced(true))
              || (t.ty == "sync_all" && o.SyncedAll?)
              || (t.ty == "sync_container" && Names(t, "source_id") && Names(t, "container_id") && o == Synced(true))
  {
  }

  predicate Names(t: Task, key: string) {
    key in t.payload && t.payload[key] != ""
  }

  // ---- state -------------------------------------------------------------

  /** A goroutine: at the top of its loop, past the stop test, running a handler,
      about to answer, or returned. Deliveries are numbered in order. */
  datatype Pc =
    | Top
    | Polled
    | Holding(delivery: nat)
    | Handled(delivery: nat, failed: bool)
    | Exited

  /** The one Start/Stop caller: outside, waiting for doneCh inside Stop, or past it. */
  datatype Caller = Ready | Waiting | Drained

  datatype Answer = Answer(delivery: nat, ack: bool)

  datatype State = State(
    running: bool,
    cancelled: set<nat>,            // generations whose context is cancelled, some before their Start
    gen: nat,                       // how many times Start has made new channels
    stopClosed: set<nat>,           // generations whose stopCh is closed
    doneClosed: set<nat>,           // generations whose doneCh is closed
    waiters: set<nat>,              // generations whose wg.Wait goroutine is alive
    pcs: map<(nat, nat), Pc>,       // goroutine k of generation g
    caller: Caller,
    deliveries: seq<Task>,
    failures: map<nat, bool>,       // handler results by delivery
    answers: seq<Answer>)

  datatype Event =
    | Start
    | StopBegin
    | StopDrained
    | StopEnd
    | Cancel(g: nat)
    | Poll(g: nat, k: nat)
    | Dequeue(g: nat, k: nat, task: Option<Task>)
    | Handle(g: nat, k: nat, outcome: Outcome)
    | Settle(g: nat, k: nat)
    | CloseDone(g: nat)

  predicate OfGoroutine(e: Event) {
    e.Poll? || e.Dequeue? || e.Handle? || e.Settle?
  }

  predicate AllExited(s: State, g: nat) {
    forall p :: p in s.pcs && p.0 == g ==> s.pcs[p].Exited?
  }

  predicate Enabled(s: State, e: Event) {
    match e
    case Start => s.caller.Ready?
    case StopBegin => s.caller.Ready?
    case StopDrained => s.caller.Waiting? && s.gen in s.doneClosed
    case StopEnd => s.caller.Drained?
    case Cancel(_) => true
    case Poll(g, k) => (g, k) in s.pcs && s.pcs[(g, k)].Top?
    case Dequeue(g, k, _) => (g, k) in s.pcs && s.pcs[(g, k)].Polled?
    case Handle(g, k, _) => (g, k) in s.pcs && s.pcs[(g, k)].Holding? && s.pcs[(g, k)].delivery < |s.deliveries|
    case Settle(g, k) => (g, k) in s.pcs && s.pcs[(g, k)].Handled?
    case CloseDone(g) => g in s.waiters && AllExited(s, g)
  }

  function Goroutines(gen: nat, n: nat): map<(nat, nat), Pc> {
    map k: nat | k < n :: (gen, k) := Top
  }

  /** One step of a pool of `n` goroutines per generation. */
  function Step(n: nat, s: State, e: Event): State
    requires Enabled(s, e)
  {
    match e
    case Start =>
      if s.running then s
      else s.(running := true, gen := s.gen + 1, waiters := s.waiters + {s.gen + 1},
          pcs := s.pcs + Goroutines(s.gen + 1, n))
    case StopBegin =>
      if !s.running then s else s.(stopClosed := s.stopClosed + {s.gen}, caller := Waiting)
    case StopDrained => s.(caller := Drained)
    case StopEnd => s.(running := false, caller := Ready)
    case Cancel(g) => s.(cancelled := s.cancelled + {g})
    case Poll(g, k) =>
      s.(pcs := s.pcs[(g, k) := if g in s.cancelled || s.gen in s.stopClosed then Exited else Polled])
    case Dequeue(g, k, task) =>
      if task.None? then s.(pcs := s.pcs[(g, k) := Top])
      else s.(deliveries := s.deliveries + [task.value], pcs := s.pcs[(g, k) := Holding(|s.deliveries|)])
    case Handle(g, k, outcome) =>
      var d := s.pcs[(g, k)].delivery;
      var failed := HandlerFails(s.deliveries[d], outcome);
      s.(failures := s.failures[d := failed], pcs := s.pcs[(g, k) := Handled(d, failed)])
    case Settle(g, k) =>
      var p := s.pcs[(g, k)];
      s.(answers := s.answers + [Answer(p.delivery, !p.failed)], pcs := s.pcs[(g, k) := Top])
    case CloseDone(g) => s.(waiters := s.waiters - {g}, doneClosed := s.doneClosed + {s.gen})
  }

  function Run(n: nat, s: State, es: seq<Event>): Option<State>
    decreases |es|
  {
    if es == [] then Some(s)
    else if Enabled(s, es[0]) then Run(n, Step(n, s, es[0]), es[1..])
    else None
  }

  const INITIAL := State(false, {}, 0, {}, {}, {}, map[], Ready, [], map[], [])

  ghost predicate Reachable(n: nat, s: State) {
    exists es :: Run(n, INITIAL, es) == Some(s)
  }

  // ---- the protocol invariant --------------------------------------------

  /** Stopped means drained: goroutines and waiters of past generations are gone, and
      of the current one too unless the pool is running. */
  predicate Protocol(s: State) {
    && (forall p :: p in s.pcs ==> p.0 <= s.gen && (p.0 < s.gen || !s.running ==> s.pcs[p].Exited?))
    && (forall g :: g in s.waiters ==> g == s.gen && s.running)
    && (forall g :: g in s.doneClosed ==> g <= s.gen && g !in s.waiters && AllExited(s, g))
    && (forall g :: g in s.stopClosed ==> g <= s.gen)
    && (s.caller == Ready && s.running ==> s.gen !in s.stopClosed)
    && (s.caller != Ready ==> s.running)
    && (s.caller == Drained ==> s.gen in s.doneClosed)
  }

  /** A goroutine that has not returned shows that its generation is current. */
  lemma ActiveIsCurrent(s: State, p: (nat, nat))
    requires Protocol(s) && p in s.pcs && !s.pcs[p].Exited?
    ensures p.0 == s.gen && s.running && s.gen !in s.doneClosed
  {
    assert s.gen in s.doneClosed ==> AllExited(s, s.gen);
  }

  /** A step of one goroutine touches nothing else the protocol speaks of. */
  lemma GoroutineStepKept(s: State, t: State, p: (nat, nat), pc: Pc)
    requires Protocol(s) && p in s.pcs && !s.pcs[p].Exited?
    requires t.pcs == s.pcs[p := pc] && t.gen == s.gen && t.running == s.running && t.caller == s.caller
    requires t.waiters == s.waiters && t.doneClosed == s.doneClosed && t.stopClosed == s.stopClosed
    ensures Protocol(t)
  {
    ActiveIsCurrent(s, p);
    forall g | g in t.doneClosed ensures AllExited(t, g) {
      assert AllExited(s, g);
    }
  }

  lemma CallerStepKept(n: nat, s: State, e: Event)
    requires Protocol(s) && Enabled(s, e) && !OfGoroutine(e)
    ensures Protocol(Step(n, s, e))
  {
    var t := Step(n, s, e);
    forall g | g in t.doneClosed ensures AllExited(t, g) {
      assert g in s.doneClosed ==> AllExited(s, g);
    }
    assert s.gen in s.doneClosed ==> AllExited(s, s.gen);
  }

  lemma ProtocolKept(n: nat, s: State, e: Event)
    requires Protocol(s) && Enabled(s, e)
    ensures Protocol(Step(n, s, e))
  {
    if OfGoroutine(e) {
      var t := Step(n, s, e);
      GoroutineStepKept(s, t, (e.g, e.k), t.pcs[(e.g, e.k)]);
    } else {
      CallerStepKept(n, s, e);
    }
  }

  // ---- the delivery invariant --------------------------------------------

  predicate Holds(s: State, p: (nat, nat), d: nat) {
    p in s.pcs && ((s.pcs[p].Holding? && s.pcs[p].delivery == d) || (s.pcs[p].Handled? && s.pcs[p].delivery == d))
  }

  ghost predicate Held(s: State, d: nat) {
    exists p :: Holds(s, p, d)
  }

  predicate IsAnswered(answers: seq<Answer>, d: nat) {
    exists a :: 0 <= a < |answers| && answers[a].delivery == d
  }

  predicate Answered(s: State, d: nat) {
    IsAnswered(s.answers, d)
  }

  /** Every delivery is with exactly one goroutine or has exactly one answer. */
  ghost predicate Accounted(s: State) {
    && (forall p, q, d: nat :: Holds(s, p, d) && Holds(s, q, d) ==> p == q)
    && (forall d: nat :: Held(s, d) ==> d < |s.deliveries| && !Answered(s, d))
    && (forall a, b :: 0 <= a < b < |s.answers| ==> s.answers[a].delivery != s.answers[b].delivery)
    && (forall d :: 0 <= d < |s.deliveries| ==> Held(s, d) || Answered(s, d))
    && (forall a :: 0 <= a < |s.answers| ==> s.answers[a].delivery < |s.deliveries|)
  }

  /** Answers follow the handlers' results. */
  predicate Honest(s: State) {
    && (forall p :: p in s.pcs && s.pcs[p].Handled? ==>
          s.pcs[p].delivery in s.failures && s.failures[s.pcs[p].delivery] == s.pcs[p].failed)
    && (forall a :: 0 <= a < |s.answers| ==>
          s.answers[a].delivery in s.failures && s.answers[a].ack == !s.failures[s.answers[a].delivery])
  }

  /** A step that lets goroutine `p` neither take up nor give up a delivery. */
  lemma SameHolders(s: State, t: State)
    requires Accounted(s) && t.deliveries == s.deliveries && t.answers == s.answers
    requires forall p, d: nat :: Holds(t, p, d) <==> Holds(s, p, d)
    ensures Accounted(t)
  {
    forall d: nat ensures Held(t, d) <==> Held(s, d) {
      if Held(s, d) { var p :| Holds(s, p, d); assert Holds(t, p, d); }
      if Held(t, d) { var p :| Holds(t, p, d); assert Holds(s, p, d); }
    }
    forall d: nat ensures Answered(t, d) <==> Answered(s, d) {}
  }

  lemma TakeAccounted(s: State, p: (nat, nat), task: Task)
    requires Accounted(s) && p in s.pcs && s.pcs[p].Polled?
    ensures Accounted(s.(deliveries := s.deliveries + [task], pcs := s.pcs[p := Holding(|s.deliveries|)]))
  {
    var n := |s.deliveries|;
    var t := s.(deliveries := s.deliveries + [task], pcs := s.pcs[p := Holding(n)]);
    forall q, d: nat ensures Holds(t, q, d) <==> Holds(s, q, d) || (q == p && d == n) {}
    assert Holds(t, p, n);
    forall d: nat ensures Held(t, d) <==> Held(s, d) || d == n {
      if Held(s, d) { var q :| Holds(s, q, d); assert Holds(t, q, d); }
    }
    forall q, d: nat | Holds(s, q, d) ensures d < n { assert Held(s, d); }
    forall d: nat ensures Answered(t, d) <==> Answered(s, d) {}
  }

  lemma GiveAccounted(s: State, p: (nat, nat))
    requires Accounted(s) && p in s.pcs && s.pcs[p].Handled?
    ensures Accounted(s.(answers := s.answers + [Answer(s.pcs[p].delivery, !s.pcs[p].failed)], pcs := s.pcs[p := Top]))
  {
    var n := s.pcs[p].delivery;
    var t := s.(answers := s.answers + [Answer(n, !s.pcs[p].failed)], pcs := s.pcs[p := Top]);
    assert Holds(s, p, n) && Held(s, n);
    forall q, d: nat ensures Holds(t, q, d) <==> Holds(s, q, d) && d != n {
      assert Holds(s, q, n) ==> q == p;
      assert Holds(s, p, d) ==> d == n;
    }
    forall d: nat ensures Held(t, d) <==> Held(s, d) && d != n {
      if Held(s, d) && d != n { var q :| Holds(s, q, d); assert Holds(t, q, d); }
    }
    forall d: nat ensures Answered(t, d) <==> Answered(s, d) || d == n {
      if Answered(s, d) {
        var a :| 0 <= a < |s.answers| && s.answers[a].delivery == d;
        assert t.answers[a].delivery == d;
      }
      assert t.answers[|s.answers|].delivery == n;
    }
    forall a | 0 <= a < |s.answers| ensures s.answers[a].delivery != n {
      assert !Answered(s, n);
    }
  }

  lemma AccountedKept(n: nat, s: State, e: Event)
    requires Accounted(s) && Protocol(s) && Enabled(s, e)
    ensures Accounted(Step(n, s, e))
  {
    var t := Step(n, s, e);
    if e.Dequeue? && e.task.Some? {
      TakeAccounted(s, (e.g, e.k), e.task.value);
    } else if e.Settle? {
      GiveAccounted(s, (e.g, e.k));
    } else {
      SameHolders(s, t);
    }
  }

  lemma HonestKept(n: nat, s: State, e: Event)
    requires Honest(s) && Accounted(s) && Enabled(s, e)
    ensures Honest(Step(n, s, e))
  {
    if e.Handle? {
      var d := s.pcs[(e.g, e.k)].delivery;
      assert Holds(s, (e.g, e.k), d) && Held(s, d);
      forall p | p in s.pcs && s.pcs[p].Handled? && p != (e.g, e.k) ensures s.pcs[p].delivery != d {
        assert Holds(s, p, s.pcs[p].delivery);
      }
      forall a | 0 <= a < |s.answers| ensures s.answers[a].delivery != d {
        assert !Answered(s, d);
      }
    }
  }

  ghost predicate Inv(s: State) {
    Protocol(s) && Accounted(s) && Honest(s)
  }

  lemma {:induction false} InvOnRuns(n: nat, s: State, es: seq<Event>)
    requires Inv(s) && Run(n, s, es).Some?
    ensures Inv(Run(n, s, es).value)
    decreases |es|
  {
    if es != [] {
      ProtocolKept(n, s, es[0]);
      AccountedKept(n, s, es[0]);
      HonestKept(n, s, es[0]);
      InvOnRuns(n, Step(n, s, es[0]), es[1..]);
    }
  }

  lemma ReachableInv(n: nat, s: State)
    requires Reachable(n, s)
    ensures Inv(s)
  {
    var es :| Run(n, INITIAL, es) == Some(s);
    assert Inv(INITIAL);
    InvOnRuns(n, INITIAL, es);
  }

  // ---- the results -------------------------------------------------------

  /** At every moment each delivery has at most one answer, and it is an Ack exactly
      when the handler succeeded. */
  lemma AtMostOneHonestAnswer(n: nat, s: State, a: nat, b: nat)
    requires Reachable(n, s) && a < |s.answers| && b < |s.answers|
    ensures s.answers[a].delivery == s.answers[b].delivery ==> a == b
    ensures s.answers[a].delivery < |s.deliveries| && s.answers[a].delivery in s.failures
    ensures s.answers[a].ack <==> !s.failures[s.answers[a].delivery]
  {
    ReachableInv(n, s);
  }

  /** Goroutines that have not returned all belong to the current generation. */
  lemma GenerationsDoNotOverlap(n: nat, s: State, p: (nat, nat), q: (nat, nat))
    requires Reachable(n, s) && p in s.pcs && q in s.pcs && !s.pcs[p].Exited? && !s.pcs[q].Exited?
    ensures p.0 == q.0 == s.gen && s.running
  {
    ReachableInv(n, s);
  }

  /** Once Stop has returned, and until the next Start, no goroutine can act and every
      task ever taken has been answered, exactly once. */
  lemma StoppedIsQuiet(n: nat, s: State, e: Event)
    requires Reachable(n, s) && s.caller == Ready && !s.running
    ensures OfGoroutine(e) || e.CloseDone? ==> !Enabled(s, e)
    ensures |s.answers| == |s.deliveries|
    ensures forall d :: 0 <= d < |s.deliveries| ==> Answered(s, d)
  {
    ReachableInv(n, s);
    assert forall p :: p in s.pcs ==> s.pcs[p].Exited?;
    forall d: nat | d < |s.deliveries| ensures IsAnswered(s.answers, d) {
      assert Held(s, d) || Answered(s, d);
    }
    AnswersCount(s.answers, |s.deliveries|);
  }

  /** As many answers as deliveries, when each delivery has one and none has two. */
  lemma {:induction false} AnswersCount(answers: seq<Answer>, n: nat)
    requires forall a, b :: 0 <= a < b < |answers| ==> answers[a].delivery != answers[b].delivery
    requires forall a :: 0 <= a < |answers| ==> answers[a].delivery < n
    requires forall d: nat :: d < n ==> IsAnswered(answers, d)
    ensures |answers| == n
  {
    var first := if answers == [] then 0 else answers[0].delivery;
    if n > 0 {
      assert IsAnswered(answers, n - 1);
      var a :| 0 <= a < |answers| && answers[a].delivery == n - 1;
      var rest := answers[..a] + answers[a + 1..];
      forall d: nat | d < n - 1 ensures IsAnswered(rest, d) {
        assert IsAnswered(answers, d);
        var c :| 0 <= c < |answers| && answers[c].delivery == d;
        assert rest[if c < a then c else c - 1].delivery == d;
      }
      AnswersCount(rest, n - 1);
    }
  }

  /** No channel is closed a second time. */
  lemma ChannelsCloseOnce(n: nat, s: State, g: nat)
    requires Reachable(n, s)
    ensures Enabled(s, StopBegin) && s.running ==> s.gen !in s.stopClosed
    ensures Enabled(s, CloseDone(g)) ==> g == s.gen && g !in s.doneClosed
  {
    ReachableInv(n, s);
  }

  /** Stop's wait for doneCh cannot be passed while a goroutine is at work. */
  lemma StopWaitsForAll(n: nat, s: State)
    requires Reachable(n, s) && Enabled(s, StopDrained)
    ensures forall p :: p in s.pcs ==> s.pcs[p].Exited?
  {
    ReachableInv(n, s);
    assert AllExited(s, s.gen);
  }

  // ---- the pool keeps going ----------------------------------------------

  /** Start on a stopped pool begins a new generation of `n` goroutines with open
      channels, after any number of earlier generations; on a running pool it does
      nothing. */
  lemma StartStarts(n: nat, s: State)
    requires Reachable(n, s) && Enabled(s, Start)
    ensures var t := Step(n, s, Start);
            && (s.running ==> t == s)
            && (!s.running ==>
                  && t.running && t.gen == s.gen + 1 && t.gen !in t.stopClosed && t.gen !in t.doneClosed
                  && (forall k: nat :: (t.gen, k) in t.pcs <==> k < n)
                  && (forall k: nat :: k < n ==> t.pcs[(t.gen, k)].Top?)
                  && t.deliveries == s.deliveries && t.answers == s.answers)
  {
    ReachableInv(n, s);
  }

  /** The only way out of a goroutine's loop is a poll that finds its context cancelled
      or a Stop under way; it goes on after an empty queue and after any task. */
  lemma ExitsIffTold(n: nat, s: State, e: Event, p: (nat, nat))
    requires Reachable(n, s) && Enabled(s, e) && p in s.pcs && !s.pcs[p].Exited?
    ensures var t := Step(n, s, e);
            p in t.pcs && (t.pcs[p].Exited? <==> e == Poll(p.0, p.1) && (p.0 in s.cancelled || s.caller.Waiting?))
  {
    ReachableInv(n, s);
    ReachableCrew(n, s);
    ActiveIsCurrent(s, p);
  }

  lemma {:induction false} CancelledIff(n: nat, s: State, es: seq<Event>, g: nat)
    requires Run(n, s, es).Some?
    ensures g in Run(n, s, es).value.cancelled <==> g in s.cancelled || Cancel(g) in es
    decreases |es|
  {
    if es != [] {
      CancelledIff(n, Step(n, s, es[0]), es[1..], g);
      assert es == [es[0]] + es[1..];
    }
  }

  /** All goroutines of the current generation are at work, unless told to end. */
  ghost predicate Staffed(n: nat, s: State) {
    s.running && s.caller.Ready? && s.gen !in s.cancelled ==>
      forall k: nat :: k < n ==> (s.gen, k) in s.pcs && !s.pcs[(s.gen, k)].Exited?
  }

  lemma StaffedKept(n: nat, s: State, e: Event)
    requires Staffed(n, s) && Crew(n, s) && Protocol(s) && Enabled(s, e)
    ensures Staffed(n, Step(n, s, e))
  {
    if OfGoroutine(e) {
      ActiveIsCurrent(s, (e.g, e.k));
    }
  }

  lemma {:induction false} StaffedOnRuns(n: nat, s: State, es: seq<Event>)
    requires Staffed(n, s) && Crew(n, s) && Protocol(s) && Run(n, s, es).Some?
    ensures Staffed(n, Run(n, s, es).value)
    decreases |es|
  {
    if es != [] {
      StaffedKept(n, s, es[0]);
      CrewKept(n, s, es[0]);
      ProtocolKept(n, s, es[0]);
      StaffedOnRuns(n, Step(n, s, es[0]), es[1..]);
    }
  }

  /** In every run, while the pool is started, not being stopped and its context was not
      cancelled, all `n` goroutines are at work and each can take its next step. */
  lemma PoolStaysUp(n: nat, es: seq<Event>, k: nat)
    requires Run(n, INITIAL, es).Some? && k < n
    ensures var s := Run(n, INITIAL, es).value;
            s.running && s.caller.Ready? && Cancel(s.gen) !in es ==>
              && (s.gen, k) in s.pcs && !s.pcs[(s.gen, k)].Exited?
              && Enabled(s, NextMove(s, k))
  {
    StaffedOnRuns(n, INITIAL, es);
    var s := Run(n, INITIAL, es).value;
    CancelledIff(n, INITIAL, es, s.gen);
    ReachableInv(n, s);
    if (s.gen, k) in s.pcs && s.pcs[(s.gen, k)].Holding? {
      assert Holds(s, (s.gen, k), s.pcs[(s.gen, k)].delivery) && Held(s, s.pcs[(s.gen, k)].delivery);
    }
  }

  // ---- Stop comes to its end ---------------------------------------------

  /** The current generation has goroutines 0 to n-1 and its doneCh is closed or will
      be; a waiting Stop has closed its stopCh. */
  ghost predicate Crew(n: nat, s: State) {
    && (s.running ==> forall k: nat :: k < n ==> (s.gen, k) in s.pcs)
    && (forall p :: p in s.pcs && p.0 == s.gen ==> p.1 < n)
    && (s.running ==> s.gen in s.waiters || s.gen in s.doneClosed)
    && (s.caller.Waiting? ==> s.gen in s.stopClosed)
  }

  lemma CrewKept(n: nat, s: State, e: Event)
    requires Crew(n, s) && Protocol(s) && Enabled(s, e)
    ensures Crew(n, Step(n, s, e))
  {
    if OfGoroutine(e) {
      assert Step(n, s, e).pcs.Keys == s.pcs.Keys;
    }
  }

  lemma {:induction false} CrewOnRuns(n: nat, s: State, es: seq<Event>)
    requires Crew(n, s) && Protocol(s) && Run(n, s, es).Some?
    ensures Crew(n, Run(n, s, es).value) && Protocol(Run(n, s, es).value)
    decreases |es|
  {
    if es != [] {
      ProtocolKept(n, s, es[0]);
      CrewKept(n, s, es[0]);
      CrewOnRuns(n, Step(n, s, es[0]), es[1..]);
    }
  }

  lemma ReachableCrew(n: nat, s: State)
    requires Reachable(n, s)
    ensures Crew(n, s) && Protocol(s)
  {
    var es :| Run(n, INITIAL, es) == Some(s);
    CrewOnRuns(n, INITIAL, es);
  }

  /** The most steps a goroutine has left once its stopCh is closed: it may still take
      one task, handle and answer it. */
  function StepsLeft(pc: Pc): nat {
    match pc
    case Exited => 0
    case Top => 1
    case Handled(_, _) => 2
    case Holding(_) => 3
    case Polled => 4
  }

  /** The steps left to the first `n` goroutines of generation `g`. */
  function Work(pcs: map<(nat, nat), Pc>, g: nat, n: nat): (w: nat)
    ensures w <= 4 * n
  {
    if n == 0 then 0
    else (if (g, n - 1) in pcs then StepsLeft(pcs[(g, n - 1)]) else 0) + Work(pcs, g, n - 1)
  }

  lemma {:induction false} WorkOfOne(pcs: map<(nat, nat), Pc>, g: nat, n: nat, k: nat, pc: Pc)
    requires (g, k) in pcs
    ensures Work(pcs[(g, k) := pc], g, n) ==
              Work(pcs, g, n) + if k < n then StepsLeft(pc) - StepsLeft(pcs[(g, k)]) else 0
  {
    if n > 0 {
      WorkOfOne(pcs, g, n - 1, k, pc);
    }
  }

  lemma {:induction false} NoWorkLeft(pcs: map<(nat, nat), Pc>, g: nat, n: nat)
    requires Work(pcs, g, n) == 0
    ensures forall k: nat :: k < n && (g, k) in pcs ==> pcs[(g, k)].Exited?
  {
    if n > 0 {
      NoWorkLeft(pcs, g, n - 1);
    }
  }

  lemma {:induction false} SomeoneAtWork(pcs: map<(nat, nat), Pc>, g: nat, n: nat) returns (k: nat)
    requires Work(pcs, g, n) > 0
    ensures k < n && (g, k) in pcs && !pcs[(g, k)].Exited?
  {
    if (g, n - 1) in pcs && !pcs[(g, n - 1)].Exited? {
      k := n - 1;
    } else {
      k := SomeoneAtWork(pcs, g, n - 1);
    }
  }

  /** While Stop waits, every step of a goroutine uses up work and no other step adds
      any; it waits until it passes doneCh. */
  lemma StopUsesUpWork(n: nat, s: State, e: Event)
    requires Crew(n, s) && Protocol(s) && s.caller.Waiting? && Enabled(s, e)
    ensures var t := Step(n, s, e);
            && (OfGoroutine(e) ==> Work(t.pcs, t.gen, n) < Work(s.pcs, s.gen, n))
            && (!OfGoroutine(e) ==> Work(t.pcs, t.gen, n) == Work(s.pcs, s.gen, n))
            && (e != StopDrained ==> t.caller.Waiting?)
  {
    if OfGoroutine(e) {
      ActiveIsCurrent(s, (e.g, e.k));
      WorkOfOne(s.pcs, s.gen, n, e.k, Step(n, s, e).pcs[(e.g, e.k)]);
    }
  }

  function GoroutineSteps(es: seq<Event>): nat {
    if es == [] then 0 else (if OfGoroutine(es[0]) then 1 else 0) + GoroutineSteps(es[1..])
  }

  lemma {:induction false} StepsAreBounded(n: nat, s: State, es: seq<Event>)
    requires Crew(n, s) && Protocol(s) && s.caller.Waiting? && Run(n, s, es).Some? && StopDrained !in es
    ensures GoroutineSteps(es) <= Work(s.pcs, s.gen, n)
    decreases |es|
  {
    if es != [] {
      StopUsesUpWork(n, s, es[0]);
      ProtocolKept(n, s, es[0]);
      CrewKept(n, s, es[0]);
      assert es == [es[0]] + es[1..];
      StepsAreBounded(n, Step(n, s, es[0]), es[1..]);
    }
  }

  /** What a waiting pool can do next: a goroutine that is still at work can take a
      step, and when none is, doneCh can be closed or is. */
  function NextMove(s: State, k: nat): Event
    requires (s.gen, k) in s.pcs && !s.pcs[(s.gen, k)].Exited?
  {
    match s.pcs[(s.gen, k)]
    case Top => Poll(s.gen, k)
    case Polled => Dequeue(s.gen, k, None)
    case Holding(_) => Handle(s.gen, k, CallError)
    case _ => Settle(s.gen, k)
  }

  lemma {:induction false} StopFinishes(n: nat, s: State) returns (es: seq<Event>)
    requires Crew(n, s) && Inv(s) && s.caller.Waiting?
    ensures Run(n, s, es).Some? && Enabled(Run(n, s, es).value, StopDrained) && StopDrained !in es
    decreases Work(s.pcs, s.gen, n), s.gen !in s.doneClosed
  {
    if s.gen in s.doneClosed {
      return [];
    }
    var e;
    if Work(s.pcs, s.gen, n) == 0 {
      NoWorkLeft(s.pcs, s.gen, n);
      e := CloseDone(s.gen);
    } else {
      var k := SomeoneAtWork(s.pcs, s.gen, n);
      e := NextMove(s, k);
      assert s.pcs[(s.gen, k)].Holding? ==>
               Holds(s, (s.gen, k), s.pcs[(s.gen, k)].delivery) && Held(s, s.pcs[(s.gen, k)].delivery);
    }
    StopUsesUpWork(n, s, e);
    ProtocolKept(n, s, e);
    AccountedKept(n, s, e);
    HonestKept(n, s, e);
    CrewKept(n, s, e);
    var rest := StopFinishes(n, Step(n, s, e));
    es := [e] + rest;
    assert es[1..] == rest;
  }

  /** From every reachable state in which Stop waits, some run lets it pass, and in no
      run do goroutines take more than four steps each before it does. */
  lemma StopTerminates(n: nat, s: State) returns (es: seq<Event>)
    requires Reachable(n, s) && s.caller.Waiting?
    ensures Run(n, s, es).Some? && Enabled(Run(n, s, es).value, StopDrained)
    ensures forall fs :: Run(n, s, fs).Some? && StopDrained !in fs ==> GoroutineSteps(fs) <= 4 * n
  {
    ReachableInv(n, s);
    ReachableCrew(n, s);
    es := StopFinishes(n, s);
    forall fs | Run(n, s, fs).Some? && StopDrained !in fs ensures GoroutineSteps(fs) <= 4 * n {
      StepsAreBounded(n, s, fs);
    }
  }

  // ---- one task, as coded ------------------------------------------------

  /** The queue calls a worker makes, in order. */
  class TaskQueue {
    var acked: seq<string>
    var nacked: seq<string>

    constructor ()
      ensures acked == [] && nacked == []
    {
      acked, nacked := [], [];
    }

    method Ack(id: string)
      modifies this`acked
      ensures acked == old(acked) + [id]
    {
      acked := acked + [id];
    }

    method Nack(id: string)
      modifies this`nacked
      ensures nacked == old(nacked) + [id]
    {
      nacked := nacked + [id];
    }
  }

  method HandleSyncSource(task: Task, o: Outcome) returns (failed: bool)
    ensures failed <==> PayloadValue(task, "source_id") == "" || !(o.Synced? && o.success)
  {
    var sourceID := PayloadValue(task, "source_id");
    if sourceID == "" {
      return true;
    }
    if !o.Synced? {
      return true;
    }
    return !o.success;
  }

  /** Failed sources are only counted; the sync_all task still succeeds. */
  method HandleSyncAll(o: Outcome) returns (failed: bool, failures: nat)
    ensures failed <==> !o.SyncedAll?
    ensures o.SyncedAll? ==> failures == |set i | 0 <= i < |o.successes| && !o.successes[i]|
  {
    failures := 0;
    if !o.SyncedAll? {
      return true, 0;
    }
    ghost var bad: set<int> := {};
    for i := 0 to |o.successes|
      invariant bad == set j | 0 <= j < i && !o.successes[j]
      invariant failures == |bad|
    {
      if !o.successes[i] {
        failures := failures + 1;
        bad := bad + {i};
      }
    }
    return false, failures;
  }

  method HandleSyncContainer(task: Task, o: Outcome) returns (failed: bool)
    ensures failed <==>
              PayloadValue(task, "source_id") == "" || PayloadValue(task, "container_id") == ""
              || !(o.Synced? && o.success)
  {
    if PayloadValue(task, "source_id") == "" {
      return true;
    }
    if PayloadValue(task, "container_id") == "" {
      return true;
    }
    if o.Unsupported? {
      return true;
    }
    if !o.Synced? {
      return true;
    }
    return !o.success;
  }

  /** processTask: exactly one queue call, chosen by the handler's result. */
  method ProcessTask(queue: TaskQueue, task: Task, o: Outcome)
    modifies queue
    ensures HandlerFails(task, o) ==> queue.nacked == old(queue.nacked) + [task.id] && queue.acked == old(queue.acked)
    ensures !HandlerFails(task, o) ==> queue.acked == old(queue.acked) + [task.id] && queue.nacked == old(queue.nacked)
  {
    var failed;
    if task.ty == "sync_source" {
      failed := HandleSyncSource(task, o);
    } else if task.ty == "sync_all" {
      var failures;
      failed, failures := HandleSyncAll(o);
    } else if task.ty == "sync_container" {
      failed := HandleSyncContainer(task, o);
    } else {
      failed := true;
    }
    if failed {
      queue.Nack(task.id);
      return;
    }
    queue.Ack(task.id);
  }
}
