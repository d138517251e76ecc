/** Background tasks: the state changes of domain.Task, the retry backoff in Go's
    64-bit arithmetic, and the life of a task between queue and workers. Times and
    durations are nanoseconds. */
module Tasks {
  import opened Wrappers

  // ---- 64-bit arithmetic -------------------------------------------------

  const TWO63 := 0x8000_0000_0000_0000
  const TWO64 := 0x1_0000_0000_0000_0000

  /** A mathematical integer brought into the int64 range. */
  function Wrap64(x: int): (r: int)
    ensures -TWO63 <= r < TWO63
    ensures -TWO63 <= x < TWO63 ==> r == x
  {
    (x + TWO63) % TWO64 - TWO63
  }

  function Pow2(n: nat): (p: nat)
    ensures p >= 1
  {
    if n == 0 then 1 else 2 * Pow2(n - 1)
  }

  /** Go's `1 << n` on an int64: bits shifted out are lost. */
  function Shift(n: nat): int {
    if n >= 64 then 0 else Wrap64(Pow2(n))
  }

  const SECOND := 1_000_000_000
  const MAX_BACKOFF := 300 * SECOND

  /** Task.Retry's backoff as computed: shift, multiply, cap. */
  function Backoff(attempts: nat): int {
    var d := Wrap64(Shift(attempts) * SECOND);
    if d > MAX_BACKOFF then MAX_BACKOFF else d
  }

  function Min(a: int, b: int): int { if a <= b then a else b }

  /** The backoff the comment promises: 1s, 2s, 4s, ... up to five minutes. */
  function IntendedBackoff(attempts: nat): int {
    Min(Pow2(attempts), 300) * SECOND
  }

  lemma {:induction false} Pow2Monotone(m: nat, n: nat)
    requires m <= n
    ensures Pow2(m) <= Pow2(n)
    decreases n
  {
    if m < n { Pow2Monotone(m, n - 1); }
  }

  lemma {:induction false} Pow2Adds(m: nat, n: nat)
    ensures Pow2(m + n) == Pow2(m) * Pow2(n)
  {
    if m > 0 {
      Pow2Adds(m - 1, n);
      assert Pow2(m + n) == 2 * (Pow2(m - 1) * Pow2(n));
    }
  }

  /** Powers of two by their values, up to the last one that matters here. */
  lemma Pow2Values()
    ensures Pow2(9) == 512 && Pow2(33) == 8589934592 && Pow2(34) == 17179869184
    ensures Pow2(54) == 18014398509481984 && Pow2(55) == 36028797018963968
    ensures Pow2(63) == TWO63
  {
    assert Pow2(8) == 256;
    assert Pow2(16) == 65536 by { Pow2Adds(8, 8); }
    assert Pow2(32) == 4294967296 by { Pow2Adds(16, 16); }
    assert Pow2(48) == 281474976710656 by { Pow2Adds(32, 16); }
    assert Pow2(54) == 64 * Pow2(48) by { Pow2Adds(6, 48); }
    assert Pow2(56) == 256 * Pow2(48) by { Pow2Adds(8, 48); }
    assert Pow2(63) == 128 * Pow2(56) by { Pow2Adds(7, 56); }
  }

  /** Up to 33 attempts nothing overflows and the backoff is the intended one. */
  lemma BackoffWithoutOverflow(attempts: nat)
    requires attempts <= 33
    ensures Shift(attempts) * SECOND < TWO63
    ensures Backoff(attempts) == IntendedBackoff(attempts)
  {
    Pow2Values();
    Pow2Monotone(attempts, 33);
    assert Pow2(attempts) * SECOND <= 8589934592 * SECOND;
  }

  /** From 55 attempts on every bit is shifted out and the backoff is zero. */
  lemma BackoffVanishes(attempts: nat)
    requires attempts >= 55
    ensures Backoff(attempts) == 0
  {
    if attempts < 64 {
      Pow2Values();
      Pow2Adds(attempts - 55, 55);
      var k := Pow2(attempts - 55);
      assert SECOND == 512 * 1953125;
      assert Pow2(attempts) == k * 36028797018963968;
      if attempts == 63 {
        assert Shift(63) == -TWO63;
        assert Shift(63) * SECOND == -(256 * 1953125) * TWO64;
        MultipleOfTwo64(-(256 * 1953125));
      } else {
        Pow2Monotone(attempts, 62);
        assert Pow2(63) == 2 * Pow2(62);
        assert Shift(attempts) * SECOND == (k * 1953125) * (36028797018963968 * 512);
        assert 36028797018963968 * 512 == TWO64;
        MultipleOfTwo64(k * 1953125);
      }
    }
  }

  lemma MultipleOfTwo64(k: int)
    ensures Wrap64(k * TWO64) == 0
  {
    assert (k * TWO64 + TWO63) % TWO64 == TWO63 by {
      if k >= 0 { ModAdd(TWO63, k); } else { ModSub(TWO63, -k); }
    }
  }

  lemma {:induction false} ModAdd(x: int, k: nat)
    ensures (x + k * TWO64) % TWO64 == x % TWO64
  {
    if k > 0 {
      ModAdd(x, k - 1);
      assert (x + (k - 1) * TWO64 + TWO64) % TWO64 == (x + (k - 1) * TWO64) % TWO64;
    }
  }

  lemma {:induction false} ModSub(x: int, k: nat)
    ensures (x - k * TWO64) % TWO64 == x % TWO64
  {
    if k > 0 {
      ModSub(x, k - 1);
      assert (x - (k - 1) * TWO64 - TWO64) % TWO64 == (x - (k - 1) * TWO64) % TWO64;
    }
  }

  /** The attempt counts from 34 to 54 whose overflowing product happens to wrap to
      a value above the cap. */
  const LUCKY := {37, 41, 42, 45, 47, 50, 51, 53}

  /** One row of the overflow table: the product is `r` once `k` times 2^64 is off. */
  lemma BackoffRow(attempts: nat, p: nat, r: int, k: nat)
    requires attempts < 63 && Pow2(attempts) == p < TWO63
    requires p * SECOND == r + k * TWO64 && -TWO63 <= r < TWO63
    ensures Backoff(attempts) == Min(r, MAX_BACKOFF)
  {
    ModAdd(r + TWO63, k);
  }

  lemma Pow2Table()
    ensures Pow2(34) == 17179869184
    ensures Pow2(35) == 34359738368
    ensures Pow2(36) == 68719476736
    ensures Pow2(37) == 137438953472
    ensures Pow2(38) == 274877906944
    ensures Pow2(39) == 549755813888
    ensures Pow2(40) == 1099511627776
    ensures Pow2(41) == 2199023255552
    ensures Pow2(42) == 4398046511104
    ensures Pow2(43) == 8796093022208
    ensures Pow2(44) == 17592186044416
    ensures Pow2(45) == 35184372088832
    ensures Pow2(46) == 70368744177664
    ensures Pow2(47) == 140737488355328
    ensures Pow2(48) == 281474976710656
    ensures Pow2(49) == 562949953421312
    ensures Pow2(50) == 1125899906842624
    ensures Pow2(51) == 2251799813685248
    ensures Pow2(52) == 4503599627370496
    ensures Pow2(53) == 9007199254740992
    ensures Pow2(54) == 18014398509481984
  {
    Pow2Values();
  }

  lemma BackoffWraps1(attempts: nat)
    requires 34 <= attempts <= 37
    ensures Backoff(attempts) == MAX_BACKOFF <==> attempts in LUCKY
  {
    Pow2Table();
    if attempts == 34 { BackoffRow(34, 17179869184, -1266874889709551616, 1); }
    if attempts == 35 { BackoffRow(35, 34359738368, -2533749779419103232, 2); }
    if attempts == 36 { BackoffRow(36, 68719476736, -5067499558838206464, 4); }
    if attempts == 37 { BackoffRow(37, 137438953472, 8311744956033138688, 7); }
  }

  lemma BackoffWraps2(attempts: nat)
    requires 38 <= attempts <= 41
    ensures Backoff(attempts) == MAX_BACKOFF <==> attempts in LUCKY
  {
    Pow2Table();
    if attempts == 38 { BackoffRow(38, 274877906944, -1823254161643274240, 15); }
    if attempts == 39 { BackoffRow(39, 549755813888, -3646508323286548480, 30); }
    if attempts == 40 { BackoffRow(40, 1099511627776, -7293016646573096960, 60); }
    if attempts == 41 { BackoffRow(41, 2199023255552, 3860710780563357696, 119); }
  }

  lemma BackoffWraps3(attempts: nat)
    requires 42 <= attempts <= 45
    ensures Backoff(attempts) == MAX_BACKOFF <==> attempts in LUCKY
  {
    Pow2Table();
    if attempts == 42 { BackoffRow(42, 4398046511104, 7721421561126715392, 238); }
    if attempts == 43 { BackoffRow(43, 8796093022208, -3003900951456120832, 477); }
    if attempts == 44 { BackoffRow(44, 17592186044416, -6007801902912241664, 954); }
    if attempts == 45 { BackoffRow(45, 35184372088832, 6431140267885068288, 1907); }
  }

  lemma BackoffWraps4(attempts: nat)
    requires 46 <= attempts <= 49
    ensures Backoff(attempts) == MAX_BACKOFF <==> attempts in LUCKY
  {
    Pow2Table();
    if attempts == 46 { BackoffRow(46, 70368744177664, -5584463537939415040, 3815); }
    if attempts == 47 { BackoffRow(47, 140737488355328, 7277816997830721536, 7629); }
    if attempts == 48 { BackoffRow(48, 281474976710656, -3891110078048108544, 15259); }
    if attempts == 49 { BackoffRow(49, 562949953421312, -7782220156096217088, 30518); }
  }

  lemma BackoffWraps5(attempts: nat)
    requires 50 <= attempts <= 54
    ensures Backoff(attempts) == MAX_BACKOFF <==> attempts in LUCKY
  {
    Pow2Table();
    if attempts == 50 { BackoffRow(50, 1125899906842624, 2882303761517117440, 61035); }
    if attempts == 51 { BackoffRow(51, 2251799813685248, 5764607523034234880, 122070); }
    if attempts == 52 { BackoffRow(52, 4503599627370496, -6917529027641081856, 244141); }
    if attempts == 53 { BackoffRow(53, 9007199254740992, 4611686018427387904, 488281); }
    if attempts == 54 { BackoffRow(54, 18014398509481984, -9223372036854775808, 976563); }
  }

  lemma BackoffWraps(attempts: nat)
    requires 34 <= attempts <= 54
    ensures Backoff(attempts) == IntendedBackoff(attempts) <==> attempts in LUCKY
  {
    Pow2Values();
    Pow2Monotone(34, attempts);
    if attempts <= 37 {
      BackoffWraps1(attempts);
    } else if attempts <= 41 {
      BackoffWraps2(attempts);
    } else if attempts <= 45 {
      BackoffWraps3(attempts);
    } else if attempts <= 49 {
      BackoffWraps4(attempts);
    } else {
      BackoffWraps5(attempts);
    }
  }

  /** Exactly when the computed backoff is the intended one, for every attempt count. */
  lemma BackoffExact(attempts: nat)
    ensures Backoff(attempts) == IntendedBackoff(attempts) <==> attempts <= 33 || attempts in LUCKY
  {
    if attempts <= 33 {
      BackoffWithoutOverflow(attempts);
    } else if attempts <= 54 {
      BackoffWraps(attempts);
    } else {
      BackoffVanishes(attempts);
    }
  }

  // ---- task state --------------------------------------------------------

  datatype Status = Pending | Processing | Completed | Failed

  const MAX_ATTEMPTS := 3

  class Task {
    var status: Status
    var attempts: nat
    var maxAttempts: int
    var error: string
    var updatedAt: int
    var startedAt: Option<int>
    var completedAt: Option<int>
    var scheduledFor: int

    /** NewTask. */
    constructor (now: int)
      ensures View() == New(now)
      ensures error == "" && updatedAt == now && startedAt.None? && completedAt.None?
    {
      status, attempts, maxAttempts := Pending, 0, MAX_ATTEMPTS;
      error, updatedAt, startedAt, completedAt, scheduledFor := "", now, None, None, now;
    }

    function View(): Life
      reads this
    {
      Life(status, attempts, maxAttempts, scheduledFor)
    }

    predicate CanRetry()
      reads this
    {
      attempts < maxAttempts
    }

    method MarkProcessing(now: int)
      modifies this
      ensures View() == Delivered(old(View()))
      ensures startedAt == Some(now) && updatedAt == now && error == old(error) && completedAt == old(completedAt)
    {
      status := Processing;
      startedAt := Some(now);
      updatedAt := now;
      attempts := attempts + 1;
    }

    method MarkCompleted(now: int)
      modifies this
      ensures View() == Acked(old(View()))
      ensures completedAt == Some(now) && updatedAt == now && error == "" && startedAt == old(startedAt)
    {
      status := Completed;
      completedAt := Some(now);
      updatedAt := now;
      error := "";
    }

    method MarkFailed(err: string, now: int)
      modifies this
      ensures View() == old(View()).(status := Failed)
      ensures error == err && updatedAt == now && startedAt == old(startedAt) && completedAt == old(completedAt)
    {
      status := Failed;
      updatedAt := now;
      error := err;
    }

    method Retry(err: string, now: int)
      modifies this
      ensures View() == old(View()).(status := Pending, scheduledFor := now + Backoff(old(attempts)))
      ensures error == err && updatedAt == now && startedAt == old(startedAt) && completedAt == old(completedAt)
    {
      status := Pending;
      updatedAt := now;
      error := err;
      var backoff := Wrap64(Shift(attempts) * SECOND);
      if backoff > MAX_BACKOFF {
        backoff := MAX_BACKOFF;
      }
      scheduledFor := now + backoff;
    }

    /** What the queue does with a failed task. */
    method Nack(reason: string, now: int)
      modifies this
      ensures View() == Nacked(old(View()), now)
      ensures error == reason && updatedAt == now
    {
      if CanRetry() {
        Retry(reason, now);
      } else {
        MarkFailed(reason, now);
      }
    }

    /** The queue's cancellation, which only a pending task takes. */
    method Cancel(now: int) returns (ok: bool)
      modifies this
      ensures ok <==> old(status) == Pending
      ensures View() == if ok then Cancelled(old(View())) else old(View())
      ensures if ok then error == "cancelled" && updatedAt == now
              else error == old(error) && updatedAt == old(updatedAt)
      ensures startedAt == old(startedAt) && completedAt == old(completedAt)
    {
      ok := status == Pending;
      if ok {
        status, updatedAt, error := Failed, now, "cancelled";
      }
    }
  }

  // ---- the life of a task ------------------------------------------------

  /** The fields of a task that its life turns on. */
  datatype Life = Life(status: Status, attempts: nat, maxAttempts: int, scheduledFor: int)

  function New(now: int): Life { Life(Pending, 0, MAX_ATTEMPTS, now) }

  function Delivered(l: Life): Life { l.(status := Processing, attempts := l.attempts + 1) }

  function Acked(l: Life): Life { l.(status := Completed) }

  function Nacked(l: Life, now: int): Life {
    if l.attempts < l.maxAttempts
    then l.(status := Pending, scheduledFor := now + Backoff(l.attempts))
    else l.(status := Failed)
  }

  function Cancelled(l: Life): Life { l.(status := Failed) }

  datatype Event = Deliver(at: int) | Ack(at: int) | Nack(at: int) | Cancel(at: int)

  /** The queue delivers a pending task once its time has come, a delivery is answered
      by one Ack or one Nack, and only a pending task can be cancelled. */
  predicate Enabled(l: Life, e: Event) {
    match e
    case Deliver(at) => l.status == Pending && l.scheduledFor <= at
    case Ack(_) => l.status == Processing
    case Nack(_) => l.status == Processing
    case Cancel(_) => l.status == Pending
  }

  function Next(l: Life, e: Event): Life {
    match e
    case Deliver(_) => Delivered(l)
    case Ack(_) => Acked(l)
    case Nack(at) => Nacked(l, at)
    case Cancel(_) => Cancelled(l)
  }

  /** The state after a run, None if some event was not possible. */
  function Run(l: Life, es: seq<Event>): Option<Life>
    decreases |es|
  {
    if es == [] then Some(l)
    else if Enabled(l, es[0]) then Run(Next(l, es[0]), es[1..])
    else None
  }

  function Deliveries(es: seq<Event>): nat {
    if es == [] then 0 else (if es[0].Deliver? then 1 else 0) + Deliveries(es[1..])
  }

  /** The attempt count stays within bounds that depend on the status. */
  predicate Bounded(l: Life) {
    && l.maxAttempts == MAX_ATTEMPTS
    && (l.status == Pending ==> l.attempts < MAX_ATTEMPTS)
    && (l.status == Processing ==> 1 <= l.attempts <= MAX_ATTEMPTS)
    && l.attempts <= MAX_ATTEMPTS
  }

  lemma {:induction false} RunStaysBounded(l: Life, es: seq<Event>)
    requires Bounded(l) && Run(l, es).Some?
    ensures Bounded(Run(l, es).value)
    ensures Run(l, es).value.attempts == l.attempts + Deliveries(es)
    decreases |es|
  {
    if es != [] { RunStaysBounded(Next(l, es[0]), es[1..]); }
  }

  /** On every run from a new task: it is delivered at most three times, exactly as
      often as its counter says; it fails exactly when it is cancelled while pending or
      its third delivery is not acknowledged; and its backoff arithmetic is exact. */
  lemma EveryRunIsBounded(now: int, es: seq<Event>)
    requires Run(New(now), es).Some?
    ensures var l := Run(New(now), es).value;
            && Deliveries(es) == l.attempts <= MAX_ATTEMPTS
            && (l.status == Failed <==>
                  es != [] && (es[|es| - 1].Cancel? || (es[|es| - 1].Nack? && Deliveries(es) == MAX_ATTEMPTS)))
            && (es != [] && es[|es| - 1].Cancel? ==> Deliveries(es) < MAX_ATTEMPTS)
            && Backoff(l.attempts) == IntendedBackoff(l.attempts) > 0
  {
    RunStaysBounded(New(now), es);
    BackoffWithoutOverflow(Run(New(now), es).value.attempts);
    if es != [] {
      LastEvent(New(now), es);
    }
  }

  /** How the last event leaves a task. */
  lemma {:induction false} LastEvent(l: Life, es: seq<Event>)
    requires Bounded(l) && es != [] && Run(l, es).Some?
    ensures var t, e := Run(l, es).value, es[|es| - 1];
            && (t.status == Failed <==> e.Cancel? || (e.Nack? && t.attempts == MAX_ATTEMPTS))
            && (e.Cancel? ==> t.attempts < MAX_ATTEMPTS)
    decreases |es|
  {
    var u := Next(l, es[0]);
    if |es| == 1 {
      assert es[1..] == [] && Run(l, es) == Some(u);
    } else {
      assert Bounded(u) && es[1..][|es[1..]| - 1] == es[|es| - 1];
      LastEvent(u, es[1..]);
    }
  }

  lemma {:induction false} RunAppend(l: Life, es: seq<Event>, fs: seq<Event>)
    ensures Run(l, es + fs) == if Run(l, es).Some? then Run(Run(l, es).value, fs) else None
    decreases |es|
  {
    if es == [] {
      assert es + fs == fs;
    } else {
      assert (es + fs)[1..] == es[1..] + fs;
      if Enabled(l, es[0]) { RunAppend(Next(l, es[0]), es[1..], fs); }
    }
  }

  /** A refused task is delivered again exactly if it was delivered at most twice, and
      exactly from 2^n seconds after the refusal of its n-th delivery on. */
  lemma RedeliveryWaits(now: int, es: seq<Event>, failedAt: int, redeliveredAt: int)
    requires Run(New(now), es + [Nack(failedAt)]).Some?
    ensures Run(New(now), es + [Nack(failedAt), Deliver(redeliveredAt)]).Some? <==>
              Deliveries(es) < 3 && redeliveredAt >= failedAt + Pow2(Deliveries(es)) * 1_000_000_000
    ensures 1 <= Deliveries(es) <= 3
  {
    var tail := [Nack(failedAt), Deliver(redeliveredAt)];
    RunAppend(New(now), es, [Nack(failedAt)]);
    RunAppend(New(now), es, tail);
    RunStaysBounded(New(now), es);
    var l := Run(New(now), es).value;
    assert Enabled(l, Nack(failedAt));
    assert tail[1..] == [Deliver(redeliveredAt)];
    assert Run(l, tail) == Run(Next(l, tail[0]), tail[1..]);
    BackoffWithoutOverflow(l.attempts);
    Pow2Monotone(l.attempts, 3);
    assert Pow2(3) == 8;
    OneEvent(Next(l, tail[0]), Deliver(redeliveredAt));
  }

  lemma {:induction false} OneEvent(l: Life, e: Event)
    ensures Run(l, [e]).Some? <==> Enabled(l, e)
  {
    assert [e][1..] == [];
  }

  /** A new task may be delivered at once, and an acknowledged, failed or cancelled one
      never again. */
  lemma OnlyPendingIsDelivered(now: int, es: seq<Event>, at: int)
    requires Run(New(now), es).Some?
    ensures es == [] ==> (Run(New(now), es + [Deliver(at)]).Some? <==> at >= now)
    ensures es != [] && !es[|es| - 1].Nack? ==> Run(New(now), es + [Deliver(at)]).None?
  {
    RunAppend(New(now), es, [Deliver(at)]);
    OneEvent(Run(New(now), es).value, Deliver(at));
    if es != [] { NotPendingAfter(New(now), es); }
  }

  lemma {:induction false} NotPendingAfter(l: Life, es: seq<Event>)
    requires es != [] && Run(l, es).Some?
    ensures !es[|es| - 1].Nack? ==> Run(l, es).value.status != Pending
    decreases |es|
  {
    var u := Next(l, es[0]);
    if |es| == 1 {
      assert es[1..] == [] && Run(l, es) == Some(u);
    } else {
      assert es[1..][|es[1..]| - 1] == es[|es| - 1];
      NotPendingAfter(u, es[1..]);
    }
  }
}
