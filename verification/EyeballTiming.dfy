/** How long a run takes: the latency of a successful attempt, and the overall timeout. */
module EyeballTiming {
  import opened Wrappers
  import opened EyeballMachine
  import opened EyeballLedger
  import opened EyeballVerdict

  // ---------- Latency of attempt k ----------

  /** The size of the first batch; an empty in-flight set starts one attempt at once. */
  ghost function FirstBatch<T, E>(cfg: Config, st: State<T, E>): nat {
    Max(Min(Burst(cfg, st), |st.queue|), 1)
  }

  /** The time after which the next attempt is started whatever happens; without a delay, only the first batch is. */
  ghost function Pace(cfg: Config): nat {
    if cfg.delay.Some? then cfg.delay.value else 0
  }

  ghost function Waits(n: int, delay: nat): nat {
    if n <= 0 then 0 else n * delay
  }

  lemma WaitsStep(n: int, delay: nat)
    ensures Waits(n, delay) <= Waits(n + 1, delay) <= Waits(n, delay) + delay
    ensures n >= 0 ==> Waits(n + 1, delay) == Waits(n, delay) + delay
  {
  }

  lemma {:induction false} WaitsMonotone(a: int, b: int, delay: nat)
    requires a <= b
    ensures Waits(a, delay) <= Waits(b, delay)
    decreases b - a
  {
    if a < b {
      WaitsStep(a, delay);
      WaitsMonotone(a + 1, b, delay);
    }
  }

  /** The latest time at which attempt `k` delivers, if it succeeds. */
  ghost function Deadline<T, E>(cfg: Config, st: State<T, E>, k: nat): nat
    requires k < |st.queue| && st.queue[k].Resolves?
  {
    st.clock + Waits(k - FirstBatch(cfg, st) + 1, Pace(cfg)) + st.queue[k].after
  }

  /** The hypotheses on attempt `k` that its latency bound needs. */
  ghost predicate Hopeful<T, E>(cfg: Config, st: State<T, E>, k: nat) {
    && st.tasks == []
    && k < |st.queue| && st.queue[k].Resolves? && st.queue[k].outcome.Ok?
    && (cfg.delay.Some? || k < FirstBatch(cfg, st))
    && NoLaterThan(Deadline(cfg, st, k), cfg.cutoff)
  }

  /** Attempt `k` is in flight and due by `t`. */
  ghost predicate Coming<T, E>(st: State<T, E>, m: Machine<T, E>, k: nat, t: nat)
    requires k < |st.queue|
  {
    exists i :: 0 <= i < |m.st.tasks| && m.st.tasks[i].attempt == st.queue[k] && DueBy(m.st.tasks[i], t)
  }

  /** The launches so far have waited at most for their turn. */
  ghost predicate Prompt<T, E>(cfg: Config, st: State<T, E>, m: Machine<T, E>) {
    m.st.clock <= st.clock + Waits(|m.launched| - FirstBatch(cfg, st), Pace(cfg))
  }

  ghost predicate Converging<T, E>(cfg: Config, st: State<T, E>, m: Machine<T, E>, k: nat)
    requires Hopeful(cfg, st, k)
  {
    && m.st.clock <= Deadline(cfg, st, k)
    && match m.done
       case Some(v) => v.Resolved? && v.result.Ok?
       case None => if |m.launched| <= k then Prompt(cfg, st, m) else Coming(st, m, k, Deadline(cfg, st, k))
  }

  lemma ConvergingBegin<T, E>(cfg: Config, st: State<T, E>, k: nat)
    requires Hopeful(cfg, st, k)
    ensures Converging(cfg, st, Begin(cfg, st), k)
  {
    var m := Begin(cfg, st);
    if k < |m.launched| {
      assert m.st.tasks[k] == Flight(st.queue[k], st.clock);
    }
  }

  /** The staggered loop has the attempt after the launched ones in hand, and the first batch in flight. */
  ghost predicate Holding<T, E>(cfg: Config, st: State<T, E>, m: Machine<T, E>) {
    && |m.launched| < |st.queue| && m.hand == Some(st.queue[|m.launched|])
    && (if m.st.tasks == [] then |m.launched| < FirstBatch(cfg, st) else |m.launched| >= FirstBatch(cfg, st))
  }

  lemma HoldsNext<T, E>(cfg: Config, st: State<T, E>, m: Machine<T, E>)
    requires st.tasks == [] && Ledger(st, m) && Crowd(cfg, st, m) && m.done.None? && |m.launched| < |st.queue|
    ensures Holding(cfg, st, m)
  {
    LaunchedAccounted(st, m);
  }

  /** While attempt `k` still waits for its turn, the next await is over in time. */
  lemma ConvergingBefore<T, E>(cfg: Config, st: State<T, E>, m: Machine<T, E>, a: Answer, k: nat)
    requires Hopeful(cfg, st, k) && Converging(cfg, st, m, k) && Holding(cfg, st, m)
    requires Legal(cfg, m, a) && |m.launched| <= k
    ensures Converging(cfg, st, Next(cfg, m, a), k)
  {
    var first := FirstBatch(cfg, st);
    assert Prompt(cfg, st, m);
    DelayInTime(cfg, st, m, k);
    WaitsStep(|m.launched| - first, Pace(cfg));
    WaitsMonotone(|m.launched| - first + 1, k - first + 1, Pace(cfg));
    assert a.at <= st.clock + Waits(|m.launched| + 1 - first, Pace(cfg));
    LaunchesHand(cfg, m, a);
  }

  /** While attempt `k` waits behind attempts in flight, the delay comes before the cutoff. */
  lemma DelayInTime<T, E>(cfg: Config, st: State<T, E>, m: Machine<T, E>, k: nat)
    requires Hopeful(cfg, st, k) && Prompt(cfg, st, m) && Holding(cfg, st, m)
    requires |m.launched| <= k
    ensures m.st.tasks != [] ==> DelayFires(cfg, m)
  {
    var first := FirstBatch(cfg, st);
    WaitsStep(|m.launched| - first, Pace(cfg));
    WaitsMonotone(|m.launched| - first + 1, k - first + 1, Pace(cfg));
  }

  lemma LaunchesHand<T, E>(cfg: Config, m: Machine<T, E>, a: Answer)
    requires Legal(cfg, m, a)
    ensures var n := Next(cfg, m, a);
            n.st.clock == a.at &&
            (n.done.None? && m.hand.Some? ==>
               && n.launched == m.launched + [m.hand.value]
               && n.st.tasks != [] && n.st.tasks[|n.st.tasks| - 1] == Flight(m.hand.value, a.at))
  {
  }

  lemma StaysInFlight<T, E>(cfg: Config, m: Machine<T, E>, a: Answer, i: nat) returns (i': nat)
    requires Legal(cfg, m, a) && Next(cfg, m, a).done.None?
    requires i < |m.st.tasks| && a.wake != Yield(i)
    ensures i' < |Next(cfg, m, a).st.tasks| && Next(cfg, m, a).st.tasks[i'] == m.st.tasks[i]
  {
    i' := if a.wake.Yield? && a.wake.index < i then i - 1 else i;
  }

  /** Once attempt `k` is in flight, the clock stops for it. */
  lemma ConvergingAfter<T, E>(cfg: Config, st: State<T, E>, m: Machine<T, E>, a: Answer, k: nat)
    requires Hopeful(cfg, st, k) && Converging(cfg, st, m, k)
    requires Legal(cfg, m, a) && |m.launched| > k
    ensures Converging(cfg, st, Next(cfg, m, a), k)
  {
    var t := Deadline(cfg, st, k);
    var i: nat :| i < |m.st.tasks| && m.st.tasks[i].attempt == st.queue[k] && DueBy(m.st.tasks[i], t);
    assert a.at <= t && (a.wake.Dropped? ==> DelayFires(cfg, m));
    LaunchesHand(cfg, m, a);
    if Next(cfg, m, a).done.None? {
      var i' := StaysInFlight(cfg, m, a, i);
    }
  }

  lemma ConvergingStep<T, E>(cfg: Config, st: State<T, E>, m: Machine<T, E>, a: Answer, k: nat)
    requires Hopeful(cfg, st, k) && Converging(cfg, st, m, k) && Ledger(st, m) && Crowd(cfg, st, m)
    requires Legal(cfg, m, a)
    ensures Converging(cfg, st, Next(cfg, m, a), k)
    ensures Ledger(st, Next(cfg, m, a)) && Crowd(cfg, st, Next(cfg, m, a))
  {
    LedgerStep(cfg, st, m, a);
    CrowdStep(cfg, st, m, a);
    if |m.launched| <= k {
      HoldsNext(cfg, st, m);
      ConvergingBefore(cfg, st, m, a, k);
    } else {
      ConvergingAfter(cfg, st, m, a, k);
    }
  }

  lemma {:induction false} ConvergingRun<T, E>(cfg: Config, st: State<T, E>, m: Machine<T, E>, log: seq<Answer>, end: Machine<T, E>, k: nat)
    requires Hopeful(cfg, st, k) && Run(cfg, m, log, end)
    requires Converging(cfg, st, m, k) && Ledger(st, m) && Crowd(cfg, st, m)
    ensures Converging(cfg, st, end, k)
    decreases |log|
  {
    if log != [] {
      ConvergingStep(cfg, st, m, log[0], k);
      ConvergingRun(cfg, st, Next(cfg, m, log[0]), log[1..], end, k);
    }
  }

  /**
    The latency bound. If attempt `k` succeeds, `process_all` returns a success no later
    than its own duration after its turn, whatever every other attempt does, even if all
    of them hang. One delay passes for each attempt from the first batch up to `k`.
   */
  lemma LatencyBound<T, E>(cfg: Config, st: State<T, E>, log: seq<Answer>, end: Machine<T, E>, k: nat)
    requires Finishes(cfg, st, log, end) && Hopeful(cfg, st, k)
    ensures end.done.value.Resolved? && end.done.value.result.Ok?
    ensures end.st.clock <= Deadline(cfg, st, k)
  {
    LedgerBegin(cfg, st);
    ConvergingBegin(cfg, st, k);
    ConvergingRun(cfg, st, Begin(cfg, st), log, end, k);
  }

  // ---------- The bound is attained ----------

  ghost predicate OnlyHope<T, E>(st: State<T, E>, k: nat) {
    forall j | 0 <= j < |st.queue| && j != k :: st.queue[j].Hangs?
  }

  ghost predicate Waiting<T, E>(cfg: Config, st: State<T, E>, m: Machine<T, E>, k: nat)
    requires Hopeful(cfg, st, k)
  {
    match m.done
    case None =>
      && (forall i | 0 <= i < |m.st.tasks| && m.st.tasks[i].attempt.Resolves? ::
            !DueBy(m.st.tasks[i], Deadline(cfg, st, k) - 1))
      && (|m.launched| <= k ==>
            AllHang(m.st.tasks) && m.st.clock == st.clock + Waits(|m.launched| - FirstBatch(cfg, st), Pace(cfg)))
    case Some(_) => m.st.clock >= Deadline(cfg, st, k)
  }

  lemma WaitingStep<T, E>(cfg: Config, st: State<T, E>, m: Machine<T, E>, a: Answer, k: nat)
    requires Hopeful(cfg, st, k) && OnlyHope(st, k)
    requires Waiting(cfg, st, m, k) && Legal(cfg, m, a)
    requires if |m.launched| < |st.queue| then Holding(cfg, st, m) else m.hand.None?
    requires Next(cfg, m, a).done.Some? ==> a.wake.Yield?
    requires |m.launched| <= k && m.st.tasks != [] ==> DelayFires(cfg, m)
    ensures Waiting(cfg, st, Next(cfg, m, a), k)
  {
    LaunchesHand(cfg, m, a);
    if |m.launched| <= k {
      WaitsStep(|m.launched| - FirstBatch(cfg, st), Pace(cfg));
      assert !a.wake.Yield?;
      assert a.at == st.clock + Waits(|m.launched| + 1 - FirstBatch(cfg, st), Pace(cfg));
    } else if a.wake.Yield? {
      assert DueBy(m.st.tasks[a.wake.index], a.at);
    }
  }

  lemma {:induction false} WaitingRun<T, E>(cfg: Config, st: State<T, E>, m: Machine<T, E>, log: seq<Answer>, end: Machine<T, E>, k: nat)
    requires Hopeful(cfg, st, k) && OnlyHope(st, k)
    requires Run(cfg, m, log, end)
    requires Converging(cfg, st, m, k) && Ledger(st, m) && Crowd(cfg, st, m) && Waiting(cfg, st, m, k)
    ensures Waiting(cfg, st, end, k)
    decreases |log|
  {
    if log != [] {
      ConvergingStep(cfg, st, m, log[0], k);
      if |m.launched| < |st.queue| {
        HoldsNext(cfg, st, m);
        if |m.launched| <= k {
          DelayInTime(cfg, st, m, k);
        }
      }
      WaitingStep(cfg, st, m, log[0], k);
      WaitingRun(cfg, st, Next(cfg, m, log[0]), log[1..], end, k);
    }
  }

  /** When every other attempt hangs, the success comes exactly at the bound. */
  lemma LatencyAttained<T, E>(cfg: Config, st: State<T, E>, log: seq<Answer>, end: Machine<T, E>, k: nat)
    requires Finishes(cfg, st, log, end) && Hopeful(cfg, st, k)
    requires OnlyHope(st, k)
    ensures end.done == Some(Resolved(Ok(st.queue[k].outcome.value)))
    ensures end.st.clock == Deadline(cfg, st, k)
  {
    LatencyBound(cfg, st, log, end, k);
    NotBeforeDeadline(cfg, st, log, end, k);
    OnlyHopeDelivers(cfg, st, log, end, k);
  }

  lemma NotBeforeDeadline<T, E>(cfg: Config, st: State<T, E>, log: seq<Answer>, end: Machine<T, E>, k: nat)
    requires Finishes(cfg, st, log, end) && Hopeful(cfg, st, k)
    requires OnlyHope(st, k)
    ensures end.st.clock >= Deadline(cfg, st, k)
  {
    var first := Begin(cfg, st);
    LedgerBegin(cfg, st);
    ConvergingBegin(cfg, st, k);
    WaitingBegin(cfg, st, k);
    WaitingRun(cfg, st, first, log, end, k);
  }

  lemma WaitingBegin<T, E>(cfg: Config, st: State<T, E>, k: nat)
    requires Hopeful(cfg, st, k) && OnlyHope(st, k)
    ensures Waiting(cfg, st, Begin(cfg, st), k)
  {
  }

  lemma OnlyHopeDelivers<T, E>(cfg: Config, st: State<T, E>, log: seq<Answer>, end: Machine<T, E>, k: nat)
    requires Finishes(cfg, st, log, end) && st.tasks == [] && k < |st.queue| && OnlyHope(st, k)
    requires end.done.value.Resolved? && end.done.value.result.Ok?
    ensures st.queue[k].Resolves? && st.queue[k].outcome == Ok(end.done.value.result.value)
  {
    EndsOrderly(cfg, st, log, end);
    OkHasCause(cfg, st, end, end.done.value.result.value);
  }

  /**
    Both in ticks, without an overall timeout. With `first` attempts in the first batch, at
    least one, and a delay between any later two, attempt `k` succeeds after no more than
    `k - first + 1` delays and its own duration, and after no less if all others hang.
   */
  lemma LatencyInTicks<T, E>(cfg: Config, st: State<T, E>, log: seq<Answer>, end: Machine<T, E>, k: nat, first: nat)
    requires Finishes(cfg, st, log, end) && cfg.cutoff.None? && st.tasks == []
    requires k < |st.queue| && st.queue[k].Resolves? && st.queue[k].outcome.Ok?
    requires first == Max(1, if cfg.burst.Some? && cfg.burst.value < |st.queue| then cfg.burst.value else |st.queue|)
    requires cfg.delay.Some? || k < first
    ensures end.done.value.Resolved? && end.done.value.result.Ok?
    ensures var ticks := if k < first then 0 else (k - first + 1) * cfg.delay.value;
            && end.st.clock <= st.clock + ticks + st.queue[k].after
            && ((forall j | 0 <= j < |st.queue| && j != k :: st.queue[j].Hangs?) ==>
                  end.st.clock == st.clock + ticks + st.queue[k].after
                  && end.done.value.result.value == st.queue[k].outcome.value)
  {
    LatencyBound(cfg, st, log, end, k);
    if OnlyHope(st, k) {
      LatencyAttained(cfg, st, log, end, k);
    }
  }

  // ---------- The overall timeout ----------

  ghost predicate Stopwatch<T, E>(cfg: Config, st: State<T, E>, m: Machine<T, E>) {
    && m.st.started == (if st.started.Some? then st.started else Some(st.clock))
    && (m.done == Some(Unresolved) && cfg.cutoff.Some? ==>
          m.st.clock == cfg.cutoff.value && NoneDue(m.st.tasks, m.st.clock))
  }

  lemma {:induction false} StopwatchRun<T, E>(cfg: Config, st: State<T, E>, m: Machine<T, E>, log: seq<Answer>, end: Machine<T, E>)
    requires Run(cfg, m, log, end) && m.done.None? && end.done.Some?
    requires m.st.started.None? ==> m.st.clock == st.clock && st.started.None?
    requires m.st.started.Some? ==> m.st.started == (if st.started.Some? then st.started else Some(st.clock))
    ensures Stopwatch(cfg, st, end)
    decreases |log|
  {
    var n := Next(cfg, m, log[0]);
    if n.done.None? {
      StopwatchRun(cfg, st, n, log[1..], end);
    } else {
      DoneRun(cfg, n, log[1..], end);
    }
  }

  /**
    `finish` with an overall timeout `t` is back no later than `t` after it began. It
    reports `Timeout` just when `process_all` is still unresolved at that moment, with
    nothing that could have been yielded by then; any result available in that last poll
    wins. The duration reported runs from the first await of the set's life: it is `t`
    only for a set that was never run before.
   */
  lemma OverallTimeout<T, E>(setup: Setup, st: State<T, E>, log: seq<Answer>, end: Machine<T, E>)
    requires Finishes(ConfigAt(setup, st.clock), st, log, end) && setup.timeout.Some?
    requires st.started.Some? ==> st.started.value <= st.clock
    ensures st.clock <= end.st.clock <= st.clock + setup.timeout.value
    ensures Returned(setup, end).Some?
    ensures end.done.value.Resolved? ==> Returned(setup, end).value == end.done.value.result
    ensures end.done.value.Unresolved? ==>
              && end.st.clock == st.clock + setup.timeout.value
              && NoneDue(end.st.tasks, end.st.clock)
              && Returned(setup, end).value == Err(Timeout(
                   setup.timeout.value + if st.started.Some? then st.clock - st.started.value else 0))
  {
    var cfg := ConfigAt(setup, st.clock);
    RunOnTime(cfg, st.clock, Begin(cfg, st), log, end);
    StopwatchRun(cfg, st, Begin(cfg, st), log, end);
  }

  /** A timeout is reported only if no attempt that succeeds and gets its turn could deliver in time. */
  lemma TimeoutOnlyWhenLate<T, E>(setup: Setup, st: State<T, E>, log: seq<Answer>, end: Machine<T, E>, k: nat)
    requires Finishes(ConfigAt(setup, st.clock), st, log, end)
    requires st.tasks == [] && setup.timeout.Some? && end.done.value.Unresolved?
    requires k < |st.queue| && st.queue[k].Resolves? && st.queue[k].outcome.Ok?
    requires setup.delay.Some? || k < FirstBatch(ConfigAt(setup, st.clock), st)
    ensures Deadline(ConfigAt(setup, st.clock), st, k) > st.clock + setup.timeout.value
  {
    if Hopeful(ConfigAt(setup, st.clock), st, k) {
      LatencyBound(ConfigAt(setup, st.clock), st, log, end, k);
    }
  }
}
