/**
  What a run comes to, for every delay, burst and completion order: how many attempts are
  in flight, and exactly when the result is a success, an error, or never comes.
 */
module EyeballVerdict {
  import opened Wrappers
  import opened EyeballMachine
  import opened EyeballLedger
  import opened EyeballErrors

  /** How many of `xs` never resolve. */
  ghost function Hung<T, E>(xs: seq<Attempt<T, E>>): nat {
    multiset(xs)[Hangs]
  }

  lemma {:induction false} CountBound<A>(s: seq<A>, x: A)
    ensures multiset(s)[x] <= |s|
    ensures (forall i | 0 <= i < |s| :: s[i] == x) ==> multiset(s)[x] == |s|
  {
    if s != [] {
      CountBound(s[1..], x);
      assert s == [s[0]] + s[1..];
      assert multiset(s)[x] == multiset([s[0]])[x] + multiset(s[1..])[x];
    }
  }

  /** How many may be in flight before any delay expires: those that were, and the burst, at least one. */
  ghost function Cap<T, E>(cfg: Config, st: State<T, E>): nat {
    Max(|st.tasks| + Burst(cfg, st), 1)
  }

  ghost function HungBefore<T, E>(st: State<T, E>, xs: seq<Attempt<T, E>>): nat {
    Hung(Attempts(st.tasks)) + Hung(xs)
  }

  // ---------- How many are in flight ----------

  ghost predicate Crowd<T, E>(cfg: Config, s0: State<T, E>, m: Machine<T, E>) {
    && |m.st.tasks| <= Cap(cfg, s0) + m.expiries
    && (cfg.delay.None? ==> m.expiries == 0)
    && (m.hand.Some? ==>
          && |m.launched| >= Burst(cfg, s0)
          && (m.st.tasks == [] ==> |s0.tasks| + Burst(cfg, s0) == 0 && m.launched == [])
          && (cfg.delay.None? && m.st.tasks != [] ==> |m.st.tasks| == Cap(cfg, s0)))
    && |m.launched| >= Min(Burst(cfg, s0), |s0.queue|)
    && (m.done == Some(Unresolved) ==>
          && m.st.tasks != []
          && (cfg.cutoff.None? ==> AllHang(m.st.tasks))
          && (cfg.cutoff.None? && m.discarded != [] ==> cfg.delay.None? && |m.st.tasks| == Cap(cfg, s0)))
  }

  lemma CrowdStep<T, E>(cfg: Config, s0: State<T, E>, m: Machine<T, E>, a: Answer)
    requires Crowd(cfg, s0, m) && Legal(cfg, m, a) && m.discarded == []
    ensures Crowd(cfg, s0, Next(cfg, m, a))
  {
  }

  lemma {:induction false} CrowdRun<T, E>(cfg: Config, s0: State<T, E>, m: Machine<T, E>, log: seq<Answer>, end: Machine<T, E>)
    requires Run(cfg, m, log, end) && Crowd(cfg, s0, m) && Ledger(s0, m)
    ensures Crowd(cfg, s0, end)
    decreases |log|
  {
    if log != [] {
      CrowdStep(cfg, s0, m, log[0]);
      LedgerStep(cfg, s0, m, log[0]);
      CrowdRun(cfg, s0, Next(cfg, m, log[0]), log[1..], end);
    }
  }

  /** How many awaits of a run were dropped. */
  function Drops(log: seq<Answer>): nat {
    if log == [] then 0 else (if log[0].wake.Dropped? then 1 else 0) + Drops(log[1..])
  }

  /** The expiries counted are the awaits dropped, but for the one that ends an unresolved run. */
  lemma {:induction false} ExpiriesCounted<T, E>(cfg: Config, m: Machine<T, E>, log: seq<Answer>, end: Machine<T, E>)
    requires Run(cfg, m, log, end)
    ensures end.expiries + (if m.done.None? && end.done == Some(Unresolved) then 1 else 0) == m.expiries + Drops(log)
    decreases |log|
  {
    if log != [] {
      var n := Next(cfg, m, log[0]);
      if n.done.Some? {
        DoneRun(cfg, n, log[1..], end);
      }
      ExpiriesCounted(cfg, n, log[1..], end);
    }
  }

  lemma ExpiryTakesDelay<T, E>(cfg: Config, m: Machine<T, E>, a: Answer)
    requires Legal(cfg, m, a) && NoLaterThan(m.st.clock, cfg.cutoff)
    ensures m.st.clock <= Next(cfg, m, a).st.clock && NoLaterThan(Next(cfg, m, a).st.clock, cfg.cutoff)
    ensures Next(cfg, m, a).expiries == m.expiries
            || (Next(cfg, m, a).expiries == m.expiries + 1 && cfg.delay.Some?
                && Next(cfg, m, a).st.clock == m.st.clock + cfg.delay.value)
  {
  }

  lemma TimesStep(from: int, mid: int, to: int, d: nat, start: int, now: int, end: int)
    requires (mid == from && start <= now) || (mid == from + 1 && now == start + d)
    requires (to - mid) * d <= end - now
    ensures (to - from) * d <= end - start
  {
    if mid == from + 1 {
      assert (to - from) * d == (to - mid) * d + d;
    }
  }

  lemma {:induction false} ExpiriesTakeTime<T, E>(cfg: Config, m: Machine<T, E>, log: seq<Answer>, end: Machine<T, E>)
    requires Run(cfg, m, log, end) && NoLaterThan(m.st.clock, cfg.cutoff) && cfg.delay.Some?
    ensures (end.expiries - m.expiries) * cfg.delay.value <= end.st.clock - m.st.clock
    decreases |log|
  {
    if log != [] {
      var n := Next(cfg, m, log[0]);
      ExpiryTakesDelay(cfg, m, log[0]);
      ExpiriesTakeTime(cfg, n, log[1..], end);
      TimesStep(m.expiries, n.expiries, end.expiries, cfg.delay.value, m.st.clock, n.st.clock, end.st.clock);
    }
  }

  /**
    At every point of every run: no more attempts are in flight than when it began, plus
    the burst, at least one, plus the delay expiries so far; without a delay there are no
    expiries. An expiry is a dropped await that does not end the run. The staggered loop
    finds the set empty only before it has launched anything, and only with a burst of 0.
   */
  lemma InFlightBound<T, E>(cfg: Config, st: State<T, E>, log: seq<Answer>, m: Machine<T, E>)
    requires Run(cfg, Begin(cfg, st), log, m)
    ensures |m.st.tasks| <= Cap(cfg, st) + m.expiries
    ensures m.expiries + (if m.done == Some(Unresolved) then 1 else 0) == Drops(log)
    ensures cfg.delay.None? ==> |m.st.tasks| <= Cap(cfg, st)
    ensures m.hand.Some? && m.st.tasks == [] ==> st.tasks == [] && cfg.burst == Some(0) && m.launched == []
  {
    ExpiriesCounted(cfg, Begin(cfg, st), log, m);
    CrowdOf(cfg, st, log, m);
  }

  lemma CrowdOf<T, E>(cfg: Config, st: State<T, E>, log: seq<Answer>, m: Machine<T, E>)
    requires Run(cfg, Begin(cfg, st), log, m)
    ensures Crowd(cfg, st, m) && (m.hand.Some? ==> st.queue != [])
  {
    var first := Begin(cfg, st);
    assert Ledger(st, first) by { LedgerBegin(cfg, st); }
    assert Crowd(cfg, st, first);
    LedgerRun(cfg, st, first, log, m);
    CrowdRun(cfg, st, first, log, m);
  }

  /** With a delay, then, the crowd grows by no more than one attempt for each whole delay that has passed. */
  lemma InFlightOverTime<T, E>(cfg: Config, st: State<T, E>, log: seq<Answer>, m: Machine<T, E>)
    requires Run(cfg, Begin(cfg, st), log, m)
    requires cfg.delay.Some? && NoLaterThan(st.clock, cfg.cutoff)
    ensures (|m.st.tasks| - Cap(cfg, st)) * cfg.delay.value <= m.st.clock - st.clock
  {
    InFlightBound(cfg, st, log, m);
    ExpiriesTakeTime(cfg, Begin(cfg, st), log, m);
    TimesMonotone(|m.st.tasks| - Cap(cfg, st), m.expiries, cfg.delay.value);
  }

  lemma TimesMonotone(a: int, b: int, d: nat)
    requires a <= b
    ensures a * d <= b * d
  {
    assert (b - a) * d >= 0;
  }

  // ---------- What has been yielded ----------

  ghost predicate AllFail<T, E>(xs: seq<Attempt<T, E>>) {
    forall i | 0 <= i < |xs| :: Fails(xs[i])
  }

  /** The last attempt yielded succeeded with `v`, and it is the only one that did. */
  ghost predicate FirstSuccess<T, E>(xs: seq<Attempt<T, E>>, v: T) {
    xs != [] && Succeeds(xs[|xs| - 1]) && xs[|xs| - 1].outcome.value == v && AllFail(xs[..|xs| - 1])
  }

  ghost predicate Outcomes<T, E>(m: Machine<T, E>) {
    match m.done
    case Some(Resolved(Ok(v))) => FirstSuccess(m.yielded, v)
    case _ => AllFail(m.yielded)
  }

  lemma OutcomesStep<T, E>(cfg: Config, m: Machine<T, E>, a: Answer)
    requires Outcomes(m) && Legal(cfg, m, a)
    ensures Outcomes(Next(cfg, m, a))
  {
    if a.wake.Yield? {
      var x := m.st.tasks[a.wake.index].attempt;
      assert (m.yielded + [x])[..|m.yielded|] == m.yielded;
    }
  }

  // ---------- When a later attempt may be launched ----------

  lemma LaunchedAccounted<T, E>(s0: State<T, E>, m: Machine<T, E>)
    requires Ledger(s0, m)
    ensures |s0.tasks| + |m.launched| == |m.yielded| + |m.st.tasks|
    ensures s0.tasks == [] ==> multiset(m.launched) == multiset(m.yielded) + multiset(Attempts(m.st.tasks))
  {
    assert |multiset(Attempts(s0.tasks)) + multiset(m.launched)| == |multiset(m.yielded)| + |multiset(Attempts(m.st.tasks))|;
    if s0.tasks == [] {
      assert Attempts(s0.tasks) == [];
      assert multiset(m.launched) == multiset(Attempts(s0.tasks)) + multiset(m.launched);
    }
  }

  /** Hanging attempts stay in flight once they are. */
  lemma HungInFlight<T, E>(s0: State<T, E>, m: Machine<T, E>)
    requires Ledger(s0, m) && Outcomes(m)
    ensures HungBefore(s0, m.launched) == Hung(Attempts(m.st.tasks)) <= |m.st.tasks|
    ensures AllHang(m.st.tasks) ==> HungBefore(s0, m.launched) == |m.st.tasks|
  {
    assert Hangs !in m.yielded;
    assert (multiset(Attempts(s0.tasks)) + multiset(m.launched))[Hangs] == multiset(m.yielded)[Hangs] + multiset(Attempts(m.st.tasks))[Hangs];
    CountBound(Attempts(m.st.tasks), Hangs);
  }

  /** Without a delay, an attempt after the burst is launched only past fewer than `cap` hanging ones. */
  ghost predicate Paced<T, E>(cfg: Config, s0: State<T, E>, m: Machine<T, E>) {
    cfg.delay.None? ==>
      forall j | Min(Burst(cfg, s0), |s0.queue|) <= j < |m.launched| :: HungBefore(s0, m.launched[..j]) < Cap(cfg, s0)
  }

  lemma PacedStep<T, E>(cfg: Config, s0: State<T, E>, m: Machine<T, E>, a: Answer)
    requires Ledger(s0, m) && Outcomes(m) && Crowd(cfg, s0, m) && Paced(cfg, s0, m)
    requires Legal(cfg, m, a)
    ensures Paced(cfg, s0, Next(cfg, m, a))
  {
    var n := Next(cfg, m, a);
    if cfg.delay.None? && n.launched != m.launched {
      assert n.launched == m.launched + [m.hand.value];
      HungInFlight(s0, m);
      assert HungBefore(s0, m.launched) < Cap(cfg, s0) by {
        if a.wake.Yield? {
          AttemptsWithout(m.st.tasks, a.wake.index);
          CountBound(Attempts(Without(m.st.tasks, a.wake.index)), Hangs);
        }
      }
      forall j | Min(Burst(cfg, s0), |s0.queue|) <= j < |n.launched|
        ensures HungBefore(s0, n.launched[..j]) < Cap(cfg, s0)
      {
        assert n.launched[..j] == m.launched[..j];
        if j == |m.launched| { assert m.launched[..j] == m.launched; }
      }
    }
  }

  ghost predicate Orderly<T, E>(cfg: Config, s0: State<T, E>, m: Machine<T, E>) {
    Ledger(s0, m) && Outcomes(m) && Crowd(cfg, s0, m) && Paced(cfg, s0, m)
  }

  lemma {:induction false} OrderlyRun<T, E>(cfg: Config, s0: State<T, E>, m: Machine<T, E>, log: seq<Answer>, end: Machine<T, E>)
    requires Run(cfg, m, log, end) && Orderly(cfg, s0, m)
    ensures Orderly(cfg, s0, end)
    decreases |log|
  {
    if log != [] {
      LedgerStep(cfg, s0, m, log[0]);
      OutcomesStep(cfg, m, log[0]);
      CrowdStep(cfg, s0, m, log[0]);
      PacedStep(cfg, s0, m, log[0]);
      OrderlyRun(cfg, s0, Next(cfg, m, log[0]), log[1..], end);
    }
  }

  lemma OrderlyBegin<T, E>(cfg: Config, st: State<T, E>)
    ensures Orderly(cfg, st, Begin(cfg, st))
  {
    LedgerBegin(cfg, st);
  }

  lemma EndsOrderly<T, E>(cfg: Config, st: State<T, E>, log: seq<Answer>, end: Machine<T, E>)
    requires Finishes(cfg, st, log, end)
    ensures Orderly(cfg, st, end) && Spent(end)
  {
    OrderlyBegin(cfg, st);
    OrderlyRun(cfg, st, Begin(cfg, st), log, end);
    SpentRun(cfg, st, Begin(cfg, st), log, end);
  }

  // ---------- The exact verdict ----------

  /**
    Attempt `j` succeeds and gets its turn: there is a delay, or fewer than `Cap` attempts
    in flight at first or queued before it hang.
   */
  ghost predicate Reachable<T, E>(cfg: Config, st: State<T, E>, j: nat)
    requires j < |st.queue|
  {
    Succeeds(st.queue[j]) && (cfg.delay.Some? || HungBefore(st, st.queue[..j]) < Cap(cfg, st))
  }

  /** Some attempt succeeds that is in flight or gets its turn. */
  ghost predicate CanSucceed<T, E>(cfg: Config, st: State<T, E>) {
    (exists i :: 0 <= i < |st.tasks| && Succeeds(st.tasks[i].attempt)) || exists j: nat :: j < |st.queue| && Reachable(cfg, st, j)
  }

  ghost predicate AllDoomed<T, E>(st: State<T, E>) {
    AllFail(st.queue) && AllFail(Attempts(st.tasks))
  }

  lemma MemberOf<A>(s: seq<A>, x: A) returns (i: nat)
    requires x in multiset(s)
    ensures i < |s| && s[i] == x
  {
    assert x in s;
    i :| i < |s| && s[i] == x;
  }

  lemma OkHasCause<T, E>(cfg: Config, st: State<T, E>, m: Machine<T, E>, v: T)
    requires Orderly(cfg, st, m) && m.done == Some(Resolved(Ok(v)))
    ensures (exists i :: 0 <= i < |st.tasks| && st.tasks[i].attempt.Resolves? && st.tasks[i].attempt.outcome == Ok(v))
            || exists j: nat :: j < |st.queue| && Reachable(cfg, st, j) && st.queue[j].outcome == Ok(v)
  {
    var x := m.yielded[|m.yielded| - 1];
    assert x in multiset(m.yielded);
    assert x in multiset(Attempts(st.tasks)) + multiset(m.launched);
    if x in multiset(Attempts(st.tasks)) {
      var i := MemberOf(Attempts(st.tasks), x);
      assert st.tasks[i].attempt == x;
    } else {
      var j := MemberOf(m.launched, x);
      assert st.queue[..j] == m.launched[..j] && st.queue[j] == x;
      if j < Min(Burst(cfg, st), |st.queue|) {
        CountBound(st.queue[..j], Hangs);
        CountBound(Attempts(st.tasks), Hangs);
      }
      assert Reachable(cfg, st, j);
    }
  }

  /** Whatever was in flight or launched in a run without a success has failed or hangs. */
  lemma AccountedWithoutSuccess<T, E>(st: State<T, E>, m: Machine<T, E>, x: Attempt<T, E>)
    requires Ledger(st, m) && AllFail(m.yielded) && AllHang(m.st.tasks)
    requires x in multiset(Attempts(st.tasks)) + multiset(m.launched)
    ensures !Succeeds(x) && (m.st.tasks == [] ==> Fails(x))
  {
    if x in multiset(m.yielded) {
      var i := MemberOf(m.yielded, x);
    } else {
      var i := MemberOf(Attempts(m.st.tasks), x);
    }
  }

  lemma HungMonotone<T, E>(xs: seq<Attempt<T, E>>, i: nat, j: nat)
    requires i <= j <= |xs|
    ensures Hung(xs[..i]) <= Hung(xs[..j])
  {
    assert xs[..j] == xs[..i] + xs[i..j];
  }

  lemma NotOkHangs<T, E>(cfg: Config, st: State<T, E>, m: Machine<T, E>)
    requires Orderly(cfg, st, m) && Spent(m) && cfg.cutoff.None?
    requires m.done.Some? && !(m.done.value.Resolved? && m.done.value.result.Ok?)
    ensures AllHang(m.st.tasks)
  {
    match m.done.value
    case Unresolved =>
    case Resolved(_) =>
  }

  lemma NotOkCannot<T, E>(cfg: Config, st: State<T, E>, m: Machine<T, E>)
    requires Orderly(cfg, st, m) && Spent(m) && cfg.cutoff.None?
    requires m.done.Some? && !(m.done.value.Resolved? && m.done.value.result.Ok?)
    ensures !CanSucceed(cfg, st)
  {
    NotOkHangs(cfg, st, m);
    forall i | 0 <= i < |st.tasks| ensures !Succeeds(st.tasks[i].attempt) {
      assert st.tasks[i].attempt == Attempts(st.tasks)[i];
      AccountedWithoutSuccess(st, m, st.tasks[i].attempt);
    }
    forall j: nat | j < |st.queue| ensures !Reachable(cfg, st, j) {
      NotOkUnreachable(cfg, st, m, j);
    }
  }

  lemma NotOkUnreachable<T, E>(cfg: Config, st: State<T, E>, m: Machine<T, E>, j: nat)
    requires Orderly(cfg, st, m) && Spent(m) && cfg.cutoff.None? && AllHang(m.st.tasks)
    requires m.done.Some? && !(m.done.value.Resolved? && m.done.value.result.Ok?)
    requires j < |st.queue|
    ensures !Reachable(cfg, st, j)
  {
    LedgerSettles(st, m);
    if j < |m.launched| {
      assert m.launched[j] == st.queue[j];
      AccountedWithoutSuccess(st, m, st.queue[j]);
    } else {
      assert m.discarded != [] && m.done.value.Unresolved?;
      assert cfg.delay.None? && |m.st.tasks| == Cap(cfg, st);
      HungInFlight(st, m);
      HungMonotone(st.queue, |m.launched|, j);
      assert st.queue[..|m.launched|] == m.launched;
      assert HungBefore(st, st.queue[..j]) >= HungBefore(st, m.launched);
    }
  }

  /** An error tells that every attempt failed; it is the one the slot held, or the first, or `NoProgress` if there was none. */
  lemma ErrorClassified<T, E>(cfg: Config, st: State<T, E>, log: seq<Answer>, end: Machine<T, E>, e: HappyError<E>)
    requires Finishes(cfg, st, log, end) && end.done == Some(Resolved(Err(e)))
    ensures AllDoomed(st)
    ensures if st.error.Some? then e == st.error.value
            else if st.queue == [] && st.tasks == [] then e == NoProgress
            else end.yielded != [] && Fails(end.yielded[0]) && e == Error(end.yielded[0].outcome.error)
  {
    EndsOrderly(cfg, st, log, end);
    LedgerSettles(st, end);
    LaunchedAccounted(st, end);
    forall j: nat | j < |st.queue| ensures Fails(st.queue[j]) {
      AccountedWithoutSuccess(st, end, st.queue[j]);
    }
    forall i: nat | i < |st.tasks| ensures Fails(Attempts(st.tasks)[i]) {
      AccountedWithoutSuccess(st, end, Attempts(st.tasks)[i]);
    }
    FirstErrorLaw(cfg, st, log, end, e);
    if end.yielded != [] {
      FirstFailureIs(end.yielded, 0);
    }
  }

  /** An unresolved run has an attempt that does not fail. */
  lemma UnresolvedNotDoomed<T, E>(cfg: Config, st: State<T, E>, m: Machine<T, E>)
    requires Orderly(cfg, st, m) && cfg.cutoff.None? && m.done == Some(Unresolved)
    ensures !AllDoomed(st)
  {
    var x := m.st.tasks[0].attempt;
    assert x == Attempts(m.st.tasks)[0] && x in multiset(Attempts(m.st.tasks));
    assert x in multiset(Attempts(st.tasks)) + multiset(m.launched);
    if x in multiset(Attempts(st.tasks)) {
      var i := MemberOf(Attempts(st.tasks), x);
    } else {
      var j := MemberOf(m.launched, x);
      assert st.queue[j] == x;
    }
  }

  /**
    The verdict of a set without an overall timeout, exactly, whatever order the
    environment chooses, and whether or not the set was run before: a success comes back
    just when some successful attempt is in flight or gets its turn, and it is the first
    success to be yielded; an error just when all attempts fail. From an empty error slot
    that error is the first failure to be yielded or, without any attempt, `NoProgress`.
    Otherwise the call never returns.
   */
  lemma VerdictExact<T, E>(cfg: Config, st: State<T, E>, log: seq<Answer>, end: Machine<T, E>)
    requires Finishes(cfg, st, log, end) && cfg.cutoff.None?
    ensures (exists v :: end.done == Some(Resolved(Ok(v)))) <==> CanSucceed(cfg, st)
    ensures (exists e :: end.done == Some(Resolved(Err(e)))) <==> AllDoomed(st)
    ensures forall v :: end.done == Some(Resolved(Ok(v))) ==> FirstSuccess(end.yielded, v)
    ensures forall e :: end.done == Some(Resolved(Err(e))) ==>
              if st.error.Some? then e == st.error.value
              else if st.queue == [] && st.tasks == [] then e == NoProgress
              else end.yielded != [] && Fails(end.yielded[0]) && e == Error(end.yielded[0].outcome.error)
  {
    EndsOrderly(cfg, st, log, end);
    match end.done.value
    case Resolved(Ok(v)) =>
      OkHasCause(cfg, st, end, v);
      CauseNotDoomed(cfg, st);
    case Resolved(Err(e)) =>
      NotOkCannot(cfg, st, end);
      ErrorClassified(cfg, st, log, end, e);
    case Unresolved =>
      NotOkCannot(cfg, st, end);
      UnresolvedNotDoomed(cfg, st, end);
  }

  lemma CauseNotDoomed<T, E>(cfg: Config, st: State<T, E>)
    requires CanSucceed(cfg, st)
    ensures !AllDoomed(st)
  {
    if i :| 0 <= i < |st.tasks| && Succeeds(st.tasks[i].attempt) {
      assert !Fails(Attempts(st.tasks)[i]);
    }
  }

  /**
    When no burst is given everything starts at once, so nothing can keep a success back:
    it comes just when some attempt succeeds, whatever hangs and whatever the delay is.
   */
  lemma UnlimitedBurst<T, E>(cfg: Config, st: State<T, E>, log: seq<Answer>, end: Machine<T, E>)
    requires Finishes(cfg, st, log, end) && cfg.burst.None? && cfg.cutoff.None?
    requires st.tasks == []
    ensures (exists v :: end.done == Some(Resolved(Ok(v)))) <==> exists j :: 0 <= j < |st.queue| && Succeeds(st.queue[j])
    ensures end.launched == st.queue && end.discarded == []
  {
    VerdictExact(cfg, st, log, end);
    forall j: nat | j < |st.queue| && Succeeds(st.queue[j]) ensures Reachable(cfg, st, j) {
      CountBound(st.queue[..j], Hangs);
    }
    EndsOrderly(cfg, st, log, end);
    RunAccounting(cfg, st, log, end);
    assert |end.launched| == |st.queue|;
  }

  /** When every attempt resolves, the outcome depends on the attempts alone. */
  lemma OutcomeIndependentOfSchedule<T, E>(cfg: Config, st: State<T, E>, log: seq<Answer>, end: Machine<T, E>)
    requires Finishes(cfg, st, log, end) && cfg.cutoff.None?
    requires st.tasks == [] && st.error.None?
    requires forall i | 0 <= i < |st.queue| :: st.queue[i].Resolves?
    ensures end.done.value.Resolved?
    ensures end.done.value.result.Ok? <==> exists i :: 0 <= i < |st.queue| && st.queue[i].outcome.Ok?
    ensures end.done.value.result.Err? ==>
              (end.done.value.result.error.NoProgress? <==> st.queue == [])
              && (end.done.value.result.error.Error? <==> st.queue != [])
  {
    VerdictExact(cfg, st, log, end);
    forall j: nat | j < |st.queue| && Succeeds(st.queue[j]) ensures Reachable(cfg, st, j) {
      assert Hangs !in st.queue[..j];
    }
    assert Attempts(st.tasks) == [];
    if !AllFail(st.queue) {
      var j: nat :| j < |st.queue| && !Fails(st.queue[j]);
      assert Reachable(cfg, st, j);
    }
  }

  /**
    Without a delay a success can be lost: one hanging attempt and a burst of 1 keep the
    attempt behind it, which would succeed at once, from ever being started.
   */
  lemma UnpacedHangBlocks<T, E>(v: T, log: seq<Answer>, end: Machine<T, E>)
    requires Finishes(Config(None, Some(1), None), Fresh([Hangs, Resolves(0, Ok(v))], 0), log, end)
    ensures end.done == Some(Unresolved)
    ensures end.discarded == [Resolves(0, Ok(v))]
  {
    var cfg, st := Config(None, Some(1), None), Fresh<T, E>([Hangs, Resolves(0, Ok(v))], 0);
    var m := Begin(cfg, st);
    assert m.st.tasks == [Flight(Hangs, 0)] && m.hand == Some(Resolves(0, Ok(v)));
    assert Legal(cfg, m, log[0]) && log[0].wake.Dropped?;
    var n := Next(cfg, m, log[0]);
    assert Limit(cfg, m).None? && n.done == Some(Unresolved) && n.discarded == [Resolves(0, Ok(v))];
    DoneRun(cfg, n, log[1..], end);
  }
}
