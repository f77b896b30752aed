/**
  The Happy Eyeballs scheduler as a step machine. One step is one awaited `join_next`,
  and the environment answers it: it chooses which finished attempt is yielded and so,
  together with the durations of the attempts, the whole completion order.

  Time is a natural number of clock ticks. The environment is prompt: an await resolves
  at the first tick at which it can.
 */
module EyeballMachine {
  import opened Wrappers

  /** A connection attempt: it never resolves, or resolves `after` ticks from its launch. */
  datatype Attempt<T, E> = Hangs | Resolves(after: nat, outcome: Result<T, E>)

  /** An attempt in the in-flight set, with the time at which it was put there. */
  datatype Flight<T, E> = Flight(attempt: Attempt<T, E>, launched: nat)

  datatype HappyError<E> = Timeout(elapsed: nat) | NoProgress | Error(error: E)

  /** What `process_all` came to; `Unresolved` when it was dropped or hangs for ever. */
  datatype Verdict<T, E> = Resolved(result: Result<T, HappyError<E>>) | Unresolved

  datatype Config = Config(delay: Option<nat>, burst: Option<nat>, cutoff: Option<nat>)

  datatype State<T, E> = State(
    queue: seq<Attempt<T, E>>,
    tasks: seq<Flight<T, E>>,
    error: Option<HappyError<E>>,
    started: Option<nat>,
    clock: nat)

  /** A set that has not been run yet, holding `queue`. */
  function Fresh<T, E>(queue: seq<Attempt<T, E>>, now: nat): State<T, E> {
    State(queue, [], None, None, now)
  }

  /** The answer to one await: a finished task, `None` from an empty set, or neither before the limit. */
  datatype Wake = Yield(index: nat) | Empty | Dropped
  datatype Answer = Answer(wake: Wake, at: nat)

  // ---------- Sequences ----------

  function Without<A>(s: seq<A>, i: nat): (r: seq<A>)
    requires i < |s|
    ensures |r| == |s| - 1
  {
    s[..i] + s[i + 1..]
  }

  function Attempts<T, E>(tasks: seq<Flight<T, E>>): (r: seq<Attempt<T, E>>)
    ensures |r| == |tasks|
    ensures forall i | 0 <= i < |r| :: r[i] == tasks[i].attempt
  {
    seq(|tasks|, i requires 0 <= i < |tasks| => tasks[i].attempt)
  }

  lemma WithoutMultiset<A>(s: seq<A>, i: nat)
    requires i < |s|
    ensures multiset(s) == multiset(Without(s, i)) + multiset{s[i]}
  {
    assert s == s[..i] + [s[i]] + s[i + 1..];
  }

  lemma AttemptsWithout<T, E>(tasks: seq<Flight<T, E>>, i: nat)
    requires i < |tasks|
    ensures multiset(Attempts(tasks)) == multiset(Attempts(Without(tasks, i))) + multiset{tasks[i].attempt}
  {
    assert Attempts(Without(tasks, i)) == Without(Attempts(tasks), i);
    WithoutMultiset(Attempts(tasks), i);
  }

  // ---------- The environment ----------

  predicate DueBy<T, E>(f: Flight<T, E>, t: int) {
    f.attempt.Resolves? && f.launched + f.attempt.after <= t
  }

  predicate NoneDue<T, E>(tasks: seq<Flight<T, E>>, t: int) {
    forall i | 0 <= i < |tasks| :: !DueBy(tasks[i], t)
  }

  predicate AllHang<T, E>(tasks: seq<Flight<T, E>>) {
    forall i | 0 <= i < |tasks| :: tasks[i].attempt.Hangs?
  }

  predicate NoLaterThan(t: nat, limit: Option<nat>) {
    limit.Some? ==> t <= limit.value
  }

  /**
    The assumed contract of awaiting `FuturesUnordered::next`, begun at `now` and dropped
    by an enclosing timer at `limit`. The task is polled before the timer, so a task due
    exactly at the limit is still yielded; any task that is due may be the one.
   */
  predicate Awaits<T, E>(tasks: seq<Flight<T, E>>, now: nat, limit: Option<nat>, a: Answer) {
    match a.wake
    case Empty => tasks == [] && a.at == now
    case Yield(i) =>
      && i < |tasks| && DueBy(tasks[i], a.at)
      && now <= a.at && NoLaterThan(a.at, limit)
      && (now < a.at ==> NoneDue(tasks, a.at - 1))
    case Dropped =>
      && tasks != []
      && (match limit
          case Some(t) => NoneDue(tasks, t) && a.at == t
          case None => AllHang(tasks) && a.at == now)
  }

  predicate FirstDue<T, E>(tasks: seq<Flight<T, E>>, now: nat, i: nat)
    requires i < |tasks|
  {
    && tasks[i].attempt.Resolves?
    && forall j | 0 <= j < |tasks| && !DueBy(tasks[i], now) :: !DueBy(tasks[j], tasks[i].launched + tasks[i].attempt.after - 1)
  }

  lemma {:induction false} SomeFirstDue<T, E>(tasks: seq<Flight<T, E>>, now: nat, i: nat)
    requires i < |tasks| && tasks[i].attempt.Resolves?
    ensures exists k: nat :: k < |tasks| && FirstDue(tasks, now, k)
    decreases tasks[i].launched + tasks[i].attempt.after
  {
    if !FirstDue(tasks, now, i) {
      var j: nat :| j < |tasks| && DueBy(tasks[j], tasks[i].launched + tasks[i].attempt.after - 1);
      SomeFirstDue(tasks, now, j);
    }
  }

  /** Whatever is in flight, the environment has an answer: the contract can always be met. */
  lemma SomeAnswer<T, E>(tasks: seq<Flight<T, E>>, now: nat, limit: Option<nat>)
    requires NoLaterThan(now, limit)
    ensures exists a :: Awaits(tasks, now, limit, a)
  {
    if tasks == [] {
      assert Awaits(tasks, now, limit, Answer(Empty, now));
    } else if AllHang(tasks) {
      assert Awaits(tasks, now, limit, Answer(Dropped, if limit.Some? then limit.value else now));
    } else {
      var i: nat :| i < |tasks| && !tasks[i].attempt.Hangs?;
      SomeFirstDue(tasks, now, i);
      var k: nat :| k < |tasks| && FirstDue(tasks, now, k);
      var due := tasks[k].launched + tasks[k].attempt.after;
      var at := if due <= now then now else due;
      if NoLaterThan(at, limit) {
        assert Awaits(tasks, now, limit, Answer(Yield(k), at));
      } else {
        assert Awaits(tasks, now, limit, Answer(Dropped, limit.value));
      }
    }
  }

  // ---------- The scheduler ----------

  /**
    `process_all` at an await. `hand` is the attempt popped from the queue and not yet in
    flight; the last four fields record what the run has done.
   */
  datatype Machine<T, E> = Machine(
    st: State<T, E>,
    hand: Option<Attempt<T, E>>,
    done: Option<Verdict<T, E>>,
    launched: seq<Attempt<T, E>>,
    yielded: seq<Attempt<T, E>>,
    discarded: seq<Attempt<T, E>>,
    expiries: nat)

  function Held<T, E>(m: Machine<T, E>): seq<Attempt<T, E>> {
    if m.hand.Some? then [m.hand.value] else []
  }

  function Burst<T, E>(cfg: Config, st: State<T, E>): nat {
    if cfg.burst.Some? then cfg.burst.value else |st.queue|
  }

  function Min(a: nat, b: nat): nat {
    if a < b then a else b
  }

  function Max(a: nat, b: nat): nat {
    if a < b then b else a
  }

  function LaunchAll<T, E>(st: State<T, E>, n: nat): State<T, E>
    requires n <= |st.queue|
  {
    st.(queue := st.queue[n..], tasks := st.tasks + seq(n, i requires 0 <= i < n => Flight(st.queue[i], st.clock)))
  }

  /** `while let Some(future) = queue.pop_front()`. */
  function Arm<T, E>(m: Machine<T, E>): Machine<T, E> {
    if m.st.queue == [] then m.(hand := None)
    else m.(hand := Some(m.st.queue[0]), st := m.st.(queue := m.st.queue[1..]))
  }

  /** The machine after the initial burst. */
  function Primed<T, E>(cfg: Config, st: State<T, E>): Machine<T, E> {
    var n := Min(Burst(cfg, st), |st.queue|);
    Machine(LaunchAll(st, n), None, None, st.queue[..n], [], [], 0)
  }

  /** The machine at its first await. */
  function Begin<T, E>(cfg: Config, st: State<T, E>): Machine<T, E> {
    Arm(Primed(cfg, st))
  }

  /**
    What is launched before the first await: the whole queue when no burst is given, and
    otherwise its first so many attempts, all of them at once; the next one is in hand.
   */
  lemma BurstExact<T, E>(cfg: Config, st: State<T, E>)
    ensures var m := Begin(cfg, st);
            && m.launched == (if cfg.burst.Some? && cfg.burst.value < |st.queue| then st.queue[..cfg.burst.value] else st.queue)
            && m.launched + Held(m) + m.st.queue == st.queue && (m.hand.None? ==> m.st.queue == [])
            && |m.st.tasks| == |st.tasks| + |m.launched| && m.st.tasks[..|st.tasks|] == st.tasks
            && (forall i | 0 <= i < |m.launched| :: m.st.tasks[|st.tasks| + i] == Flight(m.launched[i], st.clock))
            && m.st.clock == st.clock && m.yielded == [] && m.done.None?
  {
    var n := Min(Burst(cfg, st), |st.queue|);
    assert st.queue == st.queue[..n] + st.queue[n..];
    if n < |st.queue| {
      assert st.queue[n..] == [st.queue[n..][0]] + st.queue[n..][1..];
    }
  }

  function Keep<E>(slot: Option<HappyError<E>>, e: E): Option<HappyError<E>> {
    if slot.None? then Some(Error(e)) else slot
  }

  /** The effect of `join_next` on the set. */
  function Join<T, E>(st: State<T, E>, limit: Option<nat>, a: Answer): State<T, E>
    requires Awaits(st.tasks, st.clock, limit, a)
  {
    var begun := st.(started := if st.started.None? then Some(st.clock) else st.started, clock := a.at);
    if a.wake.Yield? then
      var x := st.tasks[a.wake.index].attempt;
      begun.(tasks := Without(st.tasks, a.wake.index),
             error := if x.outcome.Err? then Keep(st.error, x.outcome.error) else st.error)
    else
      begun
  }

  /** Whether the per-attempt delay fires no later than the overall cutoff. */
  predicate DelayFires<T, E>(cfg: Config, m: Machine<T, E>) {
    m.hand.Some? && cfg.delay.Some? && NoLaterThan(m.st.clock + cfg.delay.value, cfg.cutoff)
  }

  function Limit<T, E>(cfg: Config, m: Machine<T, E>): Option<nat> {
    if DelayFires(cfg, m) then Some(m.st.clock + cfg.delay.value) else cfg.cutoff
  }

  predicate Legal<T, E>(cfg: Config, m: Machine<T, E>, a: Answer) {
    m.done.None? && Awaits(m.st.tasks, m.st.clock, Limit(cfg, m), a)
  }

  /** The staggered loop's `tasks.push(future)`. */
  function Pushed<T, E>(m: Machine<T, E>): Machine<T, E> {
    match m.hand
    case Some(x) =>
      m.(st := m.st.(tasks := m.st.tasks + [Flight(x, m.st.clock)]), launched := m.launched + [x], hand := None)
    case None => m
  }

  /** Back to the head of the loop, staggered or draining. */
  function Continue<T, E>(m: Machine<T, E>): Machine<T, E> {
    if m.hand.Some? then Arm(Pushed(m)) else m
  }

  /** Leaving `process_all` drops the attempt in hand. */
  function Stop<T, E>(m: Machine<T, E>, v: Verdict<T, E>): Machine<T, E> {
    m.(done := Some(v), discarded := m.discarded + Held(m), hand := None)
  }

  /** The machine right after an await, with what it held still in hand. */
  function Joined<T, E>(cfg: Config, m: Machine<T, E>, a: Answer): Machine<T, E>
    requires Legal(cfg, m, a)
  {
    m.(st := Join(m.st, Limit(cfg, m), a),
       yielded := if a.wake.Yield? then m.yielded + [m.st.tasks[a.wake.index].attempt] else m.yielded,
       expiries := if a.wake.Dropped? && DelayFires(cfg, m) then m.expiries + 1 else m.expiries)
  }

  function Next<T, E>(cfg: Config, m: Machine<T, E>, a: Answer): Machine<T, E>
    requires Legal(cfg, m, a)
  {
    var joined := Joined(cfg, m, a);
    match a.wake
    case Yield(i) =>
      var outcome := m.st.tasks[i].attempt.outcome;
      if outcome.Ok? then Stop(joined, Resolved(Ok(outcome.value))) else Continue(joined)
    case Empty =>
      if m.hand.Some? then Continue(joined)
      else
        var e := if joined.st.error.Some? then joined.st.error.value else NoProgress;
        Stop(joined.(st := joined.st.(error := None)), Resolved(Err(e)))
    case Dropped =>
      if DelayFires(cfg, m) then Continue(joined) else Stop(joined, Unresolved)
  }

  /** `log` leads from `m` to `end`, each answer allowed by the environment's contract. */
  predicate Run<T(==), E(==)>(cfg: Config, m: Machine<T, E>, log: seq<Answer>, end: Machine<T, E>)
    decreases |log|
  {
    if log == [] then m == end
    else Legal(cfg, m, log[0]) && Run(cfg, Next(cfg, m, log[0]), log[1..], end)
  }

  lemma DoneRun<T, E>(cfg: Config, m: Machine<T, E>, log: seq<Answer>, end: Machine<T, E>)
    requires Run(cfg, m, log, end) && m.done.Some?
    ensures log == [] && end == m
  {
  }

  lemma {:induction false} RunExtend<T, E>(cfg: Config, m: Machine<T, E>, log: seq<Answer>, mid: Machine<T, E>, a: Answer)
    requires Run(cfg, m, log, mid) && Legal(cfg, mid, a)
    ensures Run(cfg, m, log + [a], Next(cfg, mid, a))
    decreases |log|
  {
    if log == [] {
      assert ([a])[1..] == [];
    } else {
      RunExtend(cfg, Next(cfg, m, log[0]), log[1..], mid, a);
      assert (log + [a])[1..] == log[1..] + [a];
    }
  }

  /** A run of `process_all` on `st` that came to an end. */
  predicate Finishes<T(==), E(==)>(cfg: Config, st: State<T, E>, log: seq<Answer>, end: Machine<T, E>) {
    Run(cfg, Begin(cfg, st), log, end) && end.done.Some?
  }

  /** The parameters of a set; `finish` begun at `now` turns the overall timeout into a cutoff. */
  datatype Setup = Setup(delay: Option<nat>, timeout: Option<nat>, burst: Option<nat>)

  function ConfigAt(setup: Setup, now: nat): Config {
    Config(setup.delay, setup.burst, if setup.timeout.Some? then Some(now + setup.timeout.value) else None)
  }

  /** Time since the set's very first await. */
  function Elapsed<T, E>(st: State<T, E>): nat {
    if st.started.Some? && st.started.value <= st.clock then st.clock - st.started.value else 0
  }

  /** What `finish` returns, or `None` if it never does. */
  function Returned<T, E>(setup: Setup, end: Machine<T, E>): Option<Result<T, HappyError<E>>>
    requires end.done.Some?
  {
    match end.done.value
    case Resolved(r) => Some(r)
    case Unresolved => if setup.timeout.Some? then Some(Err(Timeout(Elapsed(end.st)))) else None
  }

  // ---------- Progress and termination ----------

  predicate OnTime<T, E>(cfg: Config, start: nat, m: Machine<T, E>) {
    start <= m.st.clock && NoLaterThan(m.st.clock, cfg.cutoff)
  }

  lemma {:induction false} RunOnTime<T, E>(cfg: Config, start: nat, m: Machine<T, E>, log: seq<Answer>, end: Machine<T, E>)
    requires Run(cfg, m, log, end) && OnTime(cfg, start, m)
    ensures OnTime(cfg, start, end)
    decreases |log|
  {
    if log != [] {
      RunOnTime(cfg, start, Next(cfg, m, log[0]), log[1..], end);
    }
  }

  /** A machine that is not done can always take a step. */
  lemma CanStep<T, E>(cfg: Config, m: Machine<T, E>)
    requires m.done.None? && NoLaterThan(m.st.clock, cfg.cutoff)
    ensures exists a :: Legal(cfg, m, a)
  {
    SomeAnswer(m.st.tasks, m.st.clock, Limit(cfg, m));
    var a :| Awaits(m.st.tasks, m.st.clock, Limit(cfg, m), a);
    assert Legal(cfg, m, a);
  }

  function Measure<T, E>(m: Machine<T, E>): nat {
    2 * (|m.st.queue| + |Held(m)|) + |m.st.tasks| + (if m.done.None? then 1 else 0)
  }

  lemma StepShrinks<T, E>(cfg: Config, m: Machine<T, E>, a: Answer)
    requires Legal(cfg, m, a)
    ensures Measure(Next(cfg, m, a)) < Measure(m)
  {
  }

  /** Every run, whatever the environment answers, is over after at most this many awaits. */
  lemma {:induction false} RunLength<T, E>(cfg: Config, m: Machine<T, E>, log: seq<Answer>, end: Machine<T, E>)
    requires Run(cfg, m, log, end)
    ensures |log| + Measure(end) <= Measure(m)
    decreases |log|
  {
    if log != [] {
      StepShrinks(cfg, m, log[0]);
      RunLength(cfg, Next(cfg, m, log[0]), log[1..], end);
    }
  }

  /** So `process_all` is over after at most two awaits per queued attempt, one per attempt in flight, and one more. */
  lemma AwaitsBounded<T, E>(cfg: Config, st: State<T, E>, log: seq<Answer>, end: Machine<T, E>)
    requires Run(cfg, Begin(cfg, st), log, end)
    ensures |log| <= 2 * |st.queue| + |st.tasks| + 1
  {
    RunLength(cfg, Begin(cfg, st), log, end);
    BurstExact(cfg, st);
    assert |st.queue| == |Begin(cfg, st).launched| + |Held(Begin(cfg, st))| + |Begin(cfg, st).st.queue|;
  }

  lemma OneStepOn<T, E>(cfg: Config, m: Machine<T, E>, log: seq<Answer>, mid: Machine<T, E>) returns (a: Answer)
    requires Run(cfg, m, log, mid) && mid.done.None? && NoLaterThan(mid.st.clock, cfg.cutoff)
    ensures Legal(cfg, mid, a) && Run(cfg, m, log + [a], Next(cfg, mid, a))
    ensures Measure(Next(cfg, mid, a)) < Measure(mid) && NoLaterThan(Next(cfg, mid, a).st.clock, cfg.cutoff)
  {
    CanStep(cfg, mid);
    a :| Legal(cfg, mid, a);
    RunExtend(cfg, m, log, mid, a);
    StepShrinks(cfg, mid, a);
    RunOnTime(cfg, mid.st.clock, mid, [a], Next(cfg, mid, a));
  }

  /** Any partial run can be completed: the scheduler never gets stuck between awaits. */
  lemma {:induction false} RunCompletes<T, E>(cfg: Config, m: Machine<T, E>, log: seq<Answer>, mid: Machine<T, E>)
    returns (more: seq<Answer>, end: Machine<T, E>)
    requires Run(cfg, m, log, mid) && NoLaterThan(mid.st.clock, cfg.cutoff)
    ensures Run(cfg, m, log + more, end) && end.done.Some?
    ensures |log + more| <= Measure(m)
    decreases Measure(mid)
  {
    if mid.done.Some? {
      more, end := [], mid;
      assert log + more == log;
      RunLength(cfg, m, log, mid);
    } else {
      var a := OneStepOn(cfg, m, log, mid);
      var rest;
      rest, end := RunCompletes(cfg, m, log + [a], Next(cfg, mid, a));
      more := [a] + rest;
      assert log + more == log + [a] + rest;
    }
  }
  /** `process_all` can always go on to its end. */
  lemma ProcessAllCompletes<T, E>(cfg: Config, st: State<T, E>, log: seq<Answer>, mid: Machine<T, E>)
    returns (more: seq<Answer>, end: Machine<T, E>)
    requires Run(cfg, Begin(cfg, st), log, mid) && NoLaterThan(st.clock, cfg.cutoff)
    ensures Finishes(cfg, st, log + more, end)
  {
    RunOnTime(cfg, st.clock, Begin(cfg, st), log, mid);
    more, end := RunCompletes(cfg, Begin(cfg, st), log, mid);
  }
}
