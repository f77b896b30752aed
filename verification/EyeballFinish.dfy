/** What `finish` answers, with and without an overall timeout. */
module EyeballFinish {
  import opened Wrappers
  import opened EyeballMachine
  import opened EyeballLedger
  import opened EyeballErrors
  import opened EyeballVerdict

  /**
    Without an overall timeout nothing cuts `process_all` off, and `finish` returns just
    what it comes to, just when it comes to something.
   */
  lemma Untimed<T, E>(setup: Setup, st: State<T, E>, log: seq<Answer>, end: Machine<T, E>)
    requires Finishes(ConfigAt(setup, st.clock), st, log, end) && setup.timeout.None?
    ensures ConfigAt(setup, st.clock) == Config(setup.delay, setup.burst, None)
    ensures forall r :: Returned(setup, end) == Some(r) <==> end.done == Some(Resolved(r))
    ensures Returned(setup, end) == None <==> end.done == Some(Unresolved)
  {
  }

  /**
    Queued attempt `j` succeeds and gets its turn: there is a delay, or no burst is given, or
    what hangs before it does not take all the places there are without a delay: those
    already taken and the burst, at least one.
   */
  ghost predicate GetsThrough<T, E>(setup: Setup, st: State<T, E>, j: nat)
    requires j < |st.queue|
  {
    && Succeeds(st.queue[j])
    && (setup.delay.Some? || setup.burst.None?
        || multiset(Attempts(st.tasks))[Hangs] + multiset(st.queue[..j])[Hangs] < Max(|st.tasks| + setup.burst.value, 1))
  }

  /** Some attempt succeeds that is in flight already or gets its turn. */
  ghost predicate Promising<T, E>(setup: Setup, st: State<T, E>) {
    || (exists i :: 0 <= i < |st.tasks| && Succeeds(st.tasks[i].attempt))
    || (exists j: nat :: j < |st.queue| && GetsThrough(setup, st, j))
  }

  ghost predicate Hopeless<T, E>(st: State<T, E>) {
    (forall i | 0 <= i < |st.tasks| :: Fails(st.tasks[i].attempt)) && forall j | 0 <= j < |st.queue| :: Fails(st.queue[j])
  }

  /** The slot never holds anything but the error of an attempt. */
  predicate SlotSound<T, E>(st: State<T, E>) {
    st.error.Some? ==> st.error.value.Error?
  }

  lemma {:induction false} RunKeepsSlotSound<T, E>(cfg: Config, m: Machine<T, E>, log: seq<Answer>, end: Machine<T, E>)
    requires Run(cfg, m, log, end) && SlotSound(m.st)
    ensures SlotSound(end.st)
    decreases |log|
  {
    if log != [] {
      RunKeepsSlotSound(cfg, Next(cfg, m, log[0]), log[1..], end);
    }
  }

  lemma {:induction false} SessionKeepsSlotSound<T, E>(setup: Setup, b: Book<T, E>, ops: seq<Op<T, E>>, end: Book<T, E>)
    requires Session(setup, b, ops, end) && SlotSound(b.st)
    ensures SlotSound(end.st)
    decreases |ops|
  {
    if ops != [] {
      var op := ops[0];
      if op.Finish? {
        RunKeepsSlotSound(ConfigAt(setup, b.st.clock), Begin(ConfigAt(setup, b.st.clock), b.st), op.log, op.end);
      }
      SessionKeepsSlotSound(setup, After(b, op), ops[1..], end);
    }
  }

  lemma ThroughIsReachable<T, E>(setup: Setup, st: State<T, E>, j: nat)
    requires j < |st.queue|
    ensures GetsThrough(setup, st, j) <==> Reachable(ConfigAt(setup, st.clock), st, j)
  {
    CountBound(st.queue[..j], Hangs);
    CountBound(Attempts(st.tasks), Hangs);
  }

  lemma PromisingCanSucceed<T, E>(setup: Setup, st: State<T, E>)
    ensures Promising(setup, st) <==> CanSucceed(ConfigAt(setup, st.clock), st)
    ensures Hopeless(st) <==> AllDoomed(st)
  {
    forall j: nat | j < |st.queue|
      ensures GetsThrough(setup, st, j) <==> Reachable(ConfigAt(setup, st.clock), st, j)
    {
      ThroughIsReachable(setup, st, j);
    }
    if AllDoomed(st) {
      assert forall i | 0 <= i < |st.tasks| :: Fails(Attempts(st.tasks)[i]);
    }
  }

  /**
    What an answer of `finish` tells, whatever the timeout, whatever order the environment
    chooses, and whether or not the set was run before. A success is the first that was
    yielded, after nothing but failures. An error says that all attempts failed, and carries
    the error the slot held or else the first failure yielded; `NoProgress` says that
    there was nothing to try. Only an overall timeout makes a `Timeout`, and always an answer.
   */
  lemma AnswerSound<T, E>(setup: Setup, st: State<T, E>, log: seq<Answer>, end: Machine<T, E>)
    requires Finishes(ConfigAt(setup, st.clock), st, log, end) && SlotSound(st)
    ensures match Returned(setup, end)
            case Some(Ok(v)) => FirstSuccess(end.yielded, v) && Promising(setup, st)
            case Some(Err(Error(e))) =>
              && Hopeless(st)
              && if st.error.Some? then Error(e) == st.error.value
                 else end.yielded != [] && Fails(end.yielded[0]) && e == end.yielded[0].outcome.error
            case Some(Err(NoProgress)) => st.queue == [] && st.tasks == [] && st.error.None?
            case Some(Err(Timeout(_))) => setup.timeout.Some?
            case None => setup.timeout.None?
  {
    var cfg := ConfigAt(setup, st.clock);
    PromisingCanSucceed(setup, st);
    EndsOrderly(cfg, st, log, end);
    match end.done.value
    case Resolved(Ok(v)) =>
      OkHasCause(cfg, st, end, v);
    case Resolved(Err(e)) =>
      ErrorClassified(cfg, st, log, end, e);
    case Unresolved =>
  }

  /** Without an overall timeout, exactly: which kind of answer a set gives, and when it gives none. */
  lemma AnswerExact<T, E>(setup: Setup, st: State<T, E>, log: seq<Answer>, end: Machine<T, E>)
    requires Finishes(ConfigAt(setup, st.clock), st, log, end) && setup.timeout.None? && SlotSound(st)
    ensures (exists v :: Returned(setup, end) == Some(Ok(v))) <==> Promising(setup, st)
    ensures (exists e :: Returned(setup, end) == Some(Err(Error(e))))
            <==> Hopeless(st) && (st.tasks != [] || st.queue != [] || st.error.Some?)
    ensures Returned(setup, end) == Some(Err(NoProgress)) <==> st.tasks == [] && st.queue == [] && st.error.None?
    ensures Returned(setup, end) == None <==> !Promising(setup, st) && !Hopeless(st)
  {
    Untimed(setup, st, log, end);
    VerdictExact(ConfigAt(setup, st.clock), st, log, end);
    AnswerSound(setup, st, log, end);
    PromisingCanSucceed(setup, st);
  }
}
