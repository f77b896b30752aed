/** Which error a failed run reports. */
module EyeballErrors {
  import opened Wrappers
  import opened EyeballMachine

  predicate Fails<T, E>(x: Attempt<T, E>) {
    x.Resolves? && x.outcome.Err?
  }

  predicate Succeeds<T, E>(x: Attempt<T, E>) {
    x.Resolves? && x.outcome.Ok?
  }

  /** The earliest failure in completion order. */
  function FirstFailure<T, E>(xs: seq<Attempt<T, E>>): Option<E> {
    if xs == [] then None
    else if Fails(xs[0]) then Some(xs[0].outcome.error)
    else FirstFailure(xs[1..])
  }

  lemma {:induction false} FirstFailureAppend<T, E>(xs: seq<Attempt<T, E>>, x: Attempt<T, E>)
    ensures FirstFailure(xs + [x]) == if FirstFailure(xs).Some? then FirstFailure(xs) else FirstFailure([x])
  {
    if xs != [] {
      FirstFailureAppend(xs[1..], x);
      assert (xs + [x])[1..] == xs[1..] + [x];
    } else {
      assert xs + [x] == [x];
    }
  }

  lemma {:induction false} NoFailureAmong<T, E>(xs: seq<Attempt<T, E>>)
    ensures FirstFailure(xs).None? <==> forall i | 0 <= i < |xs| :: !Fails(xs[i])
  {
    if xs != [] {
      NoFailureAmong(xs[1..]);
      if forall i | 0 <= i < |xs[1..]| :: !Fails(xs[1..][i]) {
        assert forall i | 1 <= i < |xs| :: xs[i] == xs[1..][i - 1];
      }
    }
  }

  /** What the slot holds after `yielded`, if it held `before` when the run began. */
  function Slot<T, E>(before: Option<HappyError<E>>, yielded: seq<Attempt<T, E>>): Option<HappyError<E>> {
    if before.Some? then before
    else if FirstFailure(yielded).Some? then Some(Error(FirstFailure(yielded).value))
    else None
  }

  ghost predicate SlotKept<T, E>(before: Option<HappyError<E>>, m: Machine<T, E>) {
    match m.done
    case Some(Resolved(Err(e))) => m.st.error.None? && e == (if Slot(before, m.yielded).Some? then Slot(before, m.yielded).value else NoProgress)
    case _ => m.st.error == Slot(before, m.yielded)
  }

  lemma SlotKeptStep<T, E>(cfg: Config, before: Option<HappyError<E>>, m: Machine<T, E>, a: Answer)
    requires SlotKept(before, m) && Legal(cfg, m, a)
    ensures SlotKept(before, Next(cfg, m, a))
  {
    if a.wake.Yield? {
      FirstFailureAppend(m.yielded, m.st.tasks[a.wake.index].attempt);
    }
  }

  lemma {:induction false} SlotKeptRun<T, E>(cfg: Config, before: Option<HappyError<E>>, m: Machine<T, E>, log: seq<Answer>, end: Machine<T, E>)
    requires Run(cfg, m, log, end) && SlotKept(before, m)
    ensures SlotKept(before, end)
    decreases |log|
  {
    if log != [] {
      SlotKeptStep(cfg, before, m, log[0]);
      SlotKeptRun(cfg, before, Next(cfg, m, log[0]), log[1..], end);
    }
  }

  /**
    A run that ends in an error reports what the slot held before it or, from an empty
    slot, the first failure over both loops in completion order; without either it is
    `NoProgress`. The slot is emptied, so the next run starts afresh.
   */
  lemma FirstErrorLaw<T, E>(cfg: Config, st: State<T, E>, log: seq<Answer>, end: Machine<T, E>, e: HappyError<E>)
    requires Finishes(cfg, st, log, end) && end.done.value == Resolved(Err(e))
    ensures st.error.Some? ==> e == st.error.value
    ensures st.error.None? ==>
              e == match FirstFailure(end.yielded) case Some(x) => Error(x) case None => NoProgress
    ensures end.st.error.None?
  {
    SlotKeptRun(cfg, st.error, Begin(cfg, st), log, end);
  }

  /** A run that ends in no error leaves the slot as it was or, if it was empty, with the first failure in it. */
  lemma SlotAfterRun<T, E>(cfg: Config, st: State<T, E>, log: seq<Answer>, end: Machine<T, E>)
    requires Finishes(cfg, st, log, end) && !(end.done.value.Resolved? && end.done.value.result.Err?)
    ensures st.error.Some? ==> end.st.error == st.error
    ensures st.error.None? ==>
              end.st.error == match FirstFailure(end.yielded) case Some(x) => Some(Error(x)) case None => None
  {
    SlotKeptRun(cfg, st.error, Begin(cfg, st), log, end);
  }

  /** The first failure has no failure before it. */
  lemma {:induction false} FirstFailureIs<T, E>(xs: seq<Attempt<T, E>>, k: nat)
    requires k < |xs| && Fails(xs[k]) && forall i | 0 <= i < k :: !Fails(xs[i])
    ensures FirstFailure(xs) == Some(xs[k].outcome.error)
  {
    if k > 0 {
      assert !Fails(xs[0]);
      FirstFailureIs(xs[1..], k - 1);
    }
  }

  /** Once written, the slot does not change for as long as the run goes on. */
  lemma {:induction false} SlotWrittenOnce<T, E>(cfg: Config, m: Machine<T, E>, log: seq<Answer>, end: Machine<T, E>)
    requires Run(cfg, m, log, end) && m.st.error.Some?
    ensures end.done.None? ==> end.st.error == m.st.error
    decreases |log|
  {
    if log != [] && Next(cfg, m, log[0]).done.None? {
      SlotWrittenOnce(cfg, Next(cfg, m, log[0]), log[1..], end);
    }
  }
}
