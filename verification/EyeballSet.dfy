/** The `EyeballSet` itself, each method proved against the step machine. */
module EyeballSets {
  import opened Wrappers
  import opened EyeballMachine

  /** The answer of one await as `process_all` sees it. */
  datatype Eyeball<T> = Success(value: T) | Failure | Expired | Exhausted

  /** `None` when the await is dropped by an enclosing timer, or never resolves. */
  function Seen<T, E>(tasks: seq<Flight<T, E>>, now: nat, limit: Option<nat>, a: Answer): Option<Eyeball<T>>
    requires Awaits(tasks, now, limit, a)
  {
    match a.wake
    case Dropped => None
    case Empty => Some(Exhausted)
    case Yield(i) =>
      var outcome := tasks[i].attempt.outcome;
      Some(if outcome.Ok? then Success(outcome.value) else Failure)
  }

  class EyeballSet<T, E> {
    var queue: seq<Attempt<T, E>>
    var tasks: seq<Flight<T, E>>
    const delay: Option<nat>
    const timeout: Option<nat>
    var started: Option<nat>
    const initialConcurrency: Option<nat>
    var error: Option<HappyError<E>>
    var clock: nat  // the time shown by the runtime's clock

    function View(): State<T, E>
      reads this
    {
      State(queue, tasks, error, started, clock)
    }

    function Parameters(): Setup {
      Setup(delay, timeout, initialConcurrency)
    }

    constructor (delay: Option<nat>, timeout: Option<nat>, initialConcurrency: Option<nat>, now: nat)
      ensures queue == [] && tasks == [] && started.None? && error.None? && clock == now
      ensures this.delay == delay && this.timeout == timeout && this.initialConcurrency == initialConcurrency
    {
      queue, tasks := [], [];
      this.delay, this.timeout, this.initialConcurrency := delay, timeout, initialConcurrency;
      started, error, clock := None, None, now;
    }

    method IsEmpty() returns (r: bool)
      ensures r <==> |tasks| + |queue| == 0
    {
      r := tasks == [] && queue == [];
    }

    method Len() returns (n: nat)
      ensures n == |View().tasks| + |View().queue|
    {
      n := |tasks| + |queue|;
    }

    method Push(future: Attempt<T, E>)
      modifies this`queue
      ensures View() == old(View()).(queue := old(queue) + [future])
    {
      queue := queue + [future];
    }

    method Extend(futures: seq<Attempt<T, E>>)
      modifies this`queue
      ensures View() == old(View()).(queue := old(queue) + futures)
    {
      queue := queue + futures;
    }

    /** The environment: any answer its contract allows. */
    method Wait(limit: Option<nat>) returns (a: Answer)
      requires NoLaterThan(clock, limit)
      ensures Awaits(tasks, clock, limit, a)
    {
      if tasks == [] {
        return Answer(Empty, clock);
      }
      if i: nat :| i < |tasks| && tasks[i].attempt.Resolves? {
        SomeFirstDue(tasks, clock, i);
        var k: nat :| k < |tasks| && FirstDue(tasks, clock, k);
        var at := Max(clock, tasks[k].launched + tasks[k].attempt.after);
        if NoLaterThan(at, limit) {
          return Answer(Yield(k), at);
        }
      }
      a := Answer(Dropped, if limit.Some? then limit.value else clock);
    }

    method JoinNext(limit: Option<nat>) returns (r: Option<Eyeball<T>>, ghost a: Answer)
      requires NoLaterThan(clock, limit)
      modifies this`tasks, this`error, this`started, this`clock
      ensures Awaits(old(tasks), old(clock), limit, a)
      ensures View() == Join(old(View()), limit, a)
      ensures r == Seen(old(tasks), old(clock), limit, a)
    {
      if started.None? {
        started := Some(clock);
      }
      var answer := Wait(limit);
      a := answer;
      clock := answer.at;
      match answer.wake
      case Dropped =>
        r := None;
      case Empty =>
        r := Some(Exhausted);
      case Yield(i) =>
        var outcome := tasks[i].attempt.outcome;
        tasks := Without(tasks, i);
        match outcome
        case Ok(stream) =>
          r := Some(Success(stream));
        case Err(e) =>
          if error.None? {
            error := Some(Error(e));
          }
          r := Some(Failure);
    }

    /** The delay drops the await, unless the whole call is dropped before that. */
    method JoinNextWithTimeout(cutoff: Option<nat>) returns (r: Option<Eyeball<T>>, ghost a: Answer)
      requires NoLaterThan(clock, cutoff)
      modifies this`tasks, this`error, this`started, this`clock
      ensures var fires := delay.Some? && NoLaterThan(old(clock) + delay.value, cutoff);
              var limit := if fires then Some(old(clock) + delay.value) else cutoff;
              && Awaits(old(tasks), old(clock), limit, a)
              && View() == Join(old(View()), limit, a)
              && r == if fires && a.wake.Dropped? then Some(Expired) else Seen(old(tasks), old(clock), limit, a)
    {
      if delay.Some? && NoLaterThan(clock + delay.value, cutoff) {
        r, a := JoinNext(Some(clock + delay.value));
        if r.None? {
          r := Some(Expired);
        }
      } else {
        r, a := JoinNext(cutoff);
      }
    }

    /** The initial burst. */
    method LaunchBurst()
      modifies this`queue, this`tasks
      ensures View() == Primed(Config(delay, initialConcurrency, None), old(View())).st
      ensures var all := initialConcurrency.None? || initialConcurrency.value >= |old(queue)|;
              && queue == (if all then [] else old(queue)[initialConcurrency.value..])
              && Attempts(tasks) == Attempts(old(tasks)) + (if all then old(queue) else old(queue)[..initialConcurrency.value])
    {
      ghost var st := View();
      var burst := if initialConcurrency.Some? then initialConcurrency.value else |queue|;
      for i := 0 to burst
        invariant View() == LaunchAll(st, Min(i, |st.queue|))
      {
        if queue != [] {
          var future := queue[0];
          queue := queue[1..];
          tasks := tasks + [Flight(future, clock)];
        }
      }
    }

    /** One await of the staggered loop, with an attempt in hand. */
    method JoinHolding(cutoff: Option<nat>, ghost m: Machine<T, E>)
      returns (r: Option<Eyeball<T>>, ghost a: Answer)
      requires NoLaterThan(clock, cutoff)
      requires View() == m.st && m.hand.Some? && m.done.None?
      modifies this`tasks, this`error, this`started, this`clock
      ensures Legal(Config(delay, initialConcurrency, cutoff), m, a)
      ensures var cfg := Config(delay, initialConcurrency, cutoff);
              && View() == Joined(cfg, m, a).st
              && NoLaterThan(clock, cutoff)
              && match r
                 case None => Next(cfg, m, a) == Stop(Joined(cfg, m, a), Unresolved)
                 case Some(Success(v)) => Next(cfg, m, a) == Stop(Joined(cfg, m, a), Resolved(Ok(v)))
                 case Some(_) => Next(cfg, m, a) == Continue(Joined(cfg, m, a))
    {
      r, a := JoinNextWithTimeout(cutoff);
    }

    /** The staggered loop; `finished` tells whether it left `process_all`, and `r` with what. */
    method Stagger(cutoff: Option<nat>, ghost first: Machine<T, E>)
      returns (finished: bool, r: Option<Result<T, HappyError<E>>>, ghost log: seq<Answer>, ghost end: Machine<T, E>)
      requires NoLaterThan(clock, cutoff)
      requires View() == first.st && first.hand.None? && first.done.None?
      modifies this`queue, this`tasks, this`error, this`started, this`clock
      ensures Run(Config(delay, initialConcurrency, cutoff), Arm(first), log, end)
      ensures View() == end.st && end.hand.None?
      ensures if finished then end.done == Some(if r.Some? then Resolved(r.value) else Unresolved)
              else end.done.None? && NoLaterThan(clock, cutoff)
    {
      ghost var cfg := Config(delay, initialConcurrency, cutoff);
      ghost var m := first;
      log, finished, r := [], false, None;
      while queue != []
        invariant View() == m.st && m.hand.None? && m.done.None?
        invariant Run(cfg, Arm(first), log, Arm(m))
        invariant NoLaterThan(clock, cutoff)
        decreases |queue|
      {
        m := Arm(m);
        var future := queue[0];
        queue := queue[1..];
        var eyeball;
        ghost var a;
        eyeball, a := JoinHolding(cutoff, m);
        RunExtend(cfg, Arm(first), log, m, a);
        log := log + [a];
        end := Next(cfg, m, a);
        match eyeball
        case None =>
          return true, None, log, end;
        case Some(Success(outcome)) =>
          return true, Some(Ok(outcome)), log, end;
        case Some(_) =>
          tasks := tasks + [Flight(future, clock)];
          m := Pushed(Joined(cfg, m, a));
      }
      end := m;
    }

    /** The draining loop; its panic on a timeout is the branch that asserts `false`. */
    method Drain(cutoff: Option<nat>, ghost first: Machine<T, E>, ghost before: seq<Answer>, ghost m: Machine<T, E>)
      returns (r: Option<Result<T, HappyError<E>>>, ghost log: seq<Answer>, ghost end: Machine<T, E>)
      requires NoLaterThan(clock, cutoff)
      requires Run(Config(delay, initialConcurrency, cutoff), first, before, m)
      requires View() == m.st && m.hand.None? && m.done.None?
      modifies this`tasks, this`error, this`started, this`clock
      ensures Run(Config(delay, initialConcurrency, cutoff), first, log, end)
      ensures View() == end.st
      ensures end.done == Some(if r.Some? then Resolved(r.value) else Unresolved)
    {
      ghost var cfg := Config(delay, initialConcurrency, cutoff);
      end, log := m, before;
      while true
        invariant View() == end.st && end.hand.None? && end.done.None?
        invariant Run(cfg, first, log, end)
        invariant NoLaterThan(clock, cutoff)
        decreases |tasks|
      {
        var eyeball;
        ghost var a;
        eyeball, a := JoinNext(cutoff);
        assert Legal(cfg, end, a);
        RunExtend(cfg, first, log, end, a);
        log, end := log + [a], Next(cfg, end, a);
        match eyeball
        case None =>
          return None, log, end;
        case Some(Success(outcome)) =>
          return Some(Ok(outcome)), log, end;
        case Some(Failure) =>
        case Some(Expired) =>
          assert false;
        case Some(Exhausted) =>
          var e := if error.Some? then error.value else NoProgress;
          error := None;
          return Some(Err(e)), log, end;
      }
    }

    /**
      `None` when the call is dropped at `cutoff` or never returns. That the three loops
      terminate is the claim that only an await can keep `process_all` from returning.
     */
    method ProcessAll(cutoff: Option<nat>)
      returns (r: Option<Result<T, HappyError<E>>>, ghost log: seq<Answer>, ghost end: Machine<T, E>)
      requires NoLaterThan(clock, cutoff)
      modifies this`queue, this`tasks, this`error, this`started, this`clock
      ensures Finishes(Config(delay, initialConcurrency, cutoff), old(View()), log, end)
      ensures View() == end.st
      ensures end.done == Some(if r.Some? then Resolved(r.value) else Unresolved)
    {
      ghost var cfg, st := Config(delay, initialConcurrency, cutoff), View();
      LaunchBurst();
      var finished;
      finished, r, log, end := Stagger(cutoff, Primed(cfg, st));
      if !finished {
        r, log, end := Drain(cutoff, Begin(cfg, st), log, end);
      }
    }

    /**
      `None` when the returned future never resolves. Without an overall timeout the result
      is that of `process_all`, which nothing cuts off.
     */
    method Finish() returns (r: Option<Result<T, HappyError<E>>>, ghost log: seq<Answer>, ghost end: Machine<T, E>)
      modifies this`queue, this`tasks, this`error, this`started, this`clock
      ensures Finishes(ConfigAt(Parameters(), old(clock)), old(View()), log, end)
      ensures View() == end.st
      ensures r == Returned(Parameters(), end)
      ensures ConfigAt(Parameters(), old(clock)) ==
              Config(delay, initialConcurrency, if timeout.Some? then Some(old(clock) + timeout.value) else None)
      ensures end.done.value.Resolved? ==> r == Some(end.done.value.result)
      ensures end.done.value.Unresolved? ==> if timeout.None? then r == None else r.Some? && r.value.Err? && r.value.error.Timeout?
    {
      ghost var cfg := ConfigAt(Parameters(), clock);
      match timeout
      case None =>
        assert cfg == Config(delay, initialConcurrency, None);
        r, log, end := ProcessAll(None);
      case Some(t) =>
        assert cfg == Config(delay, initialConcurrency, Some(clock + t));
        r, log, end := ProcessAll(Some(clock + t));
        if r.None? {
          var begun := if started.Some? then started.value else clock;
          r := Some(Err(Timeout(if begun <= clock then clock - begun else 0)));
        }
    }
  }
}
