/**
  Where every attempt goes: conservation of attempts over one run of `process_all`, and
  over any sequence of pushes, extensions and finishes of one set.
 */
module EyeballLedger {
  import opened Wrappers
  import opened EyeballMachine

  ghost predicate Ledger<T, E>(s0: State<T, E>, m: Machine<T, E>) {
    && s0.queue == m.launched + m.discarded + Held(m) + m.st.queue
    && multiset(Attempts(s0.tasks)) + multiset(m.launched) == multiset(m.yielded) + multiset(Attempts(m.st.tasks))
    && |m.discarded| <= 1
    && (m.done.None? ==> m.discarded == [])
    && (m.done.None? && m.hand.None? ==> m.st.queue == [])
    && (m.done.Some? ==> m.hand.None?)
    && (m.discarded == [] && m.hand.None? ==> m.st.queue == [])
  }

  lemma LaunchMultiset<T, E>(tasks: seq<Flight<T, E>>, f: Flight<T, E>)
    ensures Attempts(tasks + [f]) == Attempts(tasks) + [f.attempt]
    ensures multiset(Attempts(tasks + [f])) == multiset(Attempts(tasks)) + multiset{f.attempt}
  {
    assert Attempts(tasks + [f]) == Attempts(tasks) + [f.attempt];
  }

  lemma LedgerBegin<T, E>(cfg: Config, st: State<T, E>)
    ensures Ledger(st, Begin(cfg, st))
  {
    var n := Min(Burst(cfg, st), |st.queue|);
    var all := LaunchAll(st, n);
    assert Attempts(all.tasks) == Attempts(st.tasks) + st.queue[..n];
    assert st.queue == st.queue[..n] + st.queue[n..];
    if n < |st.queue| {
      assert st.queue[n..] == [st.queue[n..][0]] + st.queue[n..][1..];
    }
  }

  lemma LedgerContinue<T, E>(s0: State<T, E>, m: Machine<T, E>)
    requires Ledger(s0, m) && m.done.None?
    ensures Ledger(s0, Continue(m))
  {
    if m.hand.Some? {
      var x := m.hand.value;
      LaunchMultiset(m.st.tasks, Flight(x, m.st.clock));
      if m.st.queue != [] {
        assert m.st.queue == [m.st.queue[0]] + m.st.queue[1..];
      }
      var left := Continue(m);
      assert m.launched + [] + [x] + m.st.queue == left.launched + [] + Held(left) + left.st.queue;
      assert multiset(left.launched) == multiset(m.launched) + multiset{x};
      assert left.st.tasks == m.st.tasks + [Flight(x, m.st.clock)];
      assert multiset(Attempts(left.st.tasks)) == multiset(Attempts(m.st.tasks)) + multiset{x};
      var a0, t := multiset(Attempts(s0.tasks)), multiset(Attempts(m.st.tasks));
      assert a0 + (multiset(m.launched) + multiset{x}) == (a0 + multiset(m.launched)) + multiset{x};
      assert (multiset(m.yielded) + t) + multiset{x} == multiset(m.yielded) + (t + multiset{x});
    }
  }

  lemma LedgerJoined<T, E>(cfg: Config, s0: State<T, E>, m: Machine<T, E>, a: Answer)
    requires Ledger(s0, m) && Legal(cfg, m, a)
    ensures Ledger(s0, Joined(cfg, m, a))
  {
    if a.wake.Yield? {
      AttemptsWithout(m.st.tasks, a.wake.index);
    }
  }

  lemma LedgerStop<T, E>(s0: State<T, E>, m: Machine<T, E>, v: Verdict<T, E>)
    requires Ledger(s0, m) && m.done.None?
    ensures Ledger(s0, Stop(m, v))
  {
    assert m.launched + [] + Held(m) + m.st.queue == m.launched + ([] + Held(m)) + [] + m.st.queue;
  }

  lemma LedgerStep<T, E>(cfg: Config, s0: State<T, E>, m: Machine<T, E>, a: Answer)
    requires Ledger(s0, m) && Legal(cfg, m, a)
    ensures Ledger(s0, Next(cfg, m, a))
  {
    LedgerJoined(cfg, s0, m, a);
    var joined, n := Joined(cfg, m, a), Next(cfg, m, a);
    if n.done.None? {
      assert n == Continue(joined);
      LedgerContinue(s0, joined);
    } else {
      var stopped := joined.(st := n.st);
      assert Ledger(s0, stopped);
      assert n == Stop(stopped, n.done.value);
      LedgerStop(s0, stopped, n.done.value);
    }
  }

  lemma {:induction false} LedgerRun<T, E>(cfg: Config, s0: State<T, E>, m: Machine<T, E>, log: seq<Answer>, end: Machine<T, E>)
    requires Run(cfg, m, log, end) && Ledger(s0, m)
    ensures Ledger(s0, end)
    decreases |log|
  {
    if log != [] {
      LedgerStep(cfg, s0, m, log[0]);
      LedgerRun(cfg, s0, Next(cfg, m, log[0]), log[1..], end);
    }
  }

  /** An error ends a run only once nothing is left in the queue, in hand or in flight. */
  ghost predicate Spent<T, E>(m: Machine<T, E>) {
    m.done.Some? && m.done.value.Resolved? && m.done.value.result.Err? ==>
      m.st.tasks == [] && m.st.queue == [] && m.discarded == [] && m.st.error.None?
  }

  lemma {:induction false} SpentRun<T, E>(cfg: Config, s0: State<T, E>, m: Machine<T, E>, log: seq<Answer>, end: Machine<T, E>)
    requires Run(cfg, m, log, end) && Ledger(s0, m) && Spent(m)
    ensures Spent(end)
    decreases |log|
  {
    if log != [] {
      LedgerStep(cfg, s0, m, log[0]);
      SpentRun(cfg, s0, Next(cfg, m, log[0]), log[1..], end);
    }
  }

  lemma LedgerSettles<T, E>(s0: State<T, E>, m: Machine<T, E>)
    requires Ledger(s0, m) && m.done.Some?
    ensures s0.queue == m.launched + m.discarded + m.st.queue
    ensures m.launched == s0.queue <==> m.discarded == []
    ensures m.discarded == [] ==> m.st.queue == []
  {
    assert m.launched + m.discarded + Held(m) + m.st.queue == m.launched + m.discarded + m.st.queue;
    if m.launched == s0.queue {
      assert |s0.queue| == |m.launched| + |m.discarded| + |m.st.queue|;
    }
  }

  /**
    One run of `process_all`. Launches take a prefix of the queue in push order. Either
    everything was launched, or the run stopped in the staggered loop: then exactly the
    attempt after the launched ones is lost and the rest stay queued. An error loses none.
   */
  lemma RunAccounting<T, E>(cfg: Config, st: State<T, E>, log: seq<Answer>, end: Machine<T, E>)
    requires Finishes(cfg, st, log, end)
    ensures st.queue == end.launched + end.discarded + end.st.queue
    ensures end.launched == st.queue <==> end.discarded == []
    ensures |end.discarded| <= 1
    ensures multiset(Attempts(st.tasks)) + multiset(end.launched) == multiset(end.yielded) + multiset(Attempts(end.st.tasks))
    ensures end.done.value.Resolved? && end.done.value.result.Err? ==>
              end.launched == st.queue && end.st.tasks == [] && end.st.queue == []
  {
    var first := Begin(cfg, st);
    assert Ledger(st, first) by { LedgerBegin(cfg, st); }
    assert Spent(first);
    assert Ledger(st, end) by { LedgerRun(cfg, st, first, log, end); }
    assert Spent(end) by { SpentRun(cfg, st, first, log, end); }
    LedgerSettles(st, end);
  }

  // ---------- A whole session with one set ----------

  /** What a caller does with a set; `Idle` lets time pass between two calls. */
  datatype Op<T, E> =
    | Push(attempt: Attempt<T, E>)
    | Extend(attempts: seq<Attempt<T, E>>)
    | Finish(log: seq<Answer>, end: Machine<T, E>)
    | Idle(ticks: nat)

  datatype Book<T, E> = Book(
    st: State<T, E>,
    pushed: seq<Attempt<T, E>>,
    launched: seq<Attempt<T, E>>,
    completed: seq<Attempt<T, E>>,
    discarded: seq<Attempt<T, E>>,
    finishes: nat)

  function Opened<T, E>(now: nat): Book<T, E> {
    Book(Fresh([], now), [], [], [], [], 0)
  }

  predicate Possible<T(==), E(==)>(setup: Setup, b: Book<T, E>, op: Op<T, E>) {
    op.Finish? ==> Finishes(ConfigAt(setup, b.st.clock), b.st, op.log, op.end)
  }

  function After<T, E>(b: Book<T, E>, op: Op<T, E>): Book<T, E> {
    match op
    case Push(x) => b.(st := b.st.(queue := b.st.queue + [x]), pushed := b.pushed + [x])
    case Extend(xs) => b.(st := b.st.(queue := b.st.queue + xs), pushed := b.pushed + xs)
    case Finish(_, m) =>
      Book(m.st, b.pushed, b.launched + m.launched, b.completed + m.yielded, b.discarded + m.discarded, b.finishes + 1)
    case Idle(d) => b.(st := b.st.(clock := b.st.clock + d))
  }

  function Brought<T, E>(op: Op<T, E>): seq<Attempt<T, E>> {
    match op
    case Push(x) => [x]
    case Extend(xs) => xs
    case _ => []
  }

  /** Everything that was pushed, in order. */
  function PushedBy<T, E>(ops: seq<Op<T, E>>): seq<Attempt<T, E>> {
    if ops == [] then [] else Brought(ops[0]) + PushedBy(ops[1..])
  }

  function FinishesIn<T, E>(ops: seq<Op<T, E>>): nat {
    if ops == [] then 0 else (if ops[0].Finish? then 1 else 0) + FinishesIn(ops[1..])
  }

  predicate Session<T(==), E(==)>(setup: Setup, b: Book<T, E>, ops: seq<Op<T, E>>, end: Book<T, E>)
    decreases |ops|
  {
    if ops == [] then b == end
    else Possible(setup, b, ops[0]) && Session(setup, After(b, ops[0]), ops[1..], end)
  }

  ghost predicate Subsequence<A>(a: seq<A>, b: seq<A>) {
    a == [] || (b != [] && ((a[0] == b[0] && Subsequence(a[1..], b[1..])) || Subsequence(a, b[1..])))
  }

  /** Appending `x` to both, and something more to the longer one, keeps the order. */
  lemma {:induction false} SubsequenceAppend<A>(a: seq<A>, b: seq<A>, x: seq<A>, y: seq<A>)
    requires Subsequence(a, b)
    ensures Subsequence(a + x, b + x + y)
    decreases |b|
  {
    if b == [] {
      assert a + x == x && b + x + y == x + y;
      SubsequencePrefix(x, y);
    } else if a != [] && a[0] == b[0] && Subsequence(a[1..], b[1..]) {
      SubsequenceAppend(a[1..], b[1..], x, y);
      assert (a + x)[1..] == a[1..] + x;
      assert (b + x + y)[1..] == b[1..] + x + y;
    } else {
      SubsequenceAppend(a, b[1..], x, y);
      assert (b + x + y)[1..] == b[1..] + x + y;
    }
  }

  lemma {:induction false} SubsequencePrefix<A>(x: seq<A>, y: seq<A>)
    ensures Subsequence(x, x + y)
    decreases |x|
  {
    if x != [] {
      SubsequencePrefix(x[1..], y);
      assert (x + y)[1..] == x[1..] + y;
    }
  }

  /** `popped` is everything that left the queue, in the order in which it was pushed. */
  ghost predicate Balanced<T, E>(b: Book<T, E>, popped: seq<Attempt<T, E>>) {
    && b.pushed == popped + b.st.queue
    && Subsequence(b.launched, popped)
    && multiset(popped) == multiset(b.launched) + multiset(b.discarded)
    && multiset(b.launched) == multiset(b.completed) + multiset(Attempts(b.st.tasks))
    && |b.discarded| <= b.finishes
  }

  lemma BalancedStep<T, E>(setup: Setup, b: Book<T, E>, op: Op<T, E>, popped: seq<Attempt<T, E>>)
    returns (popped': seq<Attempt<T, E>>)
    requires Balanced(b, popped) && Possible(setup, b, op)
    ensures Balanced(After(b, op), popped')
  {
    popped' := popped;
    match op
    case Push(x) =>
      assert b.pushed + [x] == popped + (b.st.queue + [x]);
    case Extend(xs) =>
      assert b.pushed + xs == popped + (b.st.queue + xs);
    case Idle(_) =>
    case Finish(log, m) =>
      popped' := BalancedFinish(setup, b, log, m, popped);
  }

  lemma BalancedFinish<T, E>(setup: Setup, b: Book<T, E>, log: seq<Answer>, m: Machine<T, E>, popped: seq<Attempt<T, E>>)
    returns (popped': seq<Attempt<T, E>>)
    requires Balanced(b, popped) && Finishes(ConfigAt(setup, b.st.clock), b.st, log, m)
    ensures Balanced(After(b, Finish(log, m)), popped')
  {
    popped' := popped + m.launched + m.discarded;
    RunAccounting(ConfigAt(setup, b.st.clock), b.st, log, m);
    BalancedSettled(b, log, m, popped);
  }

  lemma BalancedSettled<T, E>(b: Book<T, E>, log: seq<Answer>, m: Machine<T, E>, popped: seq<Attempt<T, E>>)
    requires Balanced(b, popped)
    requires b.st.queue == m.launched + m.discarded + m.st.queue && |m.discarded| <= 1
    requires multiset(Attempts(b.st.tasks)) + multiset(m.launched) == multiset(m.yielded) + multiset(Attempts(m.st.tasks))
    ensures Balanced(After(b, Finish(log, m)), popped + m.launched + m.discarded)
  {
    assert b.pushed == popped + m.launched + m.discarded + m.st.queue;
    assert Subsequence(b.launched + m.launched, popped + m.launched + m.discarded) by {
      SubsequenceAppend(b.launched, popped, m.launched, m.discarded);
    }
    PoppedMultiset(popped, b.launched, b.discarded, m.launched, m.discarded);
    LaunchedMultiset(b.launched, b.completed, Attempts(b.st.tasks), m.launched, m.yielded, Attempts(m.st.tasks));
  }

  lemma PoppedMultiset<A>(p: seq<A>, l: seq<A>, d: seq<A>, l': seq<A>, d': seq<A>)
    requires multiset(p) == multiset(l) + multiset(d)
    ensures multiset(p + l' + d') == multiset(l + l') + multiset(d + d')
  {
    assert multiset(p + l' + d') == multiset(p) + multiset(l') + multiset(d');
  }

  lemma LaunchedMultiset<A>(l: seq<A>, c: seq<A>, t: seq<A>, l': seq<A>, c': seq<A>, t': seq<A>)
    requires multiset(l) == multiset(c) + multiset(t)
    requires multiset(t) + multiset(l') == multiset(c') + multiset(t')
    ensures multiset(l + l') == multiset(c + c') + multiset(t')
  {
    assert multiset(l + l') == multiset(c) + (multiset(t) + multiset(l'));
    assert multiset(c + c') + multiset(t') == multiset(c) + (multiset(c') + multiset(t'));
  }

  lemma {:induction false} BalancedSession<T, E>(setup: Setup, b: Book<T, E>, ops: seq<Op<T, E>>, end: Book<T, E>, popped: seq<Attempt<T, E>>)
    returns (last: seq<Attempt<T, E>>)
    requires Session(setup, b, ops, end) && Balanced(b, popped)
    ensures Balanced(end, last)
    decreases |ops|
  {
    if ops == [] {
      last := popped;
    } else {
      var p := BalancedStep(setup, b, ops[0], popped);
      last := BalancedSession(setup, After(b, ops[0]), ops[1..], end, p);
    }
  }

  lemma {:induction false} SessionBook<T, E>(setup: Setup, b: Book<T, E>, ops: seq<Op<T, E>>, end: Book<T, E>)
    requires Session(setup, b, ops, end)
    ensures end.pushed == b.pushed + PushedBy(ops) && end.finishes == b.finishes + FinishesIn(ops)
    decreases |ops|
  {
    if ops == [] {
      assert b.pushed + [] == b.pushed;
    } else {
      var b' := After(b, ops[0]);
      assert b'.pushed == b.pushed + Brought(ops[0]);
      SessionBook(setup, b', ops[1..], end);
      assert b'.pushed + PushedBy(ops[1..]) == b.pushed + (Brought(ops[0]) + PushedBy(ops[1..]));
    }
  }

  /**
    Over any sequence of pushes, extensions and finishes of one set, every attempt pushed
    has completed, is still counted by `len`, or was discarded; each finish discards at
    most one; and attempts are launched in the order in which they were pushed.
   */
  lemma SessionAccounting<T, E>(setup: Setup, now: nat, ops: seq<Op<T, E>>, end: Book<T, E>)
    requires Session(setup, Opened(now), ops, end)
    ensures multiset(end.pushed) ==
            multiset(end.completed) + multiset(Attempts(end.st.tasks)) + multiset(end.st.queue) + multiset(end.discarded)
    ensures |end.pushed| == |end.completed| + (|end.st.tasks| + |end.st.queue|) + |end.discarded|
    ensures end.pushed == PushedBy(ops) && |end.discarded| <= FinishesIn(ops)
    ensures Subsequence(end.launched, end.pushed)
    ensures multiset(end.launched) == multiset(end.completed) + multiset(Attempts(end.st.tasks))
  {
    SessionBook(setup, Opened(now), ops, end);
    assert Opened<T, E>(now).pushed + PushedBy(ops) == PushedBy(ops);
    var popped := BalancedSession(setup, Opened(now), ops, end, []);
    SubsequenceAppend(end.launched, popped, [], end.st.queue);
    assert end.launched + [] == end.launched && popped + [] + end.st.queue == end.pushed;
    assert |popped| == |end.launched| + |end.discarded| by {
      assert |multiset(popped)| == |multiset(end.launched)| + |multiset(end.discarded)|;
    }
    assert |multiset(end.launched)| == |multiset(end.completed)| + |multiset(Attempts(end.st.tasks))|;
  }
}
