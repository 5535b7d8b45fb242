/** What bounds the pool: the bytes in flight stay within the budget while it is open, and readers leave a
    thread to hash. */
module PoolBounds {
  import opened Wrappers
  import opened ByteStrings
  import opened Pool
  import opened PoolClaims
  import opened PoolDrain

  /** A buffer is at most a chunk, and while the pool is open no more is in use than the budget allows. */
  predicate Within(st: State) {
    && (forall m :: 0 <= m < |st.mems| ==> |st.mems[m].buf| <= CHUNK && st.mems[m].njobs <= SCHEMES + 1)
    && (!st.closed ==> st.budget <= BUDGET)
  }

  lemma Product(a: nat, b: nat, c: nat, d: nat)
    requires a <= c && b <= d
    ensures a * b <= c * d
  {
    assert a * b <= c * b <= c * d;
  }

  predicate OfWorker(step: Step) {
    || step.TakeTask? || step.RunHash? || step.HashOne? || step.Release? || step.WritePart? || step.FinishPart? || step.WorkerSeal?
    || step.TakeRead? || step.EndRead?
  }

  /** The same buffers, and no more taken from the budget. */
  predicate TakesNothing(st: State, next: State) {
    && next.budget <= st.budget && (st.closed ==> next.closed) && |next.mems| == |st.mems|
    && forall m :: 0 <= m < |st.mems| ==> next.mems[m].buf == st.mems[m].buf && next.mems[m].njobs == st.mems[m].njobs
  }

  lemma WorkersTakeNothing(st: State, step: Step)
    requires Enabled(st, step) && OfWorker(step)
    ensures TakesNothing(st, Do(st, step))
  {
  }

  lemma OthersTakeNothing(st: State, step: Step)
    requires Enabled(st, step) && !OfWorker(step) && !step.BeginFlush? && !step.Push? && !step.NewMember?
    ensures TakesNothing(st, Do(st, step))
  {
  }

  /** Only a push fills a buffer, and only a flush takes from the budget. */
  lemma StepStaysWithin(st: State, step: Step)
    requires Within(st) && Enabled(st, step)
    ensures Within(Do(st, step))
  {
    if step.BeginFlush? {
      Product(|st.mems[step.m].buf|, st.mems[step.m].njobs, CHUNK, SCHEMES + 1);
    } else if !step.Push? && !step.NewMember? {
      hide Do;
      if OfWorker(step) {
        WorkersTakeNothing(st, step);
      } else {
        OthersTakeNothing(st, step);
      }
    }
  }

  lemma {:induction false} RunStaysWithin(st: State, steps: seq<Step>)
    requires Within(st) && Runs(st, steps)
    ensures Within(After(st, steps))
    decreases |steps|
  {
    hide Within, Enabled, Do;
    if steps != [] {
      StepStaysWithin(st, steps[0]);
      RunStaysWithin(Do(st, steps[0]), steps[1..]);
    }
  }

  /** Over any run: while the pool is open, what is in use never passes the budget, one flush being far smaller
      than it; and however many threads there are, from two on, one of them is not reading. */
  lemma PoolIsBounded(threads: nat, steps: seq<Step>)
    requires Runs(Start(threads), steps)
    ensures var st := After(Start(threads), steps);
            && (!st.closed ==> st.budget <= BUDGET)
            && |st.workers| == threads && (threads >= 2 ==> Readers(st.workers, threads) < threads)
  {
    hide Runs, After;
    assert Within(Start(threads));
    RunStaysWithin(Start(threads), steps);
    FromStart(threads, steps);
  }
}
