/** What the pool has left to do shrinks with every step it takes on its own, and once every feeder has
    closed those steps stop only with every member sealed. */
module PoolIdle {
  import opened Wrappers
  import opened ByteStrings
  import opened Pool
  import opened PoolSteps
  import opened PoolTotals
  import opened PoolClaims
  import opened PoolBudget
  import opened PoolDrain

  // ------------------------------------------------------------- what is left to do

  function JobEffort(job: Job): nat {
    4 * |job.chunks|
  }

  function Visits(njobs: nat, k: nat, enqueue: bool): nat {
    1 + (if k < njobs then 12 * (njobs - k) - (if enqueue then 5 else 0) else 0)
  }

  function MemberEffort(mem: Member): nat {
    (match mem.feeder
     case Flushing(_, k, e) => Visits(mem.njobs, k, e)
     case Closing(k, e) => Visits(mem.njobs, k, e)
     case _ => 0) + (if mem.meta.MetaSeals? then 1 else 0)
  }

  function WorkerEffort(wk: Worker): nat {
    match wk
    case Enter(_) => 4
    case Holding(_, _) => 4
    case Hashing(_, _, todo, _) => 5 + |todo|
    case Finalizing(_, _) => 3
    case Finishing(_) => 2
    case Sealing(_) => 1
    case _ => 0
  }

  const EFFORT := Weights(JobEffort, MemberEffort, WorkerEffort)

  function Effort(st: State): nat {
    Total(st, EFFORT) + 5 * |st.queue|
  }

  lemma MemberEffortFalls(st: State, step: Step)
    requires Inv(st) && Enabled(st, step) && (step.FlushDone? || step.CloseDone? || step.MetaSeal?)
    ensures Effort(Do(st, step)) < Effort(st)
  {
    hide Inv, Total;
    MemberIs(st, step.m);
    MemberHasJobs(st.mems[step.m]);
    JobMoves(st, Do(st, step), JobId(step.m, 0), EFFORT);
  }

  lemma FlushEffortFalls(st: State, step: Step)
    requires Inv(st) && Enabled(st, step) && (step.FlushJob? || step.FlushEnqueue?)
    ensures Effort(Do(st, step)) < Effort(st)
  {
    hide Inv, Total, JobInv, MemInv;
    JobToVisit(st, step.m);
    JobMoves(st, Do(st, step), JobId(step.m, st.mems[step.m].feeder.k), EFFORT);
  }

  lemma CloseEffortFalls(st: State, step: Step)
    requires Inv(st) && Enabled(st, step) && (step.CloseJob? || step.CloseEnqueue?)
    ensures Effort(Do(st, step)) < Effort(st)
  {
    hide Inv, Total, JobInv, MemInv;
    JobToVisit(st, step.m);
    JobMoves(st, Do(st, step), JobId(step.m, st.mems[step.m].feeder.k), EFFORT);
  }

  lemma JobToVisit(st: State, m: nat)
    requires Inv(st) && m < |st.mems| && (st.mems[m].feeder.Flushing? || st.mems[m].feeder.Closing?)
    ensures var k := st.mems[m].feeder.k;
      k <= st.mems[m].njobs && (st.mems[m].feeder.enqueue ==> k < st.mems[m].njobs) && (k < st.mems[m].njobs ==> JobId(m, k) in st.jobs)
  {
    hide Inv, JobInv;
    MemberIs(st, m);
    MemberHasJobs(st.mems[m]);
  }

  lemma WorkerEffortFalls(st: State, step: Step)
    requires Enabled(st, step) && (step.TakeTask? || step.HashOne? || step.Release?)
    ensures Effort(Do(st, step)) < Effort(st)
  {
    hide Total;
    var next := Do(st, step);
    TotalReads(next, SetWorker(st, step.w, next.workers[step.w]), EFFORT);
    WorkerMoves(st, SetWorker(st, step.w, next.workers[step.w]), step.w, EFFORT);
  }

  lemma RunHashEffortFalls(st: State, w: nat)
    requires Inv(st) && Enabled(st, RunHash(w))
    ensures Effort(Do(st, RunHash(w))) < Effort(st)
  {
    hide Inv, Total, MayMove, JobInv;
    WorkerHas(st, w);
    KnownJob(st, st.workers[w].j);
    BothMove(st, Do(st, RunHash(w)), st.workers[w].j, w, EFFORT);
  }

  lemma EndEffortFalls(st: State, step: Step)
    requires Inv(st) && Enabled(st, step) && (step.WritePart? || step.FinishPart?)
    ensures Effort(Do(st, step)) < Effort(st)
  {
    hide Inv, Total, MayMove, JobInv;
    WorkerHas(st, step.w);
    KnownJob(st, st.workers[step.w].j);
    BothMove(st, Do(st, step), st.workers[step.w].j, step.w, EFFORT);
  }

  lemma SealEffortFalls(st: State, w: nat)
    requires Inv(st) && Enabled(st, WorkerSeal(w))
    ensures Effort(Do(st, WorkerSeal(w))) < Effort(st)
  {
    hide Inv, Total, JobInv;
    var m := st.workers[w].m;
    MemberIs(st, m);
    MemberHasJobs(st.mems[m]);
    BothMove(st, Do(st, WorkerSeal(w)), JobId(m, 0), w, EFFORT);
  }

  /** Every step the pool takes on its own leaves less to do. */
  lemma EffortFalls(st: State, step: Step)
    requires Inv(st) && CanGo(st, step)
    ensures Effort(Do(st, step)) < Effort(st)
  {
    hide Inv, Effort;
    match step {
      case FlushDone(_) => MemberEffortFalls(st, step);
      case CloseDone(_) => MemberEffortFalls(st, step);
      case MetaSeal(_) => MemberEffortFalls(st, step);
      case FlushJob(_) => FlushEffortFalls(st, step);
      case FlushEnqueue(_) => FlushEffortFalls(st, step);
      case CloseJob(_) => CloseEffortFalls(st, step);
      case CloseEnqueue(_) => CloseEffortFalls(st, step);
      case TakeTask(_, _) => WorkerEffortFalls(st, step);
      case HashOne(_) => WorkerEffortFalls(st, step);
      case Release(_) => WorkerEffortFalls(st, step);
      case RunHash(w) => RunHashEffortFalls(st, w);
      case WritePart(_) => EndEffortFalls(st, step);
      case FinishPart(_) => EndEffortFalls(st, step);
      case WorkerSeal(w) => SealEffortFalls(st, w);
    }
  }

  // ------------------------------------------------------------- where it stops

  /** Every feeder has closed and every metadata half is in. */
  predicate AllClosed(st: State) {
    forall m :: 0 <= m < |st.mems| ==> st.mems[m].feeder.Shut? && !st.mems[m].meta.Open?
  }

  /** Nothing queued, no worker at work, nobody about to seal. */
  predicate Still(st: State) {
    && st.queue == [] && (forall w :: 0 <= w < |st.workers| ==> st.workers[w].Free? || st.workers[w].Reading?)
    && (forall m :: 0 <= m < |st.mems| ==> !st.mems[m].meta.MetaSeals?)
  }

  lemma StillJobIsOver(st: State, j: JobId)
    requires JobInv(st, j) && Still(st) && st.mems[j.m].feeder.Shut?
    ensures st.turn[j].Over?
  {
    hide Flatten, Reached;
  }

  /** A still pool with everything closed has sealed every member. */
  lemma StillMeansSealed(st: State, m: nat)
    requires Inv(st) && AllClosed(st) && Still(st) && m < |st.mems|
    ensures st.mems[m].sealed.Some?
  {
    hide Inv, JobInv;
    var mem := st.mems[m];
    MemberIs(st, m);
    forall s | 0 <= s < mem.njobs
      ensures s in mem.finished
    {
      StillJobIsOver(st, JobId(m, s));
      OverIsFinished(st, JobId(m, s));
    }
    FullSet(mem.finished, mem.njobs);
    if mem.sealed.None? {
      SealIsComing(st, m);
    }
  }

  lemma OverIsFinished(st: State, j: JobId)
    requires JobInv(st, j) && st.turn[j].Over?
    ensures j.s in st.mems[j.m].finished
  {
    hide Hashes;
  }

  lemma SealIsComing(st: State, m: nat)
    requires Inv(st) && m < |st.mems| && st.mems[m].remaining == 0 && st.mems[m].sealed.None?
    ensures SealComing(st, m)
  {
    hide JobInv, MemInv, WorkerInv;
  }

  lemma {:induction false} FullSet(t: set<nat>, n: nat)
    requires forall s :: 0 <= s < n ==> s in t
    ensures |t| >= n
  {
    if n > 0 {
      FullSet(t - {n - 1}, n - 1);
    }
  }

  /** As long as some member is unsealed, someone in the pool can go on. */
  lemma UnsealedGoesOn(st: State, m: nat, w: nat) returns (step: Step)
    requires Inv(st) && AllClosed(st) && m < |st.mems| && st.mems[m].sealed.None? && w < |st.workers| && !st.workers[w].Reading?
    ensures CanGo(st, step)
  {
    hide Inv;
    if i :| 0 <= i < |st.mems| && st.mems[i].meta.MetaSeals? {
      return MetaSeal(i);
    }
    if v :| 0 <= v < |st.workers| && !st.workers[v].Free? && !st.workers[v].Reading? {
      step := WorkerGoesOn(st, v);
      return;
    }
    if st.queue != [] {
      step := QueueGoesOn(st, w);
      return;
    }
    StillMeansSealed(st, m);
    assert false;
  }
}
