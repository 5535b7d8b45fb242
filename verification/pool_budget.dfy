/** The byte budget: exactly the bytes handed over and not yet released, so a blocked flush always
    leaves some worker something to do. */
module PoolBudget {
  import opened Wrappers
  import opened ByteStrings
  import opened Pool
  import opened PoolSteps
  import opened PoolTotals
  import opened PoolClaims

  function JobCharge(job: Job): nat {
    |Flatten(job.chunks)|
  }

  /** What a flush has been charged for and not yet handed over. */
  function MemberCharge(mem: Member): nat {
    if mem.feeder.Flushing? && mem.feeder.k + (if mem.feeder.enqueue then 1 else 0) <= mem.njobs
    then (mem.njobs - mem.feeder.k - (if mem.feeder.enqueue then 1 else 0)) * |mem.feeder.chunk|
    else 0
  }

  function WorkerCharge(wk: Worker): nat {
    if wk.Hashing? then |Flatten(wk.todo)| + wk.freed else 0
  }

  const CHARGE := Weights(JobCharge, MemberCharge, WorkerCharge)

  /** The budget in use is the bytes charged and not yet released. */
  predicate Balanced(st: State) {
    st.budget == Total(st, CHARGE)
  }

  lemma OneLess(n: nat, c: nat)
    requires n > 0
    ensures n * c == (n - 1) * c + c
  {
  }

  lemma AtMember(st: State, m: nat, mem: Member)
    requires Inv(st) && m < |st.mems| && mem.njobs == st.mems[m].njobs
    ensures JobId(m, 0) in st.jobs && AtOneJob(st, SetMem(st, m, mem), JobId(m, 0))
    ensures Total(SetMem(st, m, mem), CHARGE) + MemberCharge(st.mems[m]) == Total(st, CHARGE) + MemberCharge(mem)
  {
    hide Inv, JobInv, Total, MemberCharge, JobCharge;
    MemberIs(st, m);
    MemberHasJobs(st.mems[m]);
    JobMoves(st, SetMem(st, m, mem), JobId(m, 0), CHARGE);
  }

  lemma MemberHasJobs(mem: Member)
    requires MemInv(mem)
    ensures mem.njobs > 0
    ensures mem.feeder.Flushing? || mem.feeder.Closing? ==> mem.feeder.k <= mem.njobs && (mem.feeder.enqueue ==> mem.feeder.k < mem.njobs)
  {
  }

  /** A step at one member that touches no job, worker or budget beyond the flush it starts or ends. */
  lemma MemberStepBalances(st: State, step: Step)
    requires Inv(st) && Balanced(st) && Enabled(st, step)
    requires step.Push? || step.BeginFlush? || step.FlushDone? || step.BeginClose? || step.CloseDone? || step.CloseMeta? || step.MetaSeal?
    ensures Balanced(Do(st, step))
  {
    hide Inv, Total;
    MemberIs(st, step.m);
    AtMember(st, step.m, Do(st, step).mems[step.m]);
    TotalReads(Do(st, step), SetMem(st, step.m, Do(st, step).mems[step.m]), CHARGE);
  }

  lemma TotalReads(a: State, b: State, wt: Weights)
    requires a.jobs == b.jobs && a.mems == b.mems && a.workers == b.workers
    ensures Total(a, wt) == Total(b, wt)
  {
  }

  /** The chunk goes from the flush to the job's queue. */
  lemma FlushJobBalances(st: State, m: nat)
    requires Inv(st) && Balanced(st) && Enabled(st, FlushJob(m))
    ensures Balanced(Do(st, FlushJob(m)))
  {
    hide Inv, Total;
    var mem, j, next := st.mems[m], JobId(m, st.mems[m].feeder.k), Do(st, FlushJob(m));
    MemberIs(st, m);
    FlattenOne(st.jobs[j].chunks, mem.feeder.chunk);
    OneLess(mem.njobs - mem.feeder.k, |mem.feeder.chunk|);
    JobMoves(st, next, j, CHARGE);
  }

  lemma JobStepBalances(st: State, step: Step)
    requires Inv(st) && Balanced(st) && Enabled(st, step)
    requires step.FlushEnqueue? || step.CloseJob? || step.CloseEnqueue?
    ensures Balanced(Do(st, step))
  {
    hide Inv, Total;
    var j := JobId(step.m, st.mems[step.m].feeder.k);
    MemberIs(st, step.m);
    JobMoves(st, Do(st, step), j, CHARGE);
  }

  lemma NewMemberBalances(st: State, njobs: nat)
    requires Inv(st) && Balanced(st)
    ensures Balanced(AddMember(st, njobs))
  {
    hide JobInv, WorkerInv, MemInv, Total;
    MemberJoins(st, njobs, CHARGE);
    FreshJobsWeigh(st, njobs, njobs, JobCharge);
  }

  /** A worker's own moves: hashing turns bytes to do into bytes to release; releasing gives them back. */
  lemma WorkerStepBalances(st: State, step: Step)
    requires Inv(st) && Balanced(st) && Enabled(st, step)
    requires step.TakeTask? || step.HashOne? || step.Release? || step.TakeRead? || step.EndRead?
    ensures Balanced(Do(st, step))
  {
    hide Inv, Total, Readers;
    EmptyFlatten([]);
    TotalReads(Do(st, step), SetWorker(st, step.w, Do(st, step).workers[step.w]), CHARGE);
    WorkerMoves(st, SetWorker(st, step.w, Do(st, step).workers[step.w]), step.w, CHARGE);
  }

  lemma RunHashBalances(st: State, w: nat)
    requires Inv(st) && Balanced(st) && Enabled(st, RunHash(w))
    ensures Balanced(Do(st, RunHash(w)))
  {
    hide Inv, Total, MayMove;
    EmptyFlatten([]);
    WorkerHas(st, w);
    KnownJob(st, st.workers[w].j);
    BothMove(st, Do(st, RunHash(w)), st.workers[w].j, w, CHARGE);
  }

  lemma EndStepBalances(st: State, step: Step)
    requires Inv(st) && Balanced(st) && Enabled(st, step) && (step.WritePart? || step.FinishPart?)
    ensures Balanced(Do(st, step))
  {
    hide Inv, Total, MayMove, JobInv;
    var j := st.workers[step.w].j;
    WorkerHas(st, step.w);
    KnownJob(st, j);
    BothMove(st, Do(st, step), j, step.w, CHARGE);
  }

  lemma SealBalances(st: State, w: nat)
    requires Inv(st) && Balanced(st) && Enabled(st, WorkerSeal(w))
    ensures Balanced(Do(st, WorkerSeal(w)))
  {
    hide Inv, Total, JobInv;
    var m := st.workers[w].m;
    MemberIs(st, m);
    MemberHasJobs(st.mems[m]);
    BothMove(st, Do(st, WorkerSeal(w)), JobId(m, 0), w, CHARGE);
  }

  lemma StepBalances(st: State, step: Step)
    requires Inv(st) && Balanced(st) && Enabled(st, step)
    ensures Balanced(Do(st, step))
  {
    hide Inv, Total, Balanced;
    match step {
      case NewMember(njobs) => NewMemberBalances(st, njobs);
      case FlushJob(m) => FlushJobBalances(st, m);
      case FlushEnqueue(_) => JobStepBalances(st, step);
      case CloseJob(_) => JobStepBalances(st, step);
      case CloseEnqueue(_) => JobStepBalances(st, step);
      case TakeTask(_, _) => WorkerStepBalances(st, step);
      case HashOne(_) => WorkerStepBalances(st, step);
      case Release(_) => WorkerStepBalances(st, step);
      case TakeRead(_, _) => WorkerStepBalances(st, step);
      case EndRead(_) => WorkerStepBalances(st, step);
      case RunHash(w) => RunHashBalances(st, w);
      case WritePart(_) => EndStepBalances(st, step);
      case FinishPart(_) => EndStepBalances(st, step);
      case WorkerSeal(w) => SealBalances(st, w);
      case ClosePool => CloseBalances(st);
      case _ => MemberStepBalances(st, step);
    }
  }

  lemma CloseBalances(st: State)
    requires Balanced(st)
    ensures Balanced(Do(st, ClosePool))
  {
    hide Total;
    TotalReads(st, Do(st, ClosePool), CHARGE);
  }
}
