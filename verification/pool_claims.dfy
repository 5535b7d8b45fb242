/** What every run of the minting pool keeps: one worker a job, each stream hashed in order, each
    member sealed exactly once with digests of its whole stream. */
module PoolClaims {
  import opened Wrappers
  import opened ByteStrings
  import opened Pool
  import opened PoolSteps

  /** A pool with its worker threads and nothing in it yet. */
  function Start(threads: nat): State {
    State([], map[], map[], [], seq(threads, _ => Free), 0, false)
  }

  /** A run: any interleaving of feeder, walker and worker steps. */
  predicate Runs(st: State, steps: seq<Step>)
    decreases |steps|
  {
    steps == [] || (Enabled(st, steps[0]) && Runs(Do(st, steps[0]), steps[1..]))
  }

  function After(st: State, steps: seq<Step>): State
    requires Runs(st, steps)
    decreases |steps|
  {
    if steps == [] then st else After(Do(st, steps[0]), steps[1..])
  }

  lemma StartHolds(threads: nat)
    ensures Inv(Start(threads))
  {
  }

  lemma {:induction false} RunKeeps(st: State, steps: seq<Step>)
    requires Inv(st) && Runs(st, steps)
    ensures Inv(After(st, steps))
    decreases |steps|
  {
    hide Inv, Enabled, Do;
    if steps != [] {
      StepKeeps(st, steps[0]);
      RunKeeps(Do(st, steps[0]), steps[1..]);
    }
  }

  // ------------------------------------------------------------- exclusivity

  /** No two workers are ever inside the same job. */
  lemma OneWorkerAJob(threads: nat, steps: seq<Step>, w: nat, v: nat)
    requires Runs(Start(threads), steps)
    requires var st := After(Start(threads), steps);
      w < |st.workers| && v < |st.workers| && AtWork(st.workers[w]) && AtWork(st.workers[v]) && st.workers[w].j == st.workers[v].j
    ensures w == v
  {
    hide Inv, MayMove, Runs, After;
    StartHolds(threads);
    RunKeeps(Start(threads), steps);
    var st := After(Start(threads), steps);
    WorkerHas(st, w);
    WorkerHas(st, v);
    HasOne(st, st.workers[w].j, w, v);
  }

  lemma HasOne(st: State, j: JobId, w: nat, v: nat)
    requires j in st.turn && w < |st.workers| && v < |st.workers| && MayMove(st, j, w) && MayMove(st, j, v)
    requires AtWork(st.workers[w]) && AtWork(st.workers[v])
    ensures w == v
  {
  }

  /** A worker that finds chunks pending at its job always finds the hasher there. */
  lemma HasherIsThere(threads: nat, steps: seq<Step>, w: nat)
    requires Runs(Start(threads), steps)
    requires var st := After(Start(threads), steps); w < |st.workers| && st.workers[w].Enter?
    ensures var st := After(Start(threads), steps); st.workers[w].j in st.jobs && st.jobs[st.workers[w].j].hasher.Some?
  {
    hide Inv, Runs, After;
    StartHolds(threads);
    RunKeeps(Start(threads), steps);
    WorkerHas(After(Start(threads), steps), w);
  }

  // ------------------------------------------------------------- the stream, in order

  /** What has gone through job `j`'s hasher, wherever the hasher is now. */
  function HashedSoFar(st: State, j: JobId): Bytes
    requires Known(st, j)
  {
    if st.jobs[j].hasher.Some? then st.jobs[j].hasher.value
    else match st.turn[j]
      case Held(w) => if w < |st.workers| && (st.workers[w].Hashing? || st.workers[w].Holding?) then st.workers[w].h else []
      case Last(w) =>
        if w < |st.workers| && st.workers[w].Finalizing? then st.workers[w].h
        else if j.s in st.mems[j.m].parts then st.mems[j.m].parts[j.s] else []
      case _ => if j.s in st.mems[j.m].parts then st.mems[j.m].parts[j.s] else []
  }

  /** What a worker has drained from job `j` and not yet hashed. */
  function BeingHashed(st: State, j: JobId): Bytes
    requires Known(st, j)
  {
    match st.turn[j]
    case Held(w) => if w < |st.workers| && st.workers[w].Hashing? then Flatten(st.workers[w].todo) else []
    case _ => []
  }

  /** In every reachable state, bytes hashed, then bytes being hashed, then chunks pending are exactly
      the stream handed to the job, which is a prefix of what was pushed. */
  lemma StreamInOrder(threads: nat, steps: seq<Step>, j: JobId)
    requires Runs(Start(threads), steps)
    requires var st := After(Start(threads), steps); j in st.jobs
    ensures var st := After(Start(threads), steps);
      && Known(st, j)
      && HashedSoFar(st, j) + BeingHashed(st, j) + Flatten(st.jobs[j].chunks) == Reached(st.mems[j.m], j.s)
      && Reached(st.mems[j.m], j.s) <= st.mems[j.m].pushed
  {
    hide Inv, Runs, After, Hashes, MemInv;
    StartHolds(threads);
    RunKeeps(Start(threads), steps);
    var st := After(Start(threads), steps);
    JobHolds(st, j);
    InOrder(st, j);
    ReachedIsPrefix(st.mems[j.m], j.s);
  }

  lemma JobHolds(st: State, j: JobId)
    requires Inv(st) && j in st.jobs
    ensures JobInv(st, j) && MemInv(st.mems[j.m])
  {
    hide Hashes, MemInv;
  }

  lemma InOrder(st: State, j: JobId)
    requires JobInv(st, j)
    ensures HashedSoFar(st, j) + BeingHashed(st, j) + Flatten(st.jobs[j].chunks) == Reached(st.mems[j.m], j.s)
  {
    hide Reached;
    EmptyFlatten([]);
    var h, b, c := HashedSoFar(st, j), BeingHashed(st, j), Flatten(st.jobs[j].chunks);
    assert b == [] ==> h + b == h;
    assert c == [] ==> (h + b) + c == h + b;
  }

  lemma ReachedIsPrefix(mem: Member, s: nat)
    requires MemInv(mem)
    ensures Reached(mem, s) <= mem.pushed
  {
  }

  // ------------------------------------------------------------- sealing

  /** Step `step` is one that seals member `m`. */
  predicate Seals(st: State, step: Step, m: nat) {
    step == MetaSeal(m) || (step.WorkerSeal? && step.w < |st.workers| && st.workers[step.w] == Sealing(m))
  }

  predicate IsSealed(st: State, m: nat) {
    m < |st.mems| && st.mems[m].sealed.Some?
  }

  function SealCount(st: State, steps: seq<Step>, m: nat): nat
    requires Runs(st, steps)
    decreases |steps|
  {
    if steps == [] then 0
    else (if Seals(st, steps[0], m) then 1 else 0) + SealCount(Do(st, steps[0]), steps[1..], m)
  }

  /** A sealing step always finds its member unsealed. */
  lemma SealsUnsealed(st: State, step: Step, m: nat)
    requires Inv(st) && Enabled(st, step) && Seals(st, step, m)
    ensures !IsSealed(st, m)
  {
    hide Inv;
    if step.MetaSeal? {
      MemberIs(st, m);
    } else {
      SealerHas(st, step.w);
    }
  }

  predicate ByWorker(step: Step) {
    || step.TakeTask? || step.RunHash? || step.HashOne? || step.Release? || step.WritePart? || step.FinishPart? || step.WorkerSeal?
    || step.TakeRead? || step.EndRead? || step.ClosePool?
  }

  lemma SealStepByFeeder(st: State, step: Step, m: nat)
    requires Enabled(st, step) && !ByWorker(step)
    ensures IsSealed(Do(st, step), m) <==> IsSealed(st, m) || Seals(st, step, m)
  {
    hide NewJobs, NewTurns;
  }

  lemma SealStepByWorker(st: State, step: Step, m: nat)
    requires Enabled(st, step) && ByWorker(step)
    ensures IsSealed(Do(st, step), m) <==> IsSealed(st, m) || Seals(st, step, m)
  {
    hide Readers;
  }

  /** No other step seals a member or unseals one. */
  lemma SealStep(st: State, step: Step, m: nat)
    requires Enabled(st, step)
    ensures IsSealed(Do(st, step), m) <==> IsSealed(st, m) || Seals(st, step, m)
  {
    hide Enabled, Do, IsSealed, Seals;
    if ByWorker(step) {
      SealStepByWorker(st, step, m);
    } else {
      SealStepByFeeder(st, step, m);
    }
  }

  lemma {:induction false} SealsOnce(st: State, steps: seq<Step>, m: nat)
    requires Inv(st) && Runs(st, steps)
    ensures SealCount(st, steps, m) + (if IsSealed(st, m) then 1 else 0) == if IsSealed(After(st, steps), m) then 1 else 0
    decreases |steps|
  {
    hide Inv, Enabled, Do, Seals, IsSealed;
    if steps != [] {
      StepKeeps(st, steps[0]);
      SealStep(st, steps[0], m);
      if Seals(st, steps[0], m) {
        SealsUnsealed(st, steps[0], m);
      }
      SealsOnce(Do(st, steps[0]), steps[1..], m);
    }
  }

  /** Over any run each member is sealed at most once, and it is sealed at the end exactly if some
      step sealed it: the sealing code never finds the member's metadata already taken. */
  lemma SealedExactlyOnce(threads: nat, steps: seq<Step>, m: nat)
    requires Runs(Start(threads), steps)
    ensures SealCount(Start(threads), steps, m) == if IsSealed(After(Start(threads), steps), m) then 1 else 0
  {
    hide Inv;
    StartHolds(threads);
    SealsOnce(Start(threads), steps, m);
  }

  /** A sealed member had its stream and its metadata closed, and carries under every scheme the
      digest of everything ever pushed to it. */
  lemma SealedIsWhole(threads: nat, steps: seq<Step>, m: nat)
    requires Runs(Start(threads), steps) && IsSealed(After(Start(threads), steps), m)
    ensures var mem := After(Start(threads), steps).mems[m];
      && (mem.feeder.Closing? || mem.feeder.Shut?) && mem.meta.Counted?
      && mem.sealed.value.size == |mem.pushed|
      && forall s :: 0 <= s < mem.njobs ==> s in mem.sealed.value.digests && mem.sealed.value.digests[s] == mem.pushed
  {
    hide Inv, Runs, After;
    StartHolds(threads);
    RunKeeps(Start(threads), steps);
    SealedMeansClosed(After(Start(threads), steps), m);
  }

  lemma SealedMeansClosed(st: State, m: nat)
    requires Inv(st) && IsSealed(st, m)
    ensures (st.mems[m].feeder.Closing? || st.mems[m].feeder.Shut?) && st.mems[m].meta.Counted? && WholeSeal(st.mems[m], st.mems[m].sealed.value)
  {
    hide Inv;
    MemberIs(st, m);
    CountsLeft(st.mems[m]);
    if st.mems[m].feeder.Ready? || st.mems[m].feeder.Flushing? {
      NotSealedWhileFeeding(st, m);
    }
  }
}
