/** The pool never holds itself still: with two threads or more, a flush held up by the budget always
    leaves work under way. */
module PoolDrain {
  import opened Wrappers
  import opened ByteStrings
  import opened Pool
  import opened PoolSteps
  import opened PoolTotals
  import opened PoolClaims
  import opened PoolBudget

  // ------------------------------------------------------------- readers

  lemma {:induction false} ReadersSame(a: seq<Worker>, b: seq<Worker>, n: nat)
    requires n <= |a| && n <= |b| && forall v :: 0 <= v < n ==> a[v] == b[v]
    ensures Readers(a, n) == Readers(b, n)
  {
    if n > 0 {
      ReadersSame(a, b, n - 1);
    }
  }

  lemma {:induction false} ReadersBut(a: seq<Worker>, b: seq<Worker>, w: nat, n: nat)
    requires w < n <= |a| == |b| && b == a[w := b[w]]
    ensures Readers(b, n) + (if a[w].Reading? then 1 else 0) == Readers(a, n) + (if b[w].Reading? then 1 else 0)
  {
    if w == n - 1 {
      ReadersSame(a, b, n - 1);
    } else {
      ReadersBut(a, b, w, n - 1);
    }
  }

  lemma {:induction false} AllReading(ws: seq<Worker>, n: nat)
    requires n <= |ws|
    ensures Readers(ws, n) <= n
    ensures Readers(ws, n) == n <==> forall v :: 0 <= v < n ==> ws[v].Reading?
  {
    if n > 0 {
      AllReading(ws, n - 1);
    }
  }

  predicate Capped(st: State, threads: nat) {
    |st.workers| == threads && Readers(st.workers, threads) <= ReaderCap(threads)
  }

  /** A step moves at most its own worker, and only taking a read task makes it a reader. */
  lemma WorkersAfter(st: State, step: Step)
    requires Enabled(st, step)
    ensures |Do(st, step).workers| == |st.workers|
    ensures Do(st, step).workers == st.workers ||
            (ByWorker(step) && !step.ClosePool? && step.w < |st.workers|
             && Do(st, step).workers == st.workers[step.w := Do(st, step).workers[step.w]])
    ensures !step.TakeRead? ==> forall v :: 0 <= v < |st.workers| && Do(st, step).workers[v].Reading? ==> st.workers[v].Reading?
  {
    hide Readers, AddMember;
    if step.NewMember? {
      AddsNoWorker(st, step.njobs);
    }
  }

  lemma AddsNoWorker(st: State, njobs: nat)
    ensures AddMember(st, njobs).workers == st.workers
  {
  }

  lemma CapStays(st: State, step: Step, threads: nat)
    requires Capped(st, threads) && Enabled(st, step)
    ensures Capped(Do(st, step), threads)
  {
    hide Do;
    WorkersAfter(st, step);
    if Do(st, step).workers != st.workers {
      ReadersBut(st.workers, Do(st, step).workers, step.w, threads);
    }
  }

  // ------------------------------------------------------------- every run

  lemma {:induction false} RunBalances(st: State, steps: seq<Step>, threads: nat)
    requires Inv(st) && Balanced(st) && Capped(st, threads) && Runs(st, steps)
    ensures Inv(After(st, steps)) && Balanced(After(st, steps)) && Capped(After(st, steps), threads)
    decreases |steps|
  {
    hide Inv, Enabled, Do, Balanced, Capped;
    if steps != [] {
      StepKeeps(st, steps[0]);
      StepBalances(st, steps[0]);
      CapStays(st, steps[0], threads);
      RunBalances(Do(st, steps[0]), steps[1..], threads);
    }
  }

  lemma {:induction false} IdleWorkers(threads: nat, n: nat)
    requires n <= threads
    ensures SumWorkers(Start(threads).workers, n, WorkerCharge) == 0 && Readers(Start(threads).workers, n) == 0
  {
    if n > 0 {
      IdleWorkers(threads, n - 1);
    }
  }

  lemma FromStart(threads: nat, steps: seq<Step>)
    requires Runs(Start(threads), steps)
    ensures var st := After(Start(threads), steps); Inv(st) && Balanced(st) && Capped(st, threads)
  {
    hide Inv, Runs, After;
    StartHolds(threads);
    IdleWorkers(threads, threads);
    RunBalances(Start(threads), steps, threads);
  }

  /** The budget in use always equals the bytes handed to jobs or owed by flushes under way, less what
      workers have released; so it is back at zero whenever nothing is in flight. */
  lemma BudgetIsExact(threads: nat, steps: seq<Step>)
    requires Runs(Start(threads), steps)
    ensures After(Start(threads), steps).budget == Total(After(Start(threads), steps), CHARGE)
  {
    hide Runs, After, Total;
    FromStart(threads, steps);
  }

  // ------------------------------------------------------------- someone can always go on

  /** Steps nobody outside the pool has to ask for. */
  predicate Internal(step: Step) {
    || step.FlushJob? || step.FlushEnqueue? || step.FlushDone? || step.CloseJob? || step.CloseEnqueue? || step.CloseDone?
    || step.MetaSeal? || step.TakeTask? || step.RunHash? || step.HashOne? || step.Release? || step.WritePart? || step.FinishPart?
    || step.WorkerSeal?
  }

  predicate CanGo(st: State, step: Step) {
    Internal(step) && Enabled(st, step)
  }

  lemma WorkerGoesOn(st: State, w: nat) returns (step: Step)
    requires Inv(st) && w < |st.workers| && (AtWork(st.workers[w]) || st.workers[w].Sealing?)
    ensures CanGo(st, step)
  {
    hide Inv, JobInv, MayMove;
    if st.workers[w].Sealing? {
      SealerHas(st, w);
      return WorkerSeal(w);
    }
    WorkerHas(st, w);
    KnownJob(st, st.workers[w].j);
    match st.workers[w] {
      case Enter(_) => step := RunHash(w);
      case Holding(_, _) => step := RunHash(w);
      case Hashing(_, _, todo, _) => step := if todo != [] then HashOne(w) else Release(w);
      case Finalizing(_, _) => step := WritePart(w);
      case Finishing(_) => step := FinishPart(w);
    }
  }

  lemma FeederGoesOn(st: State, m: nat) returns (step: Step)
    requires Inv(st) && m < |st.mems| && (st.mems[m].feeder.Flushing? || st.mems[m].feeder.Closing?)
    ensures CanGo(st, step)
  {
    hide Inv, Hashes;
    MemberIs(st, m);
    MemberHasJobs(st.mems[m]);
    match st.mems[m].feeder {
      case Flushing(_, k, e) => step := if e then FlushEnqueue(m) else if k < st.mems[m].njobs then FlushJob(m) else FlushDone(m);
      case Closing(k, e) => step := if e then CloseEnqueue(m) else if k < st.mems[m].njobs then CloseJob(m) else CloseDone(m);
    }
  }

  /** A task in the queue is work for any worker not reading: that one takes it or has its own to do. */
  lemma QueueGoesOn(st: State, w: nat) returns (step: Step)
    requires Inv(st) && w < |st.workers| && !st.workers[w].Reading? && st.queue != []
    ensures CanGo(st, step)
  {
    hide Inv, JobInv;
    if st.workers[w].Free? {
      TaskOf(st, 0);
      KnownJob(st, st.queue[0]);
      step := TakeTask(w, 0);
    } else {
      step := WorkerGoesOn(st, w);
    }
  }

  /** A job with chunks pending is never forgotten. */
  lemma PendingGoesOn(st: State, j: JobId, w: nat) returns (step: Step)
    requires Inv(st) && j in st.jobs && st.jobs[j].chunks != [] && w < |st.workers| && !st.workers[w].Reading?
    ensures CanGo(st, step)
  {
    hide Inv, CanGo, Hashes;
    JobHolds(st, j);
    PendingTurn(st, j);
    match st.turn[j] {
      case Waiting => step := QueueGoesOn(st, w);
      case Handed => step := FeederGoesOn(st, j.m);
      case Held(v) => step := WorkerGoesOn(st, v);
    }
  }

  lemma PendingTurn(st: State, j: JobId)
    requires JobInv(st, j) && st.jobs[j].chunks != []
    ensures st.turn[j].Waiting? || st.turn[j].Handed? || st.turn[j].Held?
    ensures st.turn[j].Held? ==> st.turn[j].w < |st.workers| && AtWork(st.workers[st.turn[j].w])
    ensures st.turn[j].Waiting? ==> st.queue != []
    ensures st.turn[j].Handed? ==> st.mems[j.m].feeder.Flushing? || st.mems[j.m].feeder.Closing?
  {
    hide Flatten, Reached;
  }

  /** Budget in use means bytes in flight, and bytes in flight mean someone to move them. */
  lemma ChargeGoesOn(st: State, w: nat) returns (step: Step)
    requires Inv(st) && Balanced(st) && st.budget > 0 && w < |st.workers| && !st.workers[w].Reading?
    ensures CanGo(st, step)
  {
    hide Inv, CanGo, SumWorkers, SumMembers, SumJobs;
    if SumWorkers(st.workers, |st.workers|, WorkerCharge) > 0 {
      var v := SomeWorkerWeighs(st.workers, |st.workers|, WorkerCharge);
      step := WorkerGoesOn(st, v);
    } else {
      var m := SomeMemberWeighs(st.jobs, st.mems, |st.mems|, CHARGE);
      if MemberCharge(st.mems[m]) > 0 {
        step := FeederGoesOn(st, m);
      } else {
        var s := SomeJobWeighs(st.jobs, m, st.mems[m].njobs, JobCharge);
        assert Flatten([]) == [];
        step := PendingGoesOn(st, JobId(m, s), w);
      }
    }
  }

  /** With two threads or more, which is what every caller asks for, a flush held up by the budget
      always leaves someone else able to go on: feeders and readers never hold the pool still. */
  lemma BlockedFlushHasWork(threads: nat, steps: seq<Step>, m: nat) returns (step: Step)
    requires threads >= 2 && Runs(Start(threads), steps)
    requires var st := After(Start(threads), steps);
      m < |st.mems| && st.mems[m].feeder.Ready? && st.mems[m].buf != [] && !Enabled(st, BeginFlush(m))
    ensures Internal(step) && Enabled(After(Start(threads), steps), step)
  {
    hide Inv, Runs, After, Balanced;
    var st := After(Start(threads), steps);
    FromStart(threads, steps);
    var w := SomeoneNotReading(st, threads);
    step := ChargeGoesOn(st, w);
  }

  /** The reader cap keeps a hasher free exactly when there are two threads or more: a single thread
      may be taken up reading, with nobody left to release the budget it waits on. */
  lemma CapLeavesAHasher(threads: nat)
    ensures ReaderCap(threads) < threads <==> threads >= 2
  {
  }

  lemma SomeoneNotReading(st: State, threads: nat) returns (w: nat)
    requires Capped(st, threads) && threads >= 2
    ensures w < |st.workers| && !st.workers[w].Reading?
  {
    AllReading(st.workers, threads);
    CapLeavesAHasher(threads);
    w :| 0 <= w < |st.workers| && !st.workers[w].Reading?;
  }

  /** With one thread, reading while its flush is held up, nothing in the pool can go on. */
  lemma OneReaderCanStick(st: State, m: nat, step: Step)
    requires Inv(st) && st.workers == [Reading(m)] && m < |st.mems| && !st.mems[m].feeder.Shut?
    requires forall i :: 0 <= i < |st.mems| ==> st.mems[i].feeder.Ready? || st.mems[i].feeder.Shut?
    requires forall i :: 0 <= i < |st.mems| ==> !st.mems[i].meta.MetaSeals?
    requires forall i :: 0 <= i < |st.mems| && st.mems[i].feeder.Ready? && st.mems[i].buf != [] ==> !Enabled(st, BeginFlush(i))
    ensures Enabled(st, step) ==> !Internal(step) && !step.EndRead? && !step.BeginFlush?
  {
    hide Inv, Readers;
  }
}
