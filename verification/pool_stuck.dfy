/** A pool of one thread can be brought to a stand: the thread takes up reading a member too big for the
    budget, and waits for bytes to be released that only it could hash. */
module PoolStuck {
  import opened Wrappers
  import opened ByteStrings
  import opened Pool
  import opened PoolSteps
  import opened PoolClaims
  import opened PoolDrain

  lemma {:induction false} RunsJoin(st: State, a: seq<Step>, b: seq<Step>)
    requires Runs(st, a) && Runs(After(st, a), b)
    ensures Runs(st, a + b) && After(st, a + b) == After(After(st, a), b)
    decreases |a|
  {
    hide Enabled, Do;
    if a == [] {
      assert a + b == b;
    } else {
      assert (a + b)[0] == a[0] && (a + b)[1..] == a[1..] + b;
      RunsJoin(Do(st, a[0]), a[1..], b);
    }
  }

  lemma OneStep(st: State, step: Step)
    requires Enabled(st, step)
    ensures Runs(st, [step]) && After(st, [step]) == Do(st, step)
  {
    hide Enabled, Do;
    assert [step][1..] == [];
    assert Runs(Do(st, step), []);
  }

  // ------------------------------------------------------------- the states on the way

  /** A job with `n` chunks pending that no worker has taken up. */
  function Waiting(n: nat): Job {
    Job(seq(n, _ => Zeros(CHUNK)), Some([]), false, n > 0)
  }

  /** The member with `k` chunks flushed: between pushes, or with `feeder` at another. */
  function Fed(k: nat, buf: Bytes, feeder: Feeder, more: Bytes): Member {
    Member(SCHEMES, Zeros(k * CHUNK) + more, Zeros(k * CHUNK), buf, feeder, Open, map[], {}, SCHEMES + 1, None)
  }

  /** The first `t` jobs hold one chunk more than the others' `k`. */
  function Jobs(k: nat, t: nat): map<JobId, Job> {
    map s | 0 <= s < SCHEMES :: JobId(0, s) := Waiting(if s < t then k + 1 else k)
  }

  function Turns(k: nat, t: nat): map<JobId, Turn> {
    map s | 0 <= s < SCHEMES :: JobId(0, s) := if s < t || k > 0 then Turn.Waiting else Nobody
  }

  function Queue(n: nat): seq<JobId> {
    seq(n, (s: nat) => JobId(0, s))
  }

  /** The pool while its one thread reads: `k` chunks with every job, one more with the first `t`. */
  function Reading1(k: nat, t: nat, mem: Member, charged: nat): State {
    State([mem], Jobs(k, t), Turns(k, t), Queue(if k > 0 then SCHEMES else t), [Reading(0)], charged * SCHEMES * CHUNK, false)
  }

  function Between(k: nat): State {
    Reading1(k, 0, Fed(k, [], Ready, []), k)
  }

  function Midway(k: nat, t: nat): State {
    Reading1(k, t, Fed(k, [], Flushing(Zeros(CHUNK), t, false), Zeros(CHUNK)), k + 1)
  }

  lemma ZerosJoin(a: nat, b: nat)
    ensures Zeros(a) + Zeros(b) == Zeros(a + b)
  {
  }

  lemma Begins() returns (steps: seq<Step>)
    ensures Runs(Start(1), steps) && After(Start(1), steps) == Between(0)
  {
    var start := Start(1);
    assert start.workers == [Free];
    OneStep(start, NewMember(SCHEMES));
    var one := Do(start, NewMember(SCHEMES));
    assert Readers([Free], 1) == 0 by { assert Readers([Free], 0) == 0; }
    assert Enabled(one, TakeRead(0, 0));
    OneStep(one, TakeRead(0, 0));
    RunsJoin(start, [NewMember(SCHEMES)], [TakeRead(0, 0)]);
    steps := [NewMember(SCHEMES)] + [TakeRead(0, 0)];
    BegunIs(start, one);
  }

  lemma NoneWaiting()
    ensures Waiting(0) == Job([], Some([]), false, false)
  {
  }

  lemma FreshAre()
    ensures NewJobs(0, SCHEMES) == Jobs(0, 0) && NewTurns(0, SCHEMES) == Turns(0, 0)
  {
    hide Waiting;
    NoneWaiting();
  }

  lemma BegunIs(start: State, one: State)
    requires start == Start(1) && start.workers == [Free] && one == Do(start, NewMember(SCHEMES)) && Enabled(one, TakeRead(0, 0))
    ensures Do(one, TakeRead(0, 0)) == Between(0)
  {
    hide Readers, Waiting, NewJobs, NewTurns, Jobs, Turns;
    FreshAre();
    var two, want := Do(one, TakeRead(0, 0)), Between(0);
    assert Zeros(0) == [] && Zeros(0) + [] == [];
    assert start.jobs + NewJobs(0, SCHEMES) == NewJobs(0, SCHEMES);
    assert start.turn + NewTurns(0, SCHEMES) == NewTurns(0, SCHEMES);
    assert two.mems == want.mems;
    assert two.queue == want.queue;
  }

  /** A full chunk pushed and its flush begun, the budget letting it through. */
  lemma ChunkBegins(k: nat) returns (steps: seq<Step>)
    requires (k + 1) * SCHEMES * CHUNK <= BUDGET
    ensures Runs(Between(k), steps) && After(Between(k), steps) == Midway(k, 0)
  {
    var push, flush := Push(0, Zeros(CHUNK)), BeginFlush(0);
    var st := Between(k);
    OneStep(st, push);
    var next := Do(st, push);
    assert [] + Zeros(CHUNK) == Zeros(CHUNK);
    assert Zeros(k * CHUNK) + [] + Zeros(CHUNK) == Zeros(k * CHUNK) + Zeros(CHUNK);
    assert next == Reading1(k, 0, Fed(k, Zeros(CHUNK), Ready, Zeros(CHUNK)), k);
    assert Enabled(next, flush);
    OneStep(next, flush);
    RunsJoin(st, [push], [flush]);
    steps := [push] + [flush];
  }

  /** The chunk handed to job `t`, which was queued before or is put in the queue now. */
  lemma ChunkHanded(k: nat, t: nat) returns (steps: seq<Step>)
    requires t < SCHEMES
    ensures Runs(Midway(k, t), steps) && After(Midway(k, t), steps) == Midway(k, t + 1)
  {
    var st := Midway(k, t);
    var j := JobId(0, t);
    assert j in st.jobs && j in st.turn && st.jobs[j] == Waiting(k);
    assert Enabled(st, FlushJob(0));
    OneStep(st, FlushJob(0));
    MoreWaiting(k);
    if k > 0 {
      HandedQueued(k, t);
      steps := [FlushJob(0)];
    } else {
      var next := Do(st, FlushJob(0));
      HandedFirst(t);
      OneStep(next, FlushEnqueue(0));
      RunsJoin(st, [FlushJob(0)], [FlushEnqueue(0)]);
      steps := [FlushJob(0)] + [FlushEnqueue(0)];
    }
  }

  lemma MoreWaiting(k: nat)
    ensures Waiting(k).chunks + [Zeros(CHUNK)] == Waiting(k + 1).chunks
  {
  }

  lemma JobsStep(k: nat, t: nat)
    requires t < SCHEMES
    ensures Jobs(k, t)[JobId(0, t) := Waiting(k + 1)] == Jobs(k, t + 1)
  {
    hide Waiting;
    var a, b := Jobs(k, t)[JobId(0, t) := Waiting(k + 1)], Jobs(k, t + 1);
    forall j
      ensures j in a <==> j in b
      ensures j in a ==> a[j] == b[j]
    {
      assert j == JobId(j.m, j.s);
    }
  }

  lemma TurnsStep(k: nat, t: nat)
    requires t < SCHEMES
    ensures Turns(k, t)[JobId(0, t) := Turn.Waiting] == Turns(k, t + 1)
  {
    var a, b := Turns(k, t)[JobId(0, t) := Turn.Waiting], Turns(k, t + 1);
    forall j
      ensures j in a <==> j in b
      ensures j in a ==> a[j] == b[j]
    {
      assert j == JobId(j.m, j.s);
    }
  }

  lemma QueueStep(t: nat)
    ensures Queue(t) + [JobId(0, t)] == Queue(t + 1)
  {
  }

  lemma HandedQueued(k: nat, t: nat)
    requires k > 0 && t < SCHEMES && Enabled(Midway(k, t), FlushJob(0))
    ensures Do(Midway(k, t), FlushJob(0)) == Midway(k, t + 1)
  {
    MoreWaiting(k);
    JobsStep(k, t);
    TurnsStep(k, t);
    var st := Midway(k, t);
    assert st.jobs[JobId(0, t)] == Waiting(k) && st.turn[JobId(0, t)] == Turn.Waiting;
  }

  /** The chunk in job `t`, marked queued and not yet put in the queue. */
  function Marked(t: nat): State {
    Midway(0, t).(mems := [Fed(0, [], Flushing(Zeros(CHUNK), t, true), Zeros(CHUNK))],
                  jobs := Jobs(0, t + 1), turn := Turns(0, t)[JobId(0, t) := Handed])
  }

  lemma HandedMarked(t: nat)
    requires t < SCHEMES && Enabled(Midway(0, t), FlushJob(0))
    ensures Do(Midway(0, t), FlushJob(0)) == Marked(t)
  {
    hide Queue, Zeros, Turns;
    MoreWaiting(0);
    JobsStep(0, t);
    assert Midway(0, t).jobs[JobId(0, t)] == Waiting(0);
  }

  lemma MarkedEnqueued(t: nat)
    requires t < SCHEMES
    ensures Enabled(Marked(t), FlushEnqueue(0)) && Do(Marked(t), FlushEnqueue(0)) == Midway(0, t + 1)
  {
    hide Zeros, Jobs, Queue, Turns;
    TurnsStep(0, t);
    QueueStep(t);
    assert Turns(0, t)[JobId(0, t) := Handed][JobId(0, t) := Turn.Waiting] == Turns(0, t)[JobId(0, t) := Turn.Waiting];
  }

  lemma HandedFirst(t: nat)
    requires t < SCHEMES && Enabled(Midway(0, t), FlushJob(0))
    ensures var next := Do(Midway(0, t), FlushJob(0)); Enabled(next, FlushEnqueue(0)) && Do(next, FlushEnqueue(0)) == Midway(0, t + 1)
  {
    hide Do, Enabled, Marked;
    HandedMarked(t);
    MarkedEnqueued(t);
  }

  lemma {:induction false} ChunkHandedOn(k: nat, t: nat) returns (steps: seq<Step>)
    requires t <= SCHEMES
    ensures Runs(Midway(k, t), steps) && After(Midway(k, t), steps) == Midway(k, SCHEMES)
    decreases SCHEMES - t
  {
    hide Enabled, Do;
    if t == SCHEMES {
      steps := [];
    } else {
      var one := ChunkHanded(k, t);
      var rest := ChunkHandedOn(k, t + 1);
      RunsJoin(Midway(k, t), one, rest);
      steps := one + rest;
    }
  }

  lemma ChunkEnds(k: nat)
    ensures Enabled(Midway(k, SCHEMES), FlushDone(0)) && Do(Midway(k, SCHEMES), FlushDone(0)) == Between(k + 1)
  {
    var st := Midway(k, SCHEMES);
    ZerosJoin(k * CHUNK, CHUNK);
    assert Jobs(k, SCHEMES) == Jobs(k + 1, 0);
    assert Turns(k, SCHEMES) == Turns(k + 1, 0);
    assert Zeros((k + 1) * CHUNK) + [] == Zeros((k + 1) * CHUNK);
  }

  lemma Round(k: nat) returns (steps: seq<Step>)
    requires (k + 1) * SCHEMES * CHUNK <= BUDGET
    ensures Runs(Between(k), steps) && After(Between(k), steps) == Between(k + 1)
  {
    hide Enabled, Do;
    var a := ChunkBegins(k);
    var b := ChunkHandedOn(k, 0);
    RunsJoin(Between(k), a, b);
    ChunkEnds(k);
    OneStep(Midway(k, SCHEMES), FlushDone(0));
    RunsJoin(Between(k), a + b, [FlushDone(0)]);
    steps := a + b + [FlushDone(0)];
  }

  lemma {:induction false} Rounds(k: nat) returns (steps: seq<Step>)
    requires k * SCHEMES * CHUNK <= BUDGET
    ensures Runs(Start(1), steps) && After(Start(1), steps) == Between(k)
  {
    hide Enabled, Do;
    if k == 0 {
      steps := Begins();
    } else {
      var before := Rounds(k - 1);
      var last := Round(k - 1);
      RunsJoin(Start(1), before, last);
      steps := before + last;
    }
  }

  /** 409 chunks under five schemes fill the budget; one more is pushed and cannot be flushed. From there
      nothing the pool can do on its own is left. */
  lemma OneThreadSticks() returns (steps: seq<Step>)
    ensures Runs(Start(1), steps)
    ensures var st := After(Start(1), steps);
      && |st.mems| == 1 && st.mems[0].feeder.Ready? && st.mems[0].buf != [] && st.mems[0].sealed.None?
      && forall step :: Enabled(st, step) ==> !Internal(step) && !step.EndRead? && !step.BeginFlush?
  {
    hide Do;
    var before := Rounds(409);
    var push := Push(0, Zeros(CHUNK));
    assert Enabled(Between(409), push);
    OneStep(Between(409), push);
    RunsJoin(Start(1), before, [push]);
    steps := before + [push];
    StartHolds(1);
    RunKeeps(Start(1), steps);
    LastPush();
    var st := After(Start(1), steps);
    forall step | Enabled(st, step)
      ensures !Internal(step) && !step.EndRead? && !step.BeginFlush?
    {
      OneReaderCanStick(st, 0, step);
    }
  }

  lemma LastPush()
    ensures Enabled(Between(409), Push(0, Zeros(CHUNK)))
    ensures Do(Between(409), Push(0, Zeros(CHUNK))) == Reading1(409, 0, Fed(409, Zeros(CHUNK), Ready, Zeros(CHUNK)), 409)
  {
    assert [] + Zeros(CHUNK) == Zeros(CHUNK);
    assert Zeros(409 * CHUNK) + [] + Zeros(CHUNK) == Zeros(409 * CHUNK) + Zeros(CHUNK);
  }
}
