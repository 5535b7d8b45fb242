/** Every step of the minting pool keeps its invariant. */
module PoolSteps {
  import opened Wrappers
  import opened ByteStrings
  import opened Pool

  // ------------------------------------------------------------- frames

  /** What the invariant of job `j` looks at is the same in both states. */
  predicate SameJob(a: State, b: State, j: JobId) {
    && Known(a, j) && Known(b, j) && a.jobs[j] == b.jobs[j] && a.turn[j] == b.turn[j]
    && (j in a.queue <==> j in b.queue)
    && SameView(a.mems[j.m], b.mems[j.m], j.s)
    && (a.turn[j].Held? || a.turn[j].Last? ==>
          a.turn[j].w < |a.workers| && a.turn[j].w < |b.workers| && a.workers[a.turn[j].w] == b.workers[a.turn[j].w])
  }

  /** Scheme `s` sees the same of both members. */
  predicate SameView(a: Member, b: Member, s: nat) {
    && Reached(a, s) == Reached(b, s) && (CloseReached(a, s) <==> CloseReached(b, s)) && (HandingOver(a, s) <==> HandingOver(b, s))
    && (s in a.finished <==> s in b.finished) && (s in a.parts <==> s in b.parts) && (s in a.parts ==> a.parts[s] == b.parts[s])
  }

  lemma JobFrame(a: State, b: State, j: JobId)
    requires JobInv(a, j) && SameJob(a, b, j)
    ensures JobInv(b, j)
  {
    hide Reached, CloseReached, HandingOver;
  }

  /** Worker `w` is untouched by a step that changes at most the job, member and worker named. */
  lemma WorkerFrame(a: State, b: State, w: nat)
    requires w < |a.workers| == |b.workers| && WorkerInv(a, w) && a.workers[w] == b.workers[w]
    requires AtWork(a.workers[w]) ==>
               Known(b, a.workers[w].j) && b.turn[a.workers[w].j] == a.turn[a.workers[w].j]
    requires a.workers[w].Reading? ==> a.workers[w].m < |b.mems|
    requires a.workers[w].Sealing? ==>
               && a.workers[w].m < |b.mems| && b.mems[a.workers[w].m].remaining == 0 && b.mems[a.workers[w].m].sealed.None?
               && b.mems[a.workers[w].m].meta.Counted?
               && forall v :: 0 <= v < |b.workers| && b.workers[v] == a.workers[w] ==> a.workers[v] == a.workers[w]
    ensures WorkerInv(b, w)
  {
  }

  /** Only member `m` differs, and nothing a job, a worker or a seal looks at in it does. */
  lemma MemberOnly(a: State, b: State, m: nat)
    requires Inv(a) && m < |a.mems| == |b.mems| && b == SetMem(a, m, b.mems[m]).(budget := b.budget, closed := b.closed)
    requires b.mems[m].njobs == a.mems[m].njobs && MemInv(b.mems[m])
    requires forall s :: 0 <= s < a.mems[m].njobs ==> SameView(a.mems[m], b.mems[m], s)
    requires b.mems[m].remaining == a.mems[m].remaining && b.mems[m].sealed == a.mems[m].sealed && b.mems[m].meta == a.mems[m].meta
    ensures Inv(b)
  {
    hide MemInv, SameView, Hashes;
    forall j | j in b.jobs
      ensures JobInv(b, j)
    {
      TurnsAreHeld(a, j);
      SameViewItself(a.mems[j.m], j.s);
      JobFrame(a, b, j);
    }
    forall w | 0 <= w < |b.workers|
      ensures WorkerInv(b, w)
    {
      WorkerFrame(a, b, w);
    }
    SealsComeStill(a, b);
  }

  lemma SameViewItself(mem: Member, s: nat)
    ensures SameView(mem, mem, s)
  {
  }

  /** A held turn names a worker that is there. */
  lemma TurnsAreHeld(st: State, j: JobId)
    requires j in st.jobs && JobInv(st, j)
    ensures st.turn[j].Held? ==> st.turn[j].w < |st.workers| && AtJob(st.workers[st.turn[j].w], j)
    ensures st.turn[j].Last? ==> st.turn[j].w < |st.workers| && AtEnd(st.workers[st.turn[j].w], j)
  {
    hide Reached;
  }

  /** Where neither workers nor meta halves change, whoever was to seal still is. */
  lemma SealsComeStill(a: State, b: State)
    requires Inv(a) && |a.mems| == |b.mems| && a.workers == b.workers
    requires forall m :: 0 <= m < |a.mems| ==>
               a.mems[m].remaining == b.mems[m].remaining && a.mems[m].sealed == b.mems[m].sealed && a.mems[m].meta == b.mems[m].meta
    ensures forall m :: 0 <= m < |b.mems| && b.mems[m].remaining == 0 && b.mems[m].sealed.None? ==> SealComing(b, m)
  {
    forall m | 0 <= m < |b.mems| && b.mems[m].remaining == 0 && b.mems[m].sealed.None?
      ensures SealComing(b, m)
    {
      assert SealComing(a, m);
    }
  }

  // ------------------------------------------------------------- what the invariant says of a member

  lemma MemberIs(st: State, m: nat)
    requires Inv(st) && m < |st.mems|
    ensures MemInv(st.mems[m])
    ensures forall s :: 0 <= s < st.mems[m].njobs ==> JobId(m, s) in st.jobs && JobInv(st, JobId(m, s))
  {
    forall s | 0 <= s < st.mems[m].njobs
      ensures JobId(m, s) in st.jobs && JobInv(st, JobId(m, s))
    {
      assert JobId(m, s).m < |st.mems|;
    }
  }

  /** Numbers below `n`: at most `n` of them, and `n` only if it is all of them. */
  lemma {:induction false} BoundedSet(t: set<nat>, n: nat)
    requires forall s :: s in t ==> s < n
    ensures |t| <= n && (|t| == n ==> forall s :: 0 <= s < n ==> s in t)
  {
    if n == 0 {
      assert t == {};
    } else {
      BoundedSet(t - {n - 1}, n - 1);
      assert n - 1 in t ==> t == (t - {n - 1}) + {n - 1};
      assert n - 1 !in t ==> t == t - {n - 1};
    }
  }

  /** A finished job was closed, so a member still being fed has none, and is not sealed. */
  lemma NotSealedWhileFeeding(st: State, m: nat)
    requires Inv(st) && m < |st.mems| && (st.mems[m].feeder.Ready? || st.mems[m].feeder.Flushing?)
    ensures st.mems[m].finished == {} && st.mems[m].remaining > 0 && st.mems[m].sealed.None?
  {
    hide Hashes;
    var mem := st.mems[m];
    forall s | s in mem.finished
      ensures false
    {
      OverMeansClosed(st, JobId(m, s));
    }
  }

  lemma OverMeansClosed(st: State, j: JobId)
    requires Inv(st) && j.m < |st.mems| && j.s in st.mems[j.m].finished
    ensures j in st.jobs && st.turn[j].Over? && CloseReached(st.mems[j.m], j.s) && j.s in st.mems[j.m].parts
    ensures st.mems[j.m].parts[j.s] == Reached(st.mems[j.m], j.s)
  {
    assert MemInv(st.mems[j.m]);
    assert JobInv(st, j);
  }

  /** With every contributor in, the parts are the digests of the whole stream. */
  lemma PartsAreWhole(st: State, m: nat)
    requires Inv(st) && m < |st.mems| && st.mems[m].remaining == 0 && !st.mems[m].meta.Open?
    ensures WholeSeal(st.mems[m], Sealed(st.mems[m].parts, |st.mems[m].pushed|))
  {
    hide Hashes;
    var mem := st.mems[m];
    BoundedSet(mem.finished, mem.njobs);
    OverMeansClosed(st, JobId(m, 0));
    forall s | 0 <= s < mem.njobs
      ensures s in mem.parts && mem.parts[s] == mem.pushed
    {
      OverMeansClosed(st, JobId(m, s));
      AllFlushed(mem, s);
    }
  }

  lemma AllFlushed(mem: Member, s: nat)
    requires MemInv(mem) && CloseReached(mem, s)
    ensures Reached(mem, s) == mem.pushed
  {
    assert mem.flushed + [] + [] == mem.flushed;
  }

  // ------------------------------------------------------------- feeder steps that touch no job

  lemma PushKeeps(st: State, m: nat, bytes: Bytes)
    requires Inv(st) && Enabled(st, Push(m, bytes))
    ensures Inv(Do(st, Push(m, bytes)))
  {
    hide Inv;
    MemberIs(st, m);
    NotSealedWhileFeeding(st, m);
    PushMem(st.mems[m], bytes);
    MemberOnly(st, Do(st, Push(m, bytes)), m);
  }

  lemma PushMem(mem: Member, bytes: Bytes)
    requires MemInv(mem) && mem.feeder.Ready? && mem.sealed.None?
    ensures MemInv(mem.(pushed := mem.pushed + bytes, buf := mem.buf + bytes))
    ensures forall s :: 0 <= s < mem.njobs ==> SameView(mem, mem.(pushed := mem.pushed + bytes, buf := mem.buf + bytes), s)
  {
    assert (mem.flushed + [] + mem.buf) + bytes == mem.flushed + [] + (mem.buf + bytes);
  }

  lemma BeginFlushKeeps(st: State, m: nat)
    requires Inv(st) && Enabled(st, BeginFlush(m))
    ensures Inv(Do(st, BeginFlush(m)))
  {
    hide Inv;
    MemberIs(st, m);
    NotSealedWhileFeeding(st, m);
    var mem := st.mems[m];
    assert mem.flushed + mem.buf + [] == mem.flushed + [] + mem.buf;
    MemberOnly(st, Do(st, BeginFlush(m)), m);
  }

  lemma FlushDoneKeeps(st: State, m: nat)
    requires Inv(st) && Enabled(st, FlushDone(m))
    ensures Inv(Do(st, FlushDone(m)))
  {
    hide Inv;
    MemberIs(st, m);
    NotSealedWhileFeeding(st, m);
    var mem := st.mems[m];
    assert (mem.flushed + mem.feeder.chunk) + [] + mem.buf == mem.flushed + mem.feeder.chunk + mem.buf;
    MemberOnly(st, Do(st, FlushDone(m)), m);
  }

  lemma BeginCloseKeeps(st: State, m: nat)
    requires Inv(st) && Enabled(st, BeginClose(m))
    ensures Inv(Do(st, BeginClose(m)))
  {
    hide Inv;
    MemberIs(st, m);
    NotSealedWhileFeeding(st, m);
    MemberOnly(st, Do(st, BeginClose(m)), m);
  }

  lemma CloseDoneKeeps(st: State, m: nat)
    requires Inv(st) && Enabled(st, CloseDone(m))
    ensures Inv(Do(st, CloseDone(m)))
  {
    hide Inv;
    MemberIs(st, m);
    MemberOnly(st, Do(st, CloseDone(m)), m);
  }

  // ------------------------------------------------------------- feeder steps at a job

  /** Job `j` of member `m` changes with its feeder's place; everything else stands. */
  predicate JobStep(a: State, b: State, j: JobId) {
    && Known(a, j) && |b.mems| == |a.mems| && b.workers == a.workers && j in b.jobs && j in b.turn
    && b.jobs == a.jobs[j := b.jobs[j]] && b.turn == a.turn[j := b.turn[j]]
    && b.mems == a.mems[j.m := b.mems[j.m]]
    && (b.queue == a.queue || b.queue == a.queue + [j])
    && b.mems[j.m] == a.mems[j.m].(feeder := b.mems[j.m].feeder)
    && forall s :: 0 <= s < a.mems[j.m].njobs && s != j.s ==> SameView(a.mems[j.m], b.mems[j.m], s)
  }

  lemma OtherJobsStand(a: State, b: State, j: JobId)
    requires Inv(a) && JobStep(a, b, j)
    ensures forall i :: i in a.jobs && i != j ==> JobInv(b, i)
  {
    forall i | i in a.jobs && i != j
      ensures JobInv(b, i)
    {
      OtherJobStands(a, b, j, i);
    }
  }

  lemma OtherJobStands(a: State, b: State, j: JobId, i: JobId)
    requires i in a.jobs && i != j && JobInv(a, i) && JobStep(a, b, j)
    ensures JobInv(b, i)
  {
    hide SameView, JobInv;
    TurnsAreHeld(a, i);
    assert Known(a, i) by { KnownJob(a, i); }
    SameViewItself(a.mems[i.m], i.s);
    JobFrame(a, b, i);
  }

  lemma KnownJob(a: State, i: JobId)
    requires JobInv(a, i)
    ensures Known(a, i)
  {
  }

  lemma WorkersStand(a: State, b: State, j: JobId)
    requires Inv(a) && JobStep(a, b, j) && (a.turn[j] == b.turn[j] || (!a.turn[j].Held? && !a.turn[j].Last?))
    ensures forall w :: 0 <= w < |b.workers| ==> WorkerInv(b, w)
  {
    hide MemInv, SameView, JobInv;
    forall w | 0 <= w < |b.workers|
      ensures WorkerInv(b, w)
    {
      assert WorkerInv(a, w);
      WorkerFrame(a, b, w);
    }
  }

  lemma JobStepKeeps(a: State, b: State, j: JobId)
    requires Inv(a) && j in a.jobs && JobStep(a, b, j) && JobInv(b, j) && MemInv(b.mems[j.m])
    requires b.queue != a.queue ==> j !in a.queue
    requires a.turn[j] == b.turn[j] || (!a.turn[j].Held? && !a.turn[j].Last?)
    ensures Inv(b)
  {
    hide MemInv, SameView, JobInv, WorkerInv;
    OtherJobsStand(a, b, j);
    WorkersStand(a, b, j);
    SealsComeStill(a, b);
  }

  lemma FlattenOne(chunks: seq<Bytes>, c: Bytes)
    ensures Flatten(chunks + [c]) == Flatten(chunks) + c
  {
    FlattenConcat(chunks, [c]);
    assert [c][1..] == [] && c + [] == c;
  }

  lemma FlushJobKeeps(st: State, m: nat)
    requires Inv(st) && Enabled(st, FlushJob(m))
    ensures Inv(Do(st, FlushJob(m)))
  {
    hide Inv;
    MemberIs(st, m);
    var mem, j := st.mems[m], JobId(m, st.mems[m].feeder.k);
    var next := Do(st, FlushJob(m));
    FlattenOne(st.jobs[j].chunks, mem.feeder.chunk);
    ChunkReaches(st, next, j, mem.feeder.chunk);
    JobStepKeeps(st, next, j);
  }

  /** A chunk handed to a job is pending there, after whatever was. */
  lemma ChunkReaches(st: State, next: State, j: JobId, c: Bytes)
    requires JobInv(st, j) && Enabled(st, FlushJob(j.m)) && next == Do(st, FlushJob(j.m))
    requires j.s == st.mems[j.m].feeder.k && c == st.mems[j.m].feeder.chunk
    requires Flatten(st.jobs[j].chunks + [c]) == Flatten(st.jobs[j].chunks) + c
    ensures JobInv(next, j) && (st.turn[j] == next.turn[j] || (!st.turn[j].Held? && !st.turn[j].Last?))
  {
    hide Flatten;
    var job, more := st.jobs[j], next.jobs[j];
    assert Reached(next.mems[j.m], j.s) == Reached(st.mems[j.m], j.s) + c;
    if st.turn[j].Nobody? {
      assert job.chunks + [c] == [c];
      EmptyFlatten(c);
    } else if st.turn[j].Held? {
      HeldAppends(st, next, j, c);
    } else {
      Reassoc(job.hasher.value, Flatten(job.chunks), c);
    }
  }

  lemma EmptyFlatten(c: Bytes)
    ensures Flatten([c]) == c && Flatten([]) == []
  {
    assert [c][1..] == [] && c + [] == c;
  }

  lemma Reassoc(a: Bytes, b: Bytes, c: Bytes)
    ensures a + (b + c) == (a + b) + c
  {
  }

  lemma HeldAppends(st: State, next: State, j: JobId, c: Bytes)
    requires Known(st, j) && Known(next, j) && Hashes(st, j) && st.turn[j].Held? && next.turn[j] == st.turn[j] && next.workers == st.workers
    requires next.jobs[j].hasher == st.jobs[j].hasher && Flatten(next.jobs[j].chunks) == Flatten(st.jobs[j].chunks) + c
    requires Reached(next.mems[j.m], j.s) == Reached(st.mems[j.m], j.s) + c
    ensures Hashes(next, j)
  {
    hide Flatten, Reached;
    var f := Flatten(st.jobs[j].chunks);
    match st.workers[st.turn[j].w] {
      case Enter(_) => Reassoc(st.jobs[j].hasher.value, f, c);
      case Hashing(_, h, todo, _) => Reassoc(h + Flatten(todo), f, c);
      case Holding(_, h) => Reassoc(h, f, c);
      case _ =>
    }
  }

  lemma FlushEnqueueKeeps(st: State, m: nat)
    requires Inv(st) && Enabled(st, FlushEnqueue(m))
    ensures Inv(Do(st, FlushEnqueue(m)))
  {
    hide Inv;
    MemberIs(st, m);
    var j := JobId(m, st.mems[m].feeder.k);
    JobStepKeeps(st, Do(st, FlushEnqueue(m)), j);
  }

  lemma CloseJobKeeps(st: State, m: nat)
    requires Inv(st) && Enabled(st, CloseJob(m))
    ensures Inv(Do(st, CloseJob(m)))
  {
    hide Inv, Hashes;
    MemberIs(st, m);
    var j := JobId(m, st.mems[m].feeder.k);
    CloseReaches(st, Do(st, CloseJob(m)), j);
    JobStepKeeps(st, Do(st, CloseJob(m)), j);
  }

  /** Closing a job moves none of its bytes. */
  lemma CloseReaches(st: State, next: State, j: JobId)
    requires JobInv(st, j) && Enabled(st, CloseJob(j.m)) && next == Do(st, CloseJob(j.m)) && j.s == st.mems[j.m].feeder.k
    ensures JobInv(next, j) && (st.turn[j] == next.turn[j] || (!st.turn[j].Held? && !st.turn[j].Last?))
  {
    hide Flatten;
    if st.turn[j].Nobody? {
      EmptyFlatten([]);
      assert st.jobs[j].hasher.value + [] == st.jobs[j].hasher.value;
    }
  }

  lemma CloseEnqueueKeeps(st: State, m: nat)
    requires Inv(st) && Enabled(st, CloseEnqueue(m))
    ensures Inv(Do(st, CloseEnqueue(m)))
  {
    hide Inv;
    MemberIs(st, m);
    var j := JobId(m, st.mems[m].feeder.k);
    JobStepKeeps(st, Do(st, CloseEnqueue(m)), j);
  }

  // ------------------------------------------------------------- a new member

  lemma NewMemberDomain(st: State, njobs: nat)
    requires Inv(st) && njobs > 0
    ensures forall j :: j in AddMember(st, njobs).jobs <==> j in st.jobs || (j.m == |st.mems| && j.s < njobs)
    ensures forall j :: j in st.jobs ==> j.m < |st.mems|
    ensures forall j :: j in st.queue ==> j in st.jobs
  {
    hide JobInv, WorkerInv, MemInv;
    forall j: JobId | j.m == |st.mems| && j.s < njobs
      ensures j in NewJobs(|st.mems|, njobs)
    {
      assert j == JobId(|st.mems|, j.s);
    }
  }

  lemma OldJobStands(st: State, njobs: nat, j: JobId)
    requires njobs > 0 && j in st.jobs && JobInv(st, j)
    ensures JobInv(AddMember(st, njobs), j)
  {
    hide SameView, JobInv;
    TurnsAreHeld(st, j);
    KnownJob(st, j);
    SameViewItself(st.mems[j.m], j.s);
    JobFrame(st, AddMember(st, njobs), j);
  }

  lemma NewJobHolds(st: State, njobs: nat, j: JobId)
    requires njobs > 0 && j.m == |st.mems| && j.s < njobs && j !in st.queue
    ensures JobInv(AddMember(st, njobs), j)
  {
    assert j == JobId(|st.mems|, j.s);
    assert j in NewJobs(|st.mems|, njobs) && j in NewTurns(|st.mems|, njobs);
  }

  lemma OldWorkerStands(st: State, njobs: nat, w: nat)
    requires njobs > 0 && w < |st.workers| && WorkerInv(st, w)
    requires forall j :: j in st.jobs ==> j.m < |st.mems|
    ensures WorkerInv(AddMember(st, njobs), w)
  {
    WorkerFrame(st, AddMember(st, njobs), w);
  }

  lemma SealsComeBesideNew(st: State, njobs: nat)
    requires Inv(st) && njobs > 0
    ensures var next := AddMember(st, njobs);
      forall m :: 0 <= m < |next.mems| && next.mems[m].remaining == 0 && next.mems[m].sealed.None? ==> SealComing(next, m)
  {
    hide JobInv, WorkerInv, MemInv;
    var next := AddMember(st, njobs);
    forall m | 0 <= m < |next.mems| && next.mems[m].remaining == 0 && next.mems[m].sealed.None?
      ensures SealComing(next, m)
    {
      assert SealComing(st, m);
    }
  }

  lemma JobsBesideNew(st: State, njobs: nat)
    requires Inv(st) && njobs > 0
    ensures forall j :: j in AddMember(st, njobs).jobs ==> JobInv(AddMember(st, njobs), j)
    ensures QueueOf(AddMember(st, njobs))
  {
    hide JobInv, WorkerInv, MemInv;
    NewMemberDomain(st, njobs);
    forall j | j in AddMember(st, njobs).jobs
      ensures JobInv(AddMember(st, njobs), j)
    {
      if j in st.jobs {
        OldJobStands(st, njobs, j);
      } else {
        NewJobHolds(st, njobs, j);
      }
    }
  }

  lemma WorkersBesideNew(st: State, njobs: nat)
    requires Inv(st) && njobs > 0
    ensures forall w :: 0 <= w < |st.workers| ==> WorkerInv(AddMember(st, njobs), w)
  {
    hide JobInv, WorkerInv, MemInv;
    forall w | 0 <= w < |st.workers|
      ensures WorkerInv(AddMember(st, njobs), w)
    {
      OldWorkerStands(st, njobs, w);
    }
  }

  lemma MembersBesideNew(st: State, njobs: nat)
    requires Inv(st) && njobs > 0
    ensures var next := AddMember(st, njobs); forall j :: j in next.jobs <==> j.m < |next.mems| && j.s < next.mems[j.m].njobs
    ensures var next := AddMember(st, njobs); forall m :: 0 <= m < |next.mems| ==> MemInv(next.mems[m])
  {
    hide JobInv, WorkerInv, SealComing, NewJobs, NewTurns;
    NewMemberDomain(st, njobs);
  }

  lemma NewMemberKeeps(st: State, njobs: nat)
    requires Inv(st) && njobs > 0
    ensures Inv(AddMember(st, njobs))
  {
    hide JobInv, WorkerInv, SealComing, MemInv, NewJobs, NewTurns;
    JobsBesideNew(st, njobs);
    WorkersBesideNew(st, njobs);
    SealsComeBesideNew(st, njobs);
    MembersBesideNew(st, njobs);
  }

  // ------------------------------------------------------------- the walker's half

  /** Before the walker's half is in, or while it is sealing, no worker is sealing the member. */
  lemma NoWorkerSeals(st: State, m: nat)
    requires Inv(st) && m < |st.mems| && !st.mems[m].meta.Counted?
    ensures forall w :: 0 <= w < |st.workers| ==> st.workers[w] != Sealing(m)
  {
    hide JobInv, MemInv;
    forall w | 0 <= w < |st.workers|
      ensures st.workers[w] != Sealing(m)
    {
      assert WorkerInv(st, w);
    }
  }

  /** Member `m` changes where only sealing looks; no worker is sealing it. */
  lemma MetaOnly(a: State, b: State, m: nat)
    requires Inv(a) && m < |a.mems| == |b.mems| && b == SetMem(a, m, b.mems[m])
    requires b.mems[m].njobs == a.mems[m].njobs && MemInv(b.mems[m])
    requires forall s :: 0 <= s < a.mems[m].njobs ==> SameView(a.mems[m], b.mems[m], s)
    requires forall w :: 0 <= w < |a.workers| ==> a.workers[w] != Sealing(m)
    requires b.mems[m].remaining == 0 && b.mems[m].sealed.None? ==> b.mems[m].meta.MetaSeals?
    ensures Inv(b)
  {
    hide MemInv, SameView, JobInv, WorkerInv;
    forall j | j in b.jobs
      ensures JobInv(b, j)
    {
      JobOfMemberStands(a, b, m, j);
    }
    forall w | 0 <= w < |b.workers|
      ensures WorkerInv(b, w)
    {
      WorkerAwayStands(a, b, m, w);
    }
    forall i | 0 <= i < |b.mems| && b.mems[i].remaining == 0 && b.mems[i].sealed.None?
      ensures SealComing(b, i)
    {
      if i != m {
        assert SealComing(a, i);
      }
    }
  }

  lemma JobOfMemberStands(a: State, b: State, m: nat, j: JobId)
    requires j in a.jobs && JobInv(a, j) && m < |a.mems| == |b.mems| && b == SetMem(a, m, b.mems[m])
    requires b.mems[m].njobs == a.mems[m].njobs && forall s :: 0 <= s < a.mems[m].njobs ==> SameView(a.mems[m], b.mems[m], s)
    ensures JobInv(b, j)
  {
    hide SameView, JobInv;
    TurnsAreHeld(a, j);
    KnownJob(a, j);
    SameViewItself(a.mems[j.m], j.s);
    JobFrame(a, b, j);
  }

  lemma WorkerAwayStands(a: State, b: State, m: nat, w: nat)
    requires w < |a.workers| && WorkerInv(a, w) && m < |a.mems| == |b.mems| && b == SetMem(a, m, b.mems[m])
    requires b.mems[m].njobs == a.mems[m].njobs && a.workers[w] != Sealing(m)
    ensures WorkerInv(b, w)
  {
    WorkerFrame(a, b, w);
  }

  lemma CountsLeft(mem: Member)
    requires MemInv(mem)
    ensures mem.meta.Open? ==> mem.remaining > 0 && mem.sealed.None?
  {
    BoundedSet(mem.finished, mem.njobs);
  }

  lemma CloseMetaKeeps(st: State, m: nat)
    requires Inv(st) && Enabled(st, CloseMeta(m))
    ensures Inv(Do(st, CloseMeta(m)))
  {
    hide Inv;
    MemberIs(st, m);
    CountsLeft(st.mems[m]);
    NoWorkerSeals(st, m);
    MetaOnly(st, Do(st, CloseMeta(m)), m);
  }

  lemma MetaSealKeeps(st: State, m: nat)
    requires Inv(st) && Enabled(st, MetaSeal(m))
    ensures Inv(Do(st, MetaSeal(m)))
  {
    hide Inv;
    MemberIs(st, m);
    PartsAreWhole(st, m);
    NoWorkerSeals(st, m);
    MetaOnly(st, Do(st, MetaSeal(m)), m);
  }

  // ------------------------------------------------------------- worker steps

  /** Worker `w` moves at job `j`: its job, its member's standing at that scheme and its place change;
      every other job and worker is as before. */
  predicate WorkStep(a: State, b: State, j: JobId, w: nat) {
    && Known(a, j) && |b.mems| == |a.mems| && w < |a.workers| == |b.workers| && j in b.jobs && j in b.turn
    && b.workers == a.workers[w := b.workers[w]]
    && b.jobs == a.jobs[j := b.jobs[j]] && b.turn == a.turn[j := b.turn[j]]
    && b.mems == a.mems[j.m := b.mems[j.m]] && b.mems[j.m].njobs == a.mems[j.m].njobs
    && (forall i :: i in a.jobs && i != j ==> (i in a.queue <==> i in b.queue))
    && (forall s :: 0 <= s < a.mems[j.m].njobs && s != j.s ==> SameView(a.mems[j.m], b.mems[j.m], s))
  }

  /** The worker was at this job and no other, or free and the job waiting. */
  predicate MayMove(a: State, j: JobId, w: nat)
    requires j in a.turn && w < |a.workers|
  {
    || (a.turn[j] == Held(w) && AtJob(a.workers[w], j))
    || (a.turn[j] == Last(w) && AtEnd(a.workers[w], j))
    || (a.turn[j].Waiting? && a.workers[w].Free?)
  }

  lemma JobElsewhereStands(a: State, b: State, j: JobId, w: nat, i: JobId)
    requires WorkStep(a, b, j, w) && MayMove(a, j, w) && i in a.jobs && i != j && JobInv(a, i)
    ensures JobInv(b, i)
  {
    hide SameView, JobInv;
    TurnsAreHeld(a, i);
    KnownJob(a, i);
    SameViewItself(a.mems[i.m], i.s);
    JobFrame(a, b, i);
  }

  lemma WorkerElsewhereStands(a: State, b: State, j: JobId, w: nat, v: nat)
    requires WorkStep(a, b, j, w) && MayMove(a, j, w) && v < |a.workers| && v != w && WorkerInv(a, v)
    requires a.workers[v] == Sealing(j.m) ==>
               b.mems[j.m].remaining == 0 && b.mems[j.m].sealed.None? && b.mems[j.m].meta.Counted?
    requires a.workers[v] != b.workers[w] || !a.workers[v].Sealing?
    ensures WorkerInv(b, v)
  {
    hide SameView;
    WorkerFrame(a, b, v);
  }

  /** How a member's count may move with a worker: not at all, or down, the last one leaving the
      worker to seal. */
  predicate CountsAsLeft(a: State, b: State, j: JobId, w: nat)
    requires WorkStep(a, b, j, w)
  {
    && b.mems[j.m].sealed == a.mems[j.m].sealed && b.mems[j.m].meta == a.mems[j.m].meta
    && (b.mems[j.m].remaining == a.mems[j.m].remaining || a.mems[j.m].remaining > 0)
    && (b.workers[w].Sealing? <==> b.mems[j.m].remaining == 0 && a.mems[j.m].remaining > 0)
    && (b.workers[w].Sealing? ==> b.workers[w].m == j.m)
  }

  predicate QueueOf(st: State) {
    && (forall k :: 0 <= k < |st.queue| ==> st.queue[k] in st.jobs)
    && (forall j, k :: 0 <= j < k < |st.queue| ==> st.queue[j] != st.queue[k])
  }

  lemma OthersAtWork(a: State, b: State, j: JobId, w: nat)
    requires Inv(a) && j in a.jobs && WorkStep(a, b, j, w) && MayMove(a, j, w) && CountsAsLeft(a, b, j, w)
    ensures forall i :: i in a.jobs && i != j ==> JobInv(b, i)
    ensures forall v :: 0 <= v < |b.workers| && v != w ==> WorkerInv(b, v)
  {
    hide SameView, MayMove, JobInv, CountsAsLeft, MemInv;
    forall i | i in a.jobs && i != j
      ensures JobInv(b, i)
    {
      JobElsewhereStands(a, b, j, w, i);
    }
    forall v | 0 <= v < |b.workers| && v != w
      ensures WorkerInv(b, v)
    {
      OtherSealer(a, b, j, w, v);
      WorkerElsewhereStands(a, b, j, w, v);
    }
  }

  lemma OtherSealer(a: State, b: State, j: JobId, w: nat, v: nat)
    requires Inv(a) && WorkStep(a, b, j, w) && CountsAsLeft(a, b, j, w) && v < |a.workers| && v != w
    ensures WorkerInv(a, v)
    ensures a.workers[v] == Sealing(j.m) ==> b.mems[j.m].remaining == 0 && b.mems[j.m].sealed.None? && b.mems[j.m].meta.Counted?
    ensures a.workers[v] != b.workers[w] || !a.workers[v].Sealing?
  {
    hide JobInv, MemInv, SameView;
    assert WorkerInv(a, v);
  }

  lemma SealsAtWork(a: State, b: State, j: JobId, w: nat)
    requires Inv(a) && j in a.jobs && WorkStep(a, b, j, w) && MayMove(a, j, w) && CountsAsLeft(a, b, j, w)
    ensures forall m :: 0 <= m < |b.mems| && b.mems[m].remaining == 0 && b.mems[m].sealed.None? ==> SealComing(b, m)
  {
    hide JobInv, MemInv, SameView, WorkerInv;
    forall m | 0 <= m < |b.mems| && b.mems[m].remaining == 0 && b.mems[m].sealed.None?
      ensures SealComing(b, m)
    {
      if m == j.m && a.mems[m].remaining > 0 {
        assert b.workers[w] == Sealing(m);
      } else {
        assert SealComing(a, m);
        if !a.mems[m].meta.MetaSeals? {
          var v :| 0 <= v < |a.workers| && a.workers[v] == Sealing(m);
          assert b.workers[v] == Sealing(m);
        }
      }
    }
  }

  lemma WorkStepKeeps(a: State, b: State, j: JobId, w: nat)
    requires Inv(a) && j in a.jobs && WorkStep(a, b, j, w) && MayMove(a, j, w) && CountsAsLeft(a, b, j, w)
    requires JobInv(b, j) && WorkerInv(b, w) && MemInv(b.mems[j.m]) && QueueOf(b)
    ensures Inv(b)
  {
    hide MemInv, SameView, JobInv, WorkerInv, MayMove, CountsAsLeft;
    OthersAtWork(a, b, j, w);
    SealsAtWork(a, b, j, w);
  }

  /** A worker past `Free` and short of sealing is the one whose turn its job is. */
  lemma WorkerHas(st: State, w: nat)
    requires Inv(st) && w < |st.workers| && AtWork(st.workers[w])
    ensures st.workers[w].j in st.jobs && JobInv(st, st.workers[w].j) && MayMove(st, st.workers[w].j, w)
    ensures MemInv(st.mems[st.workers[w].j.m]) && QueueOf(st)
  {
    hide Hashes, MemInv;
    assert WorkerInv(st, w);
  }

  lemma TakeTaskKeeps(st: State, w: nat, k: nat)
    requires Inv(st) && Enabled(st, TakeTask(w, k))
    ensures Inv(Do(st, TakeTask(w, k)))
  {
    hide Inv, JobInv, MemInv;
    var j, next := st.queue[k], Do(st, TakeTask(w, k));
    TaskOf(st, k);
    KnownJob(st, j);
    TakenQueue(st.queue, k);
    TakenJob(st, next, j, w, k);
    WorkStepKeeps(st, next, j, w);
  }

  lemma TaskOf(st: State, k: nat)
    requires Inv(st) && k < |st.queue|
    ensures st.queue[k] in st.jobs && JobInv(st, st.queue[k]) && MemInv(st.mems[st.queue[k].m]) && QueueOf(st)
    ensures st.turn[st.queue[k]].Waiting?
  {
    hide MemInv, Hashes, WorkerInv;
    assert st.queue[k] in st.queue;
  }

  /** Taking one task leaves the others, each still there once. */
  lemma TakenQueue(q: seq<JobId>, k: nat)
    requires k < |q| && forall a, b :: 0 <= a < b < |q| ==> q[a] != q[b]
    ensures q[k] !in Without(q, k)
    ensures forall i :: i != q[k] ==> (i in q <==> i in Without(q, k))
    ensures forall a, b :: 0 <= a < b < |q| - 1 ==> Without(q, k)[a] != Without(q, k)[b]
  {
    forall i | i in q && i != q[k]
      ensures i in Without(q, k)
    {
      var at :| 0 <= at < |q| && q[at] == i;
      assert Without(q, k)[if at < k then at else at - 1] == i;
    }
  }

  lemma TakenJob(st: State, next: State, j: JobId, w: nat, k: nat)
    requires Enabled(st, TakeTask(w, k)) && j == st.queue[k] && j in st.jobs && JobInv(st, j) && next == Do(st, TakeTask(w, k)) && j !in next.queue
    ensures JobInv(next, j)
  {
    hide Flatten, Reached;
  }

  lemma RunHashKeeps(st: State, w: nat)
    requires Inv(st) && Enabled(st, RunHash(w))
    ensures Inv(Do(st, RunHash(w)))
  {
    hide Inv, JobInv, MemInv;
    var j, next := st.workers[w].j, Do(st, RunHash(w));
    WorkerHas(st, w);
    KnownJob(st, j);
    RunHashJob(st, next, j, w);
    WorkStepKeeps(st, next, j, w);
  }

  lemma RunHashJob(st: State, next: State, j: JobId, w: nat)
    requires Enabled(st, RunHash(w)) && st.workers[w].j == j && JobInv(st, j) && MayMove(st, j, w) && next == DoRunHash(st, w)
    ensures JobInv(next, j)
  {
    hide Reached;
    EmptyFlatten([]);
    var job := if st.workers[w].Holding? then st.jobs[j].(hasher := Some(st.workers[w].h)) else st.jobs[j];
    Reassoc(job.hasher.value, Flatten(job.chunks), []);
    assert Flatten(job.chunks) + [] == Flatten(job.chunks) && job.hasher.value + [] == job.hasher.value;
    assert (job.hasher.value + Flatten(job.chunks)) + [] == job.hasher.value + Flatten(job.chunks);
  }

  lemma HashOneKeeps(st: State, w: nat)
    requires Inv(st) && Enabled(st, HashOne(w))
    ensures Inv(Do(st, HashOne(w)))
  {
    hide Inv, JobInv, MemInv;
    var j, next := st.workers[w].j, Do(st, HashOne(w));
    WorkerHas(st, w);
    KnownJob(st, j);
    HashOneJob(st, next, j, w);
    WorkStepKeeps(st, next, j, w);
  }

  lemma HashOneJob(st: State, next: State, j: JobId, w: nat)
    requires Enabled(st, HashOne(w)) && st.workers[w].j == j && JobInv(st, j) && MayMove(st, j, w) && next == Do(st, HashOne(w))
    ensures JobInv(next, j)
  {
    hide Reached;
    var wk := st.workers[w];
    Reassoc(wk.h, wk.todo[0], Flatten(wk.todo[1..]));
  }

  lemma ReleaseKeeps(st: State, w: nat)
    requires Inv(st) && Enabled(st, Release(w))
    ensures Inv(Do(st, Release(w)))
  {
    hide Inv, JobInv, MemInv;
    var j, next := st.workers[w].j, Do(st, Release(w));
    WorkerHas(st, w);
    KnownJob(st, j);
    ReleaseJob(st, next, j, w);
    WorkStepKeeps(st, next, j, w);
  }

  lemma ReleaseJob(st: State, next: State, j: JobId, w: nat)
    requires Enabled(st, Release(w)) && st.workers[w].j == j && JobInv(st, j) && MayMove(st, j, w) && next == Do(st, Release(w))
    ensures JobInv(next, j)
  {
    hide Reached;
    EmptyFlatten([]);
    assert st.workers[w].h + [] == st.workers[w].h;
  }

  lemma WritePartKeeps(st: State, w: nat)
    requires Inv(st) && Enabled(st, WritePart(w))
    ensures Inv(Do(st, WritePart(w)))
  {
    hide Inv, JobInv, MemInv;
    var j, next := st.workers[w].j, Do(st, WritePart(w));
    WorkerHas(st, w);
    KnownJob(st, j);
    WritePartJob(st, next, j, w);
    WorkStepKeeps(st, next, j, w);
  }

  lemma WritePartJob(st: State, next: State, j: JobId, w: nat)
    requires Enabled(st, WritePart(w)) && st.workers[w].j == j && JobInv(st, j) && MayMove(st, j, w) && next == Do(st, WritePart(w))
    requires MemInv(st.mems[j.m])
    ensures JobInv(next, j) && MemInv(next.mems[j.m])
  {
    hide Flatten;
    var mem, after := st.mems[j.m], next.mems[j.m];
    assert Reached(after, j.s) == Reached(mem, j.s);
    assert after == mem.(parts := after.parts);
  }

  lemma FinishPartKeeps(st: State, w: nat)
    requires Inv(st) && Enabled(st, FinishPart(w))
    ensures Inv(Do(st, FinishPart(w)))
  {
    hide Inv, JobInv, MemInv;
    var j, next := st.workers[w].j, Do(st, FinishPart(w));
    WorkerHas(st, w);
    KnownJob(st, j);
    NotYetIn(st, j);
    OneMoreIn(st.mems[j.m], j.s);
    FinishPartJob(st, next, j, w);
    LastOneSeals(st, j, w);
    WorkStepKeeps(st, next, j, w);
  }

  /** Whoever counts the last contributor off is the only one to seal, and the walker's half is in. */
  lemma LastOneSeals(st: State, j: JobId, w: nat)
    requires Inv(st) && Enabled(st, FinishPart(w)) && st.workers[w].j == j && j.m < |st.mems| && st.mems[j.m].remaining > 0
    requires j.s < st.mems[j.m].njobs && j.s !in st.mems[j.m].finished
    ensures WorkerInv(Do(st, FinishPart(w)), w)
  {
    hide JobInv, MemInv;
    forall v | 0 <= v < |st.workers|
      ensures st.workers[v] != Sealing(j.m)
    {
      assert WorkerInv(st, v);
    }
    assert MemInv(st.mems[j.m]);
    LastMeansCounted(st.mems[j.m], j.s);
  }

  lemma LastMeansCounted(mem: Member, s: nat)
    requires MemInv(mem) && s < mem.njobs && s !in mem.finished
    ensures mem.remaining == 1 ==> mem.meta.Counted? && mem.sealed.None?
  {
    BoundedSet(mem.finished + {s}, mem.njobs);
  }

  lemma NotYetIn(st: State, j: JobId)
    requires JobInv(st, j) && st.turn[j].Last?
    ensures j.s !in st.mems[j.m].finished
  {
    hide Hashes;
  }

  /** A contributor not yet counted leaves the count above zero, so the member unsealed. */
  lemma OneMoreIn(mem: Member, s: nat)
    requires MemInv(mem) && s < mem.njobs
    ensures s !in mem.finished ==> mem.remaining > 0 && mem.sealed.None? && |mem.finished + {s}| == |mem.finished| + 1
  {
    if s !in mem.finished {
      BoundedSet(mem.finished + {s}, mem.njobs);
    }
  }

  lemma FinishPartJob(st: State, next: State, j: JobId, w: nat)
    requires Enabled(st, FinishPart(w)) && st.workers[w].j == j && JobInv(st, j) && MayMove(st, j, w) && next == Do(st, FinishPart(w))
    requires MemInv(st.mems[j.m])
    requires st.mems[j.m].remaining > 0 && |st.mems[j.m].finished + {j.s}| == |st.mems[j.m].finished| + 1
    ensures JobInv(next, j) && MemInv(next.mems[j.m])
  {
    hide Flatten;
  }

  lemma WorkerSealKeeps(st: State, w: nat)
    requires Inv(st) && Enabled(st, WorkerSeal(w))
    ensures Inv(Do(st, WorkerSeal(w)))
  {
    hide JobInv, WorkerInv, MemInv;
    var m, next := st.workers[w].m, Do(st, WorkerSeal(w));
    SealerHas(st, w);
    PartsAreWhole(st, m);
    forall j | j in next.jobs
      ensures JobInv(next, j)
    {
      JobStandsAtSeal(st, w, j);
    }
    forall v | 0 <= v < |next.workers|
      ensures WorkerInv(next, v)
    {
      WorkerStandsAtSeal(st, w, v);
    }
    SealedMember(st.mems[m]);
    forall i | 0 <= i < |next.mems| && next.mems[i].remaining == 0 && next.mems[i].sealed.None?
      ensures SealComing(next, i)
    {
      assert SealComing(st, i);
      if !st.mems[i].meta.MetaSeals? {
        var v :| 0 <= v < |st.workers| && st.workers[v] == Sealing(i);
        assert next.workers[v] == Sealing(i);
      }
    }
  }

  lemma SealerHas(st: State, w: nat)
    requires Inv(st) && w < |st.workers| && st.workers[w].Sealing?
    ensures st.workers[w].m < |st.mems| && st.mems[st.workers[w].m].remaining == 0 && st.mems[st.workers[w].m].sealed.None?
    ensures st.mems[st.workers[w].m].meta.Counted?
  {
    hide JobInv, MemInv;
    assert WorkerInv(st, w);
  }

  lemma SealedMember(mem: Member)
    requires MemInv(mem) && mem.remaining == 0 && mem.meta.Counted? && WholeSeal(mem, Sealed(mem.parts, |mem.pushed|))
    ensures MemInv(SealNow(mem))
  {
  }

  lemma JobStandsAtSeal(st: State, w: nat, j: JobId)
    requires Enabled(st, WorkerSeal(w)) && j in st.jobs && JobInv(st, j)
    ensures JobInv(Do(st, WorkerSeal(w)), j)
  {
    hide JobInv;
    TurnsAreHeld(st, j);
    KnownJob(st, j);
    JobFrame(st, Do(st, WorkerSeal(w)), j);
  }

  lemma WorkerStandsAtSeal(st: State, w: nat, v: nat)
    requires Inv(st) && Enabled(st, WorkerSeal(w)) && v < |st.workers|
    ensures WorkerInv(Do(st, WorkerSeal(w)), v)
  {
    hide JobInv, MemInv;
    assert WorkerInv(st, v) && WorkerInv(st, w);
    if v != w {
      WorkerFrame(st, Do(st, WorkerSeal(w)), v);
    }
  }

  // ------------------------------------------------------------- every step, every run

  /** Whatever step is taken next, by whichever feeder, walker or worker, the invariant stands. */
  lemma StepKeeps(st: State, step: Step)
    requires Inv(st) && Enabled(st, step)
    ensures Inv(Do(st, step))
  {
    hide Inv, Enabled, Do;
    match step {
      case NewMember(njobs) => NewMemberStep(st, njobs);
      case Push(m, bytes) => PushKeeps(st, m, bytes);
      case BeginFlush(m) => BeginFlushKeeps(st, m);
      case FlushJob(m) => FlushJobKeeps(st, m);
      case FlushEnqueue(m) => FlushEnqueueKeeps(st, m);
      case FlushDone(m) => FlushDoneKeeps(st, m);
      case BeginClose(m) => BeginCloseKeeps(st, m);
      case CloseJob(m) => CloseJobKeeps(st, m);
      case CloseEnqueue(m) => CloseEnqueueKeeps(st, m);
      case CloseDone(m) => CloseDoneKeeps(st, m);
      case CloseMeta(m) => CloseMetaKeeps(st, m);
      case MetaSeal(m) => MetaSealKeeps(st, m);
      case TakeTask(w, k) => TakeTaskKeeps(st, w, k);
      case RunHash(w) => RunHashKeeps(st, w);
      case HashOne(w) => HashOneKeeps(st, w);
      case Release(w) => ReleaseKeeps(st, w);
      case WritePart(w) => WritePartKeeps(st, w);
      case FinishPart(w) => FinishPartKeeps(st, w);
      case WorkerSeal(w) => WorkerSealKeeps(st, w);
      case TakeRead(w, m) => ReadKeeps(st, step);
      case EndRead(w) => ReadKeeps(st, step);
      case ClosePool => ClosePoolKeeps(st);
    }
  }

  lemma ReadJobStands(st: State, step: Step, j: JobId)
    requires (step.TakeRead? || step.EndRead?) && Enabled(st, step) && j in st.jobs && JobInv(st, j)
    ensures JobInv(Do(st, step), j)
  {
    hide JobInv, Readers;
    TurnsAreHeld(st, j);
    KnownJob(st, j);
    JobFrame(st, Do(st, step), j);
  }

  lemma ReadWorkerStands(st: State, step: Step, v: nat)
    requires (step.TakeRead? || step.EndRead?) && Enabled(st, step) && v < |st.workers| && WorkerInv(st, v)
    ensures WorkerInv(Do(st, step), v)
  {
    hide Readers;
    if v != step.w {
      WorkerFrame(st, Do(st, step), v);
    }
  }

  /** Taking up or giving up reading concerns no job and no seal. */
  lemma ReadKeeps(st: State, step: Step)
    requires Inv(st) && Enabled(st, step) && (step.TakeRead? || step.EndRead?)
    ensures Inv(Do(st, step))
  {
    hide MemInv, SameView, JobInv, WorkerInv, Readers;
    var next := Do(st, step);
    forall j | j in next.jobs
      ensures JobInv(next, j)
    {
      ReadJobStands(st, step, j);
    }
    forall v | 0 <= v < |next.workers|
      ensures WorkerInv(next, v)
    {
      ReadWorkerStands(st, step, v);
    }
    SealersStay(st, next, step.w);
  }

  lemma SealersStay(a: State, b: State, w: nat)
    requires Inv(a) && w < |a.workers| && !a.workers[w].Sealing? && a.mems == b.mems && |b.workers| == |a.workers|
    requires b.workers == a.workers[w := b.workers[w]]
    ensures forall m :: 0 <= m < |b.mems| && b.mems[m].remaining == 0 && b.mems[m].sealed.None? ==> SealComing(b, m)
  {
    hide MemInv, JobInv, WorkerInv;
    forall m | 0 <= m < |b.mems| && b.mems[m].remaining == 0 && b.mems[m].sealed.None?
      ensures SealComing(b, m)
    {
      assert SealComing(a, m);
      if !a.mems[m].meta.MetaSeals? {
        var v :| 0 <= v < |a.workers| && a.workers[v] == Sealing(m);
        assert b.workers[v] == Sealing(m);
      }
    }
  }

  lemma NewMemberStep(st: State, njobs: nat)
    requires Inv(st) && Enabled(st, NewMember(njobs))
    ensures Inv(Do(st, NewMember(njobs)))
  {
    hide Inv, AddMember;
    NewMemberKeeps(st, njobs);
  }

  lemma ClosePoolKeeps(st: State)
    requires Inv(st)
    ensures Inv(Do(st, ClosePool))
  {
    hide MemInv, SameView, JobInv;
    var next := Do(st, ClosePool);
    forall j | j in next.jobs
      ensures JobInv(next, j)
    {
      TurnsAreHeld(st, j);
      KnownJob(st, j);
      SameViewItself(st.mems[j.m], j.s);
      JobFrame(st, next, j);
    }
    forall w | 0 <= w < |next.workers|
      ensures WorkerInv(next, w)
    {
      WorkerFrame(st, next, w);
    }
    SealsComeStill(st, next);
  }
}
