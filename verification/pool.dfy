/**
 The minting pool as a protocol: feeders hand a member's chunks to one hash job a scheme, workers
 drain whichever job is queued, and the last contributor seals the member. Every step below is one
 critical section or one thread-local action, so a run is any interleaving of feeders and workers.
 */
module Pool {
  import opened Wrappers
  import opened ByteStrings

  /** Every member is hashed under five schemes, and a sixth where its length is known up front. */
  const SCHEMES: nat := 5

  const CHUNK: nat := 0x4_0000
  const BUDGET: int := 0x2000_0000

  /** A hash job: scheme `s` of member `m`. */
  datatype JobId = JobId(m: nat, s: nat)

  /** `hasher` holds the bytes hashed so far; a worker takes it out while it hashes. */
  datatype Job = Job(chunks: seq<Bytes>, hasher: Option<Bytes>, closed: bool, queued: bool)

  /** Where a member's feeder is: between pushes, handing a flushed chunk to job `k`, closing job
      `k`, or done. `enqueue` is set between marking a job queued and putting it in the queue. */
  datatype Feeder = Ready | Flushing(chunk: Bytes, k: nat, enqueue: bool) | Closing(k: nat, enqueue: bool) | Shut

  /** The walker's half: open, sealing because it was the last contributor, or done. */
  datatype Meta = Open | MetaSeals | Counted

  datatype Sealed = Sealed(digests: map<nat, Bytes>, size: nat)

  /** One member under assembly. `pushed` is everything fed so far, `flushed` what every job has been
      handed in full. */
  datatype Member = Member(
    njobs: nat, pushed: Bytes, flushed: Bytes, buf: Bytes, feeder: Feeder, meta: Meta,
    parts: map<nat, Bytes>, finished: set<nat>, remaining: nat, sealed: Option<Sealed>)

  /** Where a worker is inside `run_hash`: about to lock, hashing drained chunks, about to put the
      hasher back, writing its digest, counting itself off, or sealing. One that reads a member for its
      feeder does nothing else until that member is shut. */
  datatype Worker =
    | Free
    | Enter(j: JobId)
    | Hashing(j: JobId, h: Bytes, todo: seq<Bytes>, freed: nat)
    | Holding(j: JobId, h: Bytes)
    | Finalizing(j: JobId, h: Bytes)
    | Finishing(j: JobId)
    | Sealing(m: nat)
    | Reading(m: nat)

  /** Whose turn a job is: an auxiliary account of who may touch its hasher. */
  datatype Turn = Nobody | Waiting | Handed | Held(w: nat) | Last(w: nat) | Over

  datatype State = State(
    mems: seq<Member>, jobs: map<JobId, Job>, turn: map<JobId, Turn>, queue: seq<JobId>, workers: seq<Worker>,
    budget: int, closed: bool)

  // ------------------------------------------------------------- what has reached a job

  /** The bytes job `s` has been handed: everything flushed, and the chunk under way if its turn in
      the flush has passed. */
  function Reached(mem: Member, s: nat): Bytes {
    if mem.feeder.Flushing? && (s < mem.feeder.k || (s == mem.feeder.k && mem.feeder.enqueue))
    then mem.flushed + mem.feeder.chunk
    else mem.flushed
  }

  /** Whether the feeder has closed job `s`. */
  predicate CloseReached(mem: Member, s: nat) {
    mem.feeder.Shut? || (mem.feeder.Closing? && (s < mem.feeder.k || (s == mem.feeder.k && mem.feeder.enqueue)))
  }

  predicate HandingOver(mem: Member, s: nat) {
    (mem.feeder.Flushing? || mem.feeder.Closing?) && mem.feeder.k == s && mem.feeder.enqueue
  }

  // ------------------------------------------------------------- the invariant

  predicate AtJob(wk: Worker, j: JobId) {
    (wk.Enter? || wk.Hashing? || wk.Holding?) && wk.j == j
  }

  predicate AtWork(wk: Worker) {
    wk.Enter? || wk.Hashing? || wk.Holding? || wk.Finalizing? || wk.Finishing?
  }

  predicate AtEnd(wk: Worker, j: JobId) {
    (wk.Finalizing? || wk.Finishing?) && wk.j == j
  }

  predicate Known(st: State, j: JobId) {
    j in st.jobs && j in st.turn && j.m < |st.mems| && j.s < st.mems[j.m].njobs
  }

  /** Bytes hashed, then bytes being hashed, then chunks pending: always what reached the job. */
  predicate Hashes(st: State, j: JobId)
    requires Known(st, j)
  {
    var job, reached := st.jobs[j], Reached(st.mems[j.m], j.s);
    match st.turn[j]
    case Nobody => job.hasher == Some(reached) && job.chunks == [] && !job.closed
    case Waiting => job.hasher.Some? && job.hasher.value + Flatten(job.chunks) == reached
    case Handed => job.hasher.Some? && job.hasher.value + Flatten(job.chunks) == reached
    case Held(w) =>
      w < |st.workers| && AtJob(st.workers[w], j) &&
      (match st.workers[w]
       case Enter(_) => job.hasher.Some? && job.hasher.value + Flatten(job.chunks) == reached
       case Hashing(_, h, todo, _) => job.hasher.None? && (h + Flatten(todo)) + Flatten(job.chunks) == reached
       case Holding(_, h) => job.hasher.None? && h + Flatten(job.chunks) == reached
       case _ => false)
    case Last(w) =>
      && w < |st.workers| && AtEnd(st.workers[w], j) && job.hasher.None? && job.chunks == [] && job.closed
      && (st.workers[w].Finalizing? ==> st.workers[w].h == reached)
    case Over => job.hasher.None? && job.chunks == [] && job.closed
  }

  predicate JobInv(st: State, j: JobId) {
    && Known(st, j) && Hashes(st, j)
    && var job, turn, mem := st.jobs[j], st.turn[j], st.mems[j.m];
    && (job.queued <==> turn.Waiting? || turn.Handed? || turn.Held?)
    && (turn.Handed? <==> HandingOver(mem, j.s))
    && (turn.Waiting? <==> j in st.queue)
    && (job.closed <==> CloseReached(mem, j.s))
    && (j.s in mem.finished <==> turn.Over?)
    && (j.s in mem.parts <==> turn.Over? || (turn.Last? && turn.w < |st.workers| && st.workers[turn.w].Finishing?))
    && (j.s in mem.parts ==> mem.parts[j.s] == Reached(mem, j.s))
  }

  predicate WorkerInv(st: State, w: nat)
    requires w < |st.workers|
  {
    match st.workers[w]
    case Free => true
    case Reading(m) => m < |st.mems|
    case Enter(j) => Known(st, j) && st.turn[j] == Held(w)
    case Hashing(j, _, _, _) => Known(st, j) && st.turn[j] == Held(w)
    case Holding(j, _) => Known(st, j) && st.turn[j] == Held(w)
    case Finalizing(j, _) => Known(st, j) && st.turn[j] == Last(w)
    case Finishing(j) => Known(st, j) && st.turn[j] == Last(w)
    case Sealing(m) => m < |st.mems| && st.mems[m].remaining == 0 && st.mems[m].sealed.None? && st.mems[m].meta.Counted?
                       && forall v :: 0 <= v < |st.workers| && v != w ==> st.workers[v] != Sealing(m)
  }

  /** Everything pushed is flushed, in the flush under way, or in the buffer; the count of
      contributors is exact; a member is sealed with its whole stream under every scheme. */
  predicate MemInv(mem: Member) {
    && mem.njobs > 0
    && mem.pushed == mem.flushed + (if mem.feeder.Flushing? then mem.feeder.chunk else []) + mem.buf
    && (mem.feeder.Flushing? || mem.feeder.Closing? ==> mem.feeder.k <= mem.njobs && (mem.feeder.enqueue ==> mem.feeder.k < mem.njobs))
    && (mem.feeder.Closing? || mem.feeder.Shut? ==> mem.buf == [])
    && (forall s :: s in mem.finished ==> s < mem.njobs)
    && (forall s :: s in mem.parts ==> s < mem.njobs)
    && mem.remaining + |mem.finished| + (if mem.meta.Open? then 0 else 1) == mem.njobs + 1
    && (mem.meta.MetaSeals? ==> mem.remaining == 0 && mem.sealed.None?)
    && (mem.sealed.Some? ==> mem.remaining == 0 && WholeSeal(mem, mem.sealed.value))
  }

  /** The seal a member deserves: a digest of its whole stream under every scheme, and its length. */
  predicate WholeSeal(mem: Member, seal: Sealed) {
    && seal.size == |mem.pushed|
    && (forall s :: s in seal.digests ==> s < mem.njobs && seal.digests[s] == mem.pushed)
    && (forall s :: 0 <= s < mem.njobs ==> s in seal.digests)
  }

  /** Someone is about to seal a member all of whose contributors are in. */
  predicate SealComing(st: State, m: nat)
    requires m < |st.mems|
  {
    st.mems[m].meta.MetaSeals? || exists w :: 0 <= w < |st.workers| && st.workers[w] == Sealing(m)
  }

  ghost predicate Inv(st: State) {
    && (forall j :: j in st.jobs <==> j.m < |st.mems| && j.s < st.mems[j.m].njobs)
    && (forall j :: j in st.jobs ==> JobInv(st, j))
    && (forall m :: 0 <= m < |st.mems| ==> MemInv(st.mems[m]))
    && (forall m :: 0 <= m < |st.mems| && st.mems[m].remaining == 0 && st.mems[m].sealed.None? ==> SealComing(st, m))
    && (forall w :: 0 <= w < |st.workers| ==> WorkerInv(st, w))
    && (forall k :: 0 <= k < |st.queue| ==> st.queue[k] in st.jobs)
    && (forall j, k :: 0 <= j < k < |st.queue| ==> st.queue[j] != st.queue[k])
  }

  // ------------------------------------------------------------- the steps

  datatype Step =
    | NewMember(njobs: nat)
    | Push(m: nat, bytes: Bytes)
    | BeginFlush(m: nat)
    | FlushJob(m: nat)
    | FlushEnqueue(m: nat)
    | FlushDone(m: nat)
    | BeginClose(m: nat)
    | CloseJob(m: nat)
    | CloseEnqueue(m: nat)
    | CloseDone(m: nat)
    | CloseMeta(m: nat)
    | MetaSeal(m: nat)
    | TakeTask(w: nat, k: nat)
    | RunHash(w: nat)
    | HashOne(w: nat)
    | Release(w: nat)
    | WritePart(w: nat)
    | FinishPart(w: nat)
    | WorkerSeal(w: nat)
    | TakeRead(w: nat, m: nat)
    | EndRead(w: nat)
    | ClosePool

  /** The byte budget lets a flush through when it is empty, when the flush fits, or once the pool is
      closed. */
  predicate Admitted(st: State, n: nat) {
    st.budget <= 0 || st.budget + n <= BUDGET || st.closed
  }

  /** How many of the first `n` workers are reading. */
  function Readers(ws: seq<Worker>, n: nat): nat
    requires n <= |ws|
  {
    if n == 0 then 0 else Readers(ws, n - 1) + (if ws[n - 1].Reading? then 1 else 0)
  }

  /** At most half the threads read, but one always may. */
  function ReaderCap(threads: nat): nat {
    if threads / 2 > 1 then threads / 2 else 1
  }

  predicate Enabled(st: State, step: Step) {
    match step
    case NewMember(njobs) => njobs == SCHEMES || njobs == SCHEMES + 1
    case Push(m, bytes) => m < |st.mems| && st.mems[m].feeder.Ready? && |st.mems[m].buf| + |bytes| <= CHUNK
    case BeginFlush(m) =>
      m < |st.mems| && st.mems[m].feeder.Ready? && st.mems[m].buf != [] && Admitted(st, |st.mems[m].buf| * st.mems[m].njobs)
    case FlushJob(m) =>
      && m < |st.mems| && st.mems[m].feeder.Flushing? && !st.mems[m].feeder.enqueue && st.mems[m].feeder.k < st.mems[m].njobs
      && JobId(m, st.mems[m].feeder.k) in st.jobs && JobId(m, st.mems[m].feeder.k) in st.turn
    case FlushEnqueue(m) =>
      m < |st.mems| && st.mems[m].feeder.Flushing? && st.mems[m].feeder.enqueue && JobId(m, st.mems[m].feeder.k) in st.turn
    case FlushDone(m) => m < |st.mems| && st.mems[m].feeder.Flushing? && !st.mems[m].feeder.enqueue && st.mems[m].feeder.k == st.mems[m].njobs
    case BeginClose(m) => m < |st.mems| && st.mems[m].feeder.Ready? && st.mems[m].buf == []
    case CloseJob(m) =>
      && m < |st.mems| && st.mems[m].feeder.Closing? && !st.mems[m].feeder.enqueue && st.mems[m].feeder.k < st.mems[m].njobs
      && JobId(m, st.mems[m].feeder.k) in st.jobs && JobId(m, st.mems[m].feeder.k) in st.turn
    case CloseEnqueue(m) =>
      m < |st.mems| && st.mems[m].feeder.Closing? && st.mems[m].feeder.enqueue && JobId(m, st.mems[m].feeder.k) in st.turn
    case CloseDone(m) => m < |st.mems| && st.mems[m].feeder.Closing? && !st.mems[m].feeder.enqueue && st.mems[m].feeder.k == st.mems[m].njobs
    case CloseMeta(m) => m < |st.mems| && st.mems[m].meta.Open?
    case MetaSeal(m) => m < |st.mems| && st.mems[m].meta.MetaSeals?
    case TakeTask(w, k) => w < |st.workers| && st.workers[w].Free? && k < |st.queue| && st.queue[k] in st.turn
    case RunHash(w) =>
      w < |st.workers| && (st.workers[w].Enter? || st.workers[w].Holding?) && st.workers[w].j in st.jobs && st.workers[w].j in st.turn
    case HashOne(w) => w < |st.workers| && st.workers[w].Hashing? && st.workers[w].todo != []
    case Release(w) => w < |st.workers| && st.workers[w].Hashing? && st.workers[w].todo == []
    case WritePart(w) => w < |st.workers| && st.workers[w].Finalizing? && st.workers[w].j.m < |st.mems|
    case FinishPart(w) => w < |st.workers| && st.workers[w].Finishing? && st.workers[w].j.m < |st.mems| && st.workers[w].j in st.turn
    case WorkerSeal(w) => w < |st.workers| && st.workers[w].Sealing? && st.workers[w].m < |st.mems|
    case TakeRead(w, m) =>
      w < |st.workers| && st.workers[w].Free? && m < |st.mems| && !st.mems[m].feeder.Shut? && Readers(st.workers, |st.workers|) < ReaderCap(|st.workers|)
    case EndRead(w) => w < |st.workers| && st.workers[w].Reading? && st.workers[w].m < |st.mems| && st.mems[st.workers[w].m].feeder.Shut?
    case ClosePool => true
  }

  function SetMem(st: State, m: nat, mem: Member): State
    requires m < |st.mems|
  {
    st.(mems := st.mems[m := mem])
  }

  function SetJob(st: State, j: JobId, job: Job, turn: Turn): State {
    st.(jobs := st.jobs[j := job], turn := st.turn[j := turn])
  }

  function SetWorker(st: State, w: nat, wk: Worker): State
    requires w < |st.workers|
  {
    st.(workers := st.workers[w := wk])
  }

  function NewJobs(m: nat, njobs: nat): map<JobId, Job> {
    map s | 0 <= s < njobs :: JobId(m, s) := Job([], Some([]), false, false)
  }

  function NewTurns(m: nat, njobs: nat): map<JobId, Turn> {
    map s | 0 <= s < njobs :: JobId(m, s) := Nobody
  }

  function Without(q: seq<JobId>, k: nat): seq<JobId>
    requires k < |q|
  {
    q[..k] + q[k + 1..]
  }

  /** One contributor is in; the last one has to seal. */
  function CountOff(mem: Member): Member {
    mem.(remaining := if mem.remaining > 0 then mem.remaining - 1 else 0)
  }

  /** The seal takes the parts as they stand and the size as counted. */
  function SealNow(mem: Member): Member {
    mem.(sealed := Some(Sealed(mem.parts, |mem.pushed|)))
  }

  /** A fresh member: one job a scheme, one contributor a job and one for the walker. */
  function AddMember(st: State, njobs: nat): State {
    var m := |st.mems|;
    st.(mems := st.mems + [Member(njobs, [], [], [], Ready, Open, map[], {}, njobs + 1, None)],
        jobs := st.jobs + NewJobs(m, njobs), turn := st.turn + NewTurns(m, njobs))
  }

  function Do(st: State, step: Step): State
    requires Enabled(st, step)
  {
    match step
    case NewMember(njobs) => AddMember(st, njobs)
    case Push(m, bytes) => SetMem(st, m, st.mems[m].(pushed := st.mems[m].pushed + bytes, buf := st.mems[m].buf + bytes))
    case BeginFlush(m) =>
      var mem := st.mems[m];
      SetMem(st, m, mem.(feeder := Flushing(mem.buf, 0, false), buf := [])).(budget := st.budget + |mem.buf| * mem.njobs)
    case FlushJob(m) =>
      var mem, j := st.mems[m], JobId(m, st.mems[m].feeder.k);
      var job := st.jobs[j].(chunks := st.jobs[j].chunks + [mem.feeder.chunk]);
      if job.queued then SetMem(SetJob(st, j, job, st.turn[j]), m, mem.(feeder := Flushing(mem.feeder.chunk, j.s + 1, false)))
      else SetMem(SetJob(st, j, job.(queued := true), Handed), m, mem.(feeder := Flushing(mem.feeder.chunk, j.s, true)))
    case FlushEnqueue(m) =>
      var mem, j := st.mems[m], JobId(m, st.mems[m].feeder.k);
      SetMem(st, m, mem.(feeder := Flushing(mem.feeder.chunk, j.s + 1, false))).(queue := st.queue + [j], turn := st.turn[j := Waiting])
    case FlushDone(m) =>
      var mem := st.mems[m];
      SetMem(st, m, mem.(feeder := Ready, flushed := mem.flushed + mem.feeder.chunk))
    case BeginClose(m) => SetMem(st, m, st.mems[m].(feeder := Closing(0, false)))
    case CloseJob(m) =>
      var mem, j := st.mems[m], JobId(m, st.mems[m].feeder.k);
      var job := st.jobs[j].(closed := true);
      if job.queued then SetMem(SetJob(st, j, job, st.turn[j]), m, mem.(feeder := Closing(j.s + 1, false)))
      else SetMem(SetJob(st, j, job.(queued := true), Handed), m, mem.(feeder := Closing(j.s, true)))
    case CloseEnqueue(m) =>
      var mem, j := st.mems[m], JobId(m, st.mems[m].feeder.k);
      SetMem(st, m, mem.(feeder := Closing(j.s + 1, false))).(queue := st.queue + [j], turn := st.turn[j := Waiting])
    case CloseDone(m) => SetMem(st, m, st.mems[m].(feeder := Shut))
    case CloseMeta(m) =>
      var mem := CountOff(st.mems[m]);
      SetMem(st, m, mem.(meta := if mem.remaining == 0 then MetaSeals else Counted))
    case MetaSeal(m) => SetMem(st, m, SealNow(st.mems[m]).(meta := Counted))
    case TakeTask(w, k) =>
      var j := st.queue[k];
      SetWorker(st, w, Enter(j)).(queue := Without(st.queue, k), turn := st.turn[j := Held(w)])
    case RunHash(w) => DoRunHash(st, w)
    case HashOne(w) =>
      var wk := st.workers[w];
      SetWorker(st, w, wk.(h := wk.h + wk.todo[0], todo := wk.todo[1..], freed := wk.freed + |wk.todo[0]|))
    case Release(w) =>
      var wk := st.workers[w];
      SetWorker(st, w, Holding(wk.j, wk.h)).(budget := st.budget - wk.freed)
    case WritePart(w) =>
      var j, mem := st.workers[w].j, st.mems[st.workers[w].j.m];
      SetWorker(SetMem(st, j.m, mem.(parts := mem.parts[j.s := st.workers[w].h])), w, Finishing(j))
    case FinishPart(w) =>
      var j := st.workers[w].j;
      var mem := CountOff(st.mems[j.m]).(finished := st.mems[j.m].finished + {j.s});
      SetWorker(SetMem(st, j.m, mem), w, if mem.remaining == 0 then Sealing(j.m) else Free).(turn := st.turn[j := Over])
    case WorkerSeal(w) => SetWorker(SetMem(st, st.workers[w].m, SealNow(st.mems[st.workers[w].m])), w, Free)
    case TakeRead(w, m) => SetWorker(st, w, Reading(m))
    case EndRead(w) => SetWorker(st, w, Free)
    case ClosePool => st.(closed := true)
  }

  /** One turn of the hash loop under the job's lock: a hasher brought back first, then drain what is
      pending, or finalize a closed job, or let go. */
  function DoRunHash(st: State, w: nat): State
    requires w < |st.workers| && (st.workers[w].Enter? || st.workers[w].Holding?) && st.workers[w].j in st.jobs && st.workers[w].j in st.turn
  {
    var j := st.workers[w].j;
    var job := if st.workers[w].Holding? then st.jobs[j].(hasher := Some(st.workers[w].h)) else st.jobs[j];
    if job.chunks != [] then
      SetWorker(SetJob(st, j, job.(chunks := [], hasher := None), st.turn[j]), w,
                Hashing(j, if job.hasher.Some? then job.hasher.value else [], job.chunks, 0))
    else if job.closed && job.hasher.Some? then
      SetWorker(SetJob(st, j, job.(hasher := None, queued := false), Last(w)), w, Finalizing(j, job.hasher.value))
    else SetWorker(SetJob(st, j, job.(queued := false), Nobody), w, Free)
  }
}
