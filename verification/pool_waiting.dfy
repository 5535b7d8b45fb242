/** Waiting for the pool to go idle while read tasks are still queued or feeding their members: the pool
    comes to an end of its work, and there every member is sealed over all its read gave it. */
module PoolWaiting {
  import opened Wrappers
  import opened ByteStrings
  import opened Pool
  import opened PoolSteps
  import opened PoolTotals
  import opened PoolClaims
  import opened PoolBudget
  import opened PoolDrain
  import opened PoolIdle

  /** The pool as `wait_idle` sees it: `queued` are the members whose read task no worker has taken,
      and `left` what is still to be read of each member that a task feeds. */
  datatype Wait = Wait(st: State, queued: set<nat>, left: map<nat, Bytes>)

  /** What can happen with nobody outside left to act: a step inside the pool, a worker taking a read
      task, and the reader's own moves. It flushes a full buffer, or the last of it before closing; a
      failing read, or a closed pool, makes it give up the rest. */
  datatype Move =
    | Inside(step: Step)
    | Take(w: nat, m: nat)
    | Feed(w: nat, m: nat, n: nat)
    | GiveUp(w: nat, m: nat)
    | Flush(w: nat, m: nat)
    | Close(w: nat, m: nat)
    | Leave(w: nat)

  predicate Reads(x: Wait, w: nat, m: nat) {
    w < |x.st.workers| && x.st.workers[w] == Reading(m) && m < |x.st.mems| && m in x.left
  }

  predicate May(x: Wait, mv: Move) {
    match mv
    case Inside(step) => CanGo(x.st, step)
    case Take(w, m) => m in x.queued && Enabled(x.st, TakeRead(w, m))
    case Feed(w, m, n) => Reads(x, w, m) && 0 < n <= |x.left[m]| && Enabled(x.st, Push(m, x.left[m][..n]))
    case GiveUp(w, m) => Reads(x, w, m) && x.st.mems[m].feeder.Ready? && x.left[m] != []
    case Flush(w, m) => Reads(x, w, m) && (|x.st.mems[m].buf| >= CHUNK || x.left[m] == []) && Enabled(x.st, BeginFlush(m))
    case Close(w, m) => Reads(x, w, m) && x.left[m] == [] && Enabled(x.st, BeginClose(m))
    case Leave(w) => Enabled(x.st, EndRead(w))
  }

  /** The step of the pool a move is; giving up is none. */
  function Under(x: Wait, mv: Move): Option<Step>
    requires May(x, mv)
  {
    match mv
    case Inside(step) => Some(step)
    case Take(w, m) => Some(TakeRead(w, m))
    case Feed(_, m, n) => Some(Push(m, x.left[m][..n]))
    case GiveUp(_, _) => None
    case Flush(_, m) => Some(BeginFlush(m))
    case Close(_, m) => Some(BeginClose(m))
    case Leave(w) => Some(EndRead(w))
  }

  lemma UnderIsEnabled(x: Wait, mv: Move)
    requires May(x, mv)
    ensures Under(x, mv).Some? ==> Enabled(x.st, Under(x, mv).value)
  {
    hide Enabled;
  }

  function Go(x: Wait, mv: Move): Wait
    requires May(x, mv)
  {
    UnderIsEnabled(x, mv);
    var st := if Under(x, mv).Some? then Do(x.st, Under(x, mv).value) else x.st;
    match mv
    case Take(_, m) => Wait(st, x.queued - {m}, x.left)
    case Feed(_, m, n) => Wait(st, x.queued, x.left[m := x.left[m][n..]])
    case GiveUp(_, m) => Wait(st, x.queued, x.left[m := []])
    case _ => Wait(st, x.queued, x.left)
  }

  predicate Goes(x: Wait, moves: seq<Move>)
    decreases |moves|
  {
    moves == [] || (May(x, moves[0]) && Goes(Go(x, moves[0]), moves[1..]))
  }

  function Gone(x: Wait, moves: seq<Move>): Wait
    requires Goes(x, moves)
    decreases |moves|
  {
    if moves == [] then x else Gone(Go(x, moves[0]), moves[1..])
  }

  // ------------------------------------------------------------- what waiting keeps

  predicate BeingRead(x: Wait, m: nat) {
    exists w :: 0 <= w < |x.st.workers| && x.st.workers[w] == Reading(m)
  }

  predicate MemberServed(x: Wait, m: nat)
    requires m < |x.st.mems|
  {
    var mem := x.st.mems[m];
    && !mem.meta.Open?
    && (mem.feeder.Shut? || (m in x.left && (m in x.queued || BeingRead(x, m))))
    && ((mem.feeder.Closing? || mem.feeder.Shut?) && m in x.left ==> x.left[m] == [])
  }

  /** Nothing is left in the walker's hands: every metadata half is in, and each feeder is closed or
      belongs to a read task, queued or under way. */
  predicate Served(x: Wait) {
    && (forall m :: 0 <= m < |x.st.mems| ==> MemberServed(x, m))
    && (forall w :: 0 <= w < |x.st.workers| && x.st.workers[w].Reading? ==> x.st.workers[w].m !in x.queued)
  }

  ghost predicate Waits(x: Wait, threads: nat) {
    Inv(x.st) && Balanced(x.st) && Capped(x.st, threads) && Served(x)
  }

  lemma PoolKeeps(x: Wait, mv: Move, threads: nat)
    requires Inv(x.st) && Balanced(x.st) && Capped(x.st, threads) && May(x, mv)
    ensures Inv(Go(x, mv).st) && Balanced(Go(x, mv).st) && Capped(Go(x, mv).st, threads)
  {
    hide Inv, Balanced, Capped, Enabled, Do;
    UnderIsEnabled(x, mv);
    match Under(x, mv) {
      case None =>
      case Some(step) =>
        StepKeeps(x.st, step);
        StepBalances(x.st, step);
        CapStays(x.st, step, threads);
    }
  }

  /** What a step inside the pool never does behind a reader's back. */
  predicate LeftAlone(mem: Member, next: Member) {
    && next.pushed == mem.pushed && next.buf == mem.buf && next.njobs == mem.njobs
    && (next.meta.Open? <==> mem.meta.Open?)
    && (next.feeder.Shut? || next.feeder.Closing? <==> mem.feeder.Shut? || mem.feeder.Closing?)
    && (mem.feeder.Shut? ==> next.feeder.Shut?)
  }

  predicate ByFeeder(step: Step) {
    || step.FlushJob? || step.FlushEnqueue? || step.FlushDone? || step.CloseJob? || step.CloseEnqueue? || step.CloseDone?
    || step.MetaSeal?
  }

  lemma FeederStepLeaves(st: State, step: Step, m: nat)
    requires Enabled(st, step) && ByFeeder(step) && m < |st.mems|
    ensures |Do(st, step).mems| == |st.mems| && LeftAlone(st.mems[m], Do(st, step).mems[m])
  {
    hide Readers, Without, Admitted, DoRunHash, AddMember;
  }

  lemma WorkStepLeaves(st: State, step: Step, m: nat)
    requires Enabled(st, step) && Internal(step) && !ByFeeder(step) && m < |st.mems|
    ensures |Do(st, step).mems| == |st.mems| && LeftAlone(st.mems[m], Do(st, step).mems[m])
  {
    hide Readers, Without, Admitted, AddMember;
  }

  lemma InsideLeaves(st: State, step: Step, m: nat)
    requires CanGo(st, step) && m < |st.mems|
    ensures |Do(st, step).mems| == |st.mems| && LeftAlone(st.mems[m], Do(st, step).mems[m])
  {
    hide Do, Enabled, LeftAlone;
    if ByFeeder(step) {
      FeederStepLeaves(st, step, m);
    } else {
      WorkStepLeaves(st, step, m);
    }
  }

  lemma InsideReaders(st: State, step: Step, w: nat)
    requires CanGo(st, step) && w < |st.workers|
    ensures |Do(st, step).workers| == |st.workers|
    ensures Do(st, step).workers[w] == st.workers[w] || (!Do(st, step).workers[w].Reading? && !st.workers[w].Reading?)
  {
    hide Readers, Admitted;
    WorkersAfter(st, step);
  }

  lemma InsideMember(x: Wait, step: Step, m: nat)
    requires Served(x) && May(x, Inside(step)) && m < |x.st.mems|
    ensures m < |Go(x, Inside(step)).st.mems| && MemberServed(Go(x, Inside(step)), m)
  {
    hide Do, Enabled, Internal;
    InsideLeaves(x.st, step, m);
    var y := Go(x, Inside(step));
    assert MemberServed(x, m);
    if BeingRead(x, m) {
      var w :| 0 <= w < |x.st.workers| && x.st.workers[w] == Reading(m);
      InsideReaders(x.st, step, w);
      assert y.st.workers[w] == Reading(m);
    }
  }

  lemma InsideServes(x: Wait, step: Step)
    requires Served(x) && May(x, Inside(step))
    ensures Served(Go(x, Inside(step)))
  {
    hide Do, Enabled, Internal, MemberServed;
    var y := Go(x, Inside(step));
    InsideCount(x.st, step);
    forall m | 0 <= m < |y.st.mems|
      ensures MemberServed(y, m)
    {
      InsideMember(x, step, m);
    }
    forall w | 0 <= w < |y.st.workers| && y.st.workers[w].Reading?
      ensures y.st.workers[w].m !in y.queued
    {
      InsideReaders(x.st, step, w);
    }
  }

  lemma InsideCount(st: State, step: Step)
    requires CanGo(st, step)
    ensures |Do(st, step).mems| == |st.mems| && |Do(st, step).workers| == |st.workers|
  {
    hide Readers, Without, Admitted, AddMember;
  }

  /** A reader's own move changes no other member and no worker. */
  lemma ReaderServes(x: Wait, mv: Move)
    requires Served(x) && May(x, mv) && (mv.Feed? || mv.GiveUp? || mv.Flush? || mv.Close?)
    ensures Served(Go(x, mv))
  {
    hide Admitted;
    var y := Go(x, mv);
    assert y.st.workers == x.st.workers;
    forall m | 0 <= m < |y.st.mems|
      ensures MemberServed(y, m)
    {
      assert MemberServed(x, m);
      if BeingRead(x, m) {
        assert BeingRead(y, m);
      }
    }
  }

  lemma TakeServes(x: Wait, w: nat, m: nat)
    requires Served(x) && May(x, Take(w, m))
    ensures Served(Go(x, Take(w, m)))
  {
    hide Readers;
    var y := Go(x, Take(w, m));
    assert y.st.workers[w] == Reading(m);
    forall i | 0 <= i < |y.st.mems|
      ensures MemberServed(y, i)
    {
      assert MemberServed(x, i);
      if i != m && BeingRead(x, i) {
        var v :| 0 <= v < |x.st.workers| && x.st.workers[v] == Reading(i);
        assert y.st.workers[v] == Reading(i);
      }
    }
  }

  lemma LeaveServes(x: Wait, w: nat)
    requires Served(x) && May(x, Leave(w))
    ensures Served(Go(x, Leave(w)))
  {
    var y := Go(x, Leave(w));
    forall i | 0 <= i < |y.st.mems|
      ensures MemberServed(y, i)
    {
      assert MemberServed(x, i);
      if BeingRead(x, i) && !x.st.mems[i].feeder.Shut? {
        var v :| 0 <= v < |x.st.workers| && x.st.workers[v] == Reading(i);
        assert y.st.workers[v] == Reading(i);
      }
    }
  }

  lemma MoveKeeps(x: Wait, mv: Move, threads: nat)
    requires Waits(x, threads) && May(x, mv)
    ensures Waits(Go(x, mv), threads)
  {
    hide Inv, Balanced, Capped, Served, Go, May;
    PoolKeeps(x, mv, threads);
    match mv {
      case Inside(step) => InsideServes(x, step);
      case Take(w, m) => TakeServes(x, w, m);
      case Leave(w) => LeaveServes(x, w);
      case _ => ReaderServes(x, mv);
    }
  }

  // ------------------------------------------------------------- what is left to do

  /** A flush and a close each go round every job; a byte read weighs a little more than one in the buffer. */
  function Round(njobs: nat): nat {
    2 + 12 * njobs
  }

  function Owed(mem: Member, rest: Bytes): nat {
    (Round(mem.njobs) + 1) * |rest| + Round(mem.njobs) * |mem.buf|
    + (if mem.feeder.Closing? || mem.feeder.Shut? then 0 else Round(mem.njobs))
  }

  function SumOwed(mems: seq<Member>, left: map<nat, Bytes>, n: nat): nat
    requires n <= |mems|
  {
    if n == 0 then 0 else SumOwed(mems, left, n - 1) + (if n - 1 in left then Owed(mems[n - 1], left[n - 1]) else 0)
  }

  function ToDo(x: Wait): nat {
    Effort(x.st) + SumOwed(x.st.mems, x.left, |x.st.mems|) + 2 * |x.queued| + Readers(x.st.workers, |x.st.workers|)
  }

  lemma {:induction false} OwedSame(x: Wait, y: Wait, n: nat)
    requires n <= |x.st.mems| && n <= |y.st.mems| && x.left.Keys == y.left.Keys
    requires forall m :: 0 <= m < n && m in x.left ==> Owed(x.st.mems[m], x.left[m]) == Owed(y.st.mems[m], y.left[m])
    ensures SumOwed(x.st.mems, x.left, n) == SumOwed(y.st.mems, y.left, n)
  {
    hide Owed;
    if n > 0 {
      OwedSame(x, y, n - 1);
      assert n - 1 in x.left <==> n - 1 in y.left;
    }
  }

  lemma {:induction false} OwedBut(x: Wait, y: Wait, m: nat, n: nat)
    requires n <= |x.st.mems| && n <= |y.st.mems| && x.left.Keys == y.left.Keys && m < n && m in x.left
    requires forall i :: 0 <= i < n && i != m ==> x.st.mems[i] == y.st.mems[i] && (i in x.left ==> x.left[i] == y.left[i])
    ensures SumOwed(y.st.mems, y.left, n) + Owed(x.st.mems[m], x.left[m]) == SumOwed(x.st.mems, x.left, n) + Owed(y.st.mems[m], y.left[m])
  {
    hide Owed;
    assert n - 1 in x.left <==> n - 1 in y.left;
    if m == n - 1 {
      OwedSame(x, y, n - 1);
    } else {
      OwedBut(x, y, m, n - 1);
    }
  }

  lemma {:induction false} ReadersAlike(a: seq<Worker>, b: seq<Worker>, n: nat)
    requires n <= |a| && n <= |b| && forall v :: 0 <= v < n ==> (a[v].Reading? <==> b[v].Reading?)
    ensures Readers(a, n) == Readers(b, n)
  {
    if n > 0 {
      ReadersAlike(a, b, n - 1);
    }
  }

  lemma InsideLessens(x: Wait, step: Step, threads: nat)
    requires Waits(x, threads) && May(x, Inside(step))
    ensures ToDo(Go(x, Inside(step))) < ToDo(x)
  {
    hide Inv, Balanced, Capped, Served, Do, Enabled, Internal, Effort;
    var y := Go(x, Inside(step));
    EffortFalls(x.st, step);
    InsideCount(x.st, step);
    forall m | 0 <= m < |x.st.mems| && m in x.left
      ensures Owed(x.st.mems[m], x.left[m]) == Owed(y.st.mems[m], y.left[m])
    {
      InsideLeaves(x.st, step, m);
    }
    OwedSame(x, y, |x.st.mems|);
    forall v | 0 <= v < |x.st.workers|
      ensures x.st.workers[v].Reading? <==> y.st.workers[v].Reading?
    {
      InsideReaders(x.st, step, v);
    }
    ReadersAlike(x.st.workers, y.st.workers, |x.st.workers|);
  }

  lemma EffortAtMember(st: State, m: nat, mem: Member)
    requires Inv(st) && m < |st.mems| && mem.njobs == st.mems[m].njobs
    ensures Effort(SetMem(st, m, mem)) + MemberEffort(st.mems[m]) == Effort(st) + MemberEffort(mem)
  {
    hide Inv, JobInv, Total, MemberEffort, JobEffort;
    MemberIs(st, m);
    MemberHasJobs(st.mems[m]);
    JobMoves(st, SetMem(st, m, mem), JobId(m, 0), EFFORT);
  }

  lemma EffortReads(a: State, b: State)
    requires a.jobs == b.jobs && a.mems == b.mems && a.workers == b.workers && a.queue == b.queue
    ensures Effort(a) == Effort(b)
  {
    TotalReads(a, b, EFFORT);
  }

  /** What one member and its reader still have to do. */
  function Share(mem: Member, rest: Bytes): nat {
    MemberEffort(mem) + Owed(mem, rest)
  }

  lemma FeedLessens(mem: Member, rest: Bytes, n: nat)
    requires 0 < n <= |rest|
    ensures Share(mem.(pushed := mem.pushed + rest[..n], buf := mem.buf + rest[..n]), rest[n..]) < Share(mem, rest)
  {
    hide Round;
    var r := Round(mem.njobs);
    assert (r + 1) * |rest| == (r + 1) * (|rest| - n) + (r + 1) * n;
    assert r * (|mem.buf| + n) == r * |mem.buf| + r * n;
  }

  lemma GiveUpLessens(mem: Member, rest: Bytes)
    requires rest != []
    ensures Share(mem, []) < Share(mem, rest)
  {
    hide Round;
    assert (Round(mem.njobs) + 1) * |rest| >= |rest|;
  }

  lemma FlushLessens(mem: Member, rest: Bytes)
    requires mem.feeder.Ready? && mem.buf != []
    ensures Share(mem.(feeder := Flushing(mem.buf, 0, false), buf := []), rest) < Share(mem, rest)
  {
    hide Round;
    var next := mem.(feeder := Flushing(mem.buf, 0, false), buf := []);
    AtLeastOnce(Round(mem.njobs), |mem.buf|);
    VisitsAreShort(mem.njobs);
    assert MemberEffort(next) == MemberEffort(mem) + Visits(mem.njobs, 0, false);
  }

  lemma AtLeastOnce(r: nat, b: nat)
    requires b >= 1
    ensures r * b >= r
  {
  }

  lemma VisitsAreShort(njobs: nat)
    ensures Visits(njobs, 0, false) < Round(njobs)
  {
  }

  lemma CloseLessens(mem: Member, rest: Bytes)
    requires mem.feeder.Ready?
    ensures Share(mem.(feeder := Closing(0, false)), rest) < Share(mem, rest)
  {
  }

  lemma ShareLessens(x: Wait, mv: Move)
    requires May(x, mv) && (mv.Feed? || mv.GiveUp? || mv.Flush? || mv.Close?)
    ensures var y := Go(x, mv);
      && |y.st.mems| == |x.st.mems| && y.st.mems == x.st.mems[mv.m := y.st.mems[mv.m]] && y.st.workers == x.st.workers
      && y.st.mems[mv.m].njobs == x.st.mems[mv.m].njobs && y.queued == x.queued
      && y.left.Keys == x.left.Keys && (forall i :: i in x.left && i != mv.m ==> y.left[i] == x.left[i])
      && y.st.jobs == x.st.jobs && y.st.queue == x.st.queue
      && Share(y.st.mems[mv.m], y.left[mv.m]) < Share(x.st.mems[mv.m], x.left[mv.m])
  {
    hide Share, Admitted;
    match mv {
      case Feed(_, m, n) => FeedLessens(x.st.mems[m], x.left[m], n);
      case GiveUp(_, m) => GiveUpLessens(x.st.mems[m], x.left[m]);
      case Flush(_, m) => FlushLessens(x.st.mems[m], x.left[m]);
      case Close(_, m) => CloseLessens(x.st.mems[m], x.left[m]);
    }
  }

  lemma ReaderLessens(x: Wait, mv: Move, threads: nat)
    requires Waits(x, threads) && May(x, mv) && (mv.Feed? || mv.GiveUp? || mv.Flush? || mv.Close?)
    ensures ToDo(Go(x, mv)) < ToDo(x)
  {
    hide Inv, Balanced, Capped, Served, Effort, Go, MemberEffort, Owed;
    var y := Go(x, mv);
    ShareLessens(x, mv);
    OwedBut(x, y, mv.m, |x.st.mems|);
    EffortAtMember(x.st, mv.m, y.st.mems[mv.m]);
    EffortReads(y.st, SetMem(x.st, mv.m, y.st.mems[mv.m]));
  }

  lemma WorkerEffortStands(st: State, w: nat, wk: Worker)
    requires w < |st.workers| && WorkerEffort(st.workers[w]) == WorkerEffort(wk)
    ensures Effort(SetWorker(st, w, wk)) == Effort(st)
  {
    hide Total;
    WorkerMoves(st, SetWorker(st, w, wk), w, EFFORT);
  }

  lemma WorkerLessens(x: Wait, mv: Move)
    requires May(x, mv) && (mv.Take? || mv.Leave?)
    ensures ToDo(Go(x, mv)) < ToDo(x)
  {
    hide Effort, Owed, SumOwed;
    var y := Go(x, mv);
    WorkerEffortStands(x.st, mv.w, y.st.workers[mv.w]);
    ReadersBut(x.st.workers, y.st.workers, mv.w, |x.st.workers|);
  }

  /** Every move leaves less to do. */
  lemma MoveLessens(x: Wait, mv: Move, threads: nat)
    requires Waits(x, threads) && May(x, mv)
    ensures ToDo(Go(x, mv)) < ToDo(x)
  {
    hide Waits, ToDo, May, Go;
    match mv {
      case Inside(step) => InsideLessens(x, step, threads);
      case Take(_, _) => WorkerLessens(x, mv);
      case Leave(_) => WorkerLessens(x, mv);
      case _ => ReaderLessens(x, mv, threads);
    }
  }

  // ------------------------------------------------------------- someone can always go on

  /** A worker reading a member not yet shut has a move, or something inside the pool has. */
  lemma ReaderGoesOn(x: Wait, w: nat, m: nat, free: nat) returns (mv: Move)
    requires Inv(x.st) && Balanced(x.st) && Reads(x, w, m) && !x.st.mems[m].feeder.Shut?
    requires free < |x.st.workers| && !x.st.workers[free].Reading?
    ensures May(x, mv)
  {
    hide Inv, Balanced, CanGo;
    if !x.st.mems[m].feeder.Ready? {
      var step := FeederGoesOn(x.st, m);
      return Inside(step);
    }
    var mem := x.st.mems[m];
    if x.left[m] != [] && |mem.buf| < CHUNK {
      return Feed(w, m, 1);
    }
    if mem.buf == [] {
      return Close(w, m);
    }
    if Enabled(x.st, BeginFlush(m)) {
      return Flush(w, m);
    }
    var step := ChargeGoesOn(x.st, free);
    mv := Inside(step);
  }

  lemma SomeoneReads(x: Wait, threads: nat) returns (w: nat)
    requires Capped(x.st, threads) && Readers(x.st.workers, threads) >= ReaderCap(threads)
    ensures w < |x.st.workers| && x.st.workers[w].Reading?
  {
    if forall v :: 0 <= v < threads ==> !x.st.workers[v].Reading? {
      NoneReads(x.st.workers, threads);
      assert false;
    }
    w :| 0 <= w < threads && x.st.workers[w].Reading?;
  }

  lemma {:induction false} NoneReads(ws: seq<Worker>, n: nat)
    requires n <= |ws| && forall v :: 0 <= v < n ==> !ws[v].Reading?
    ensures Readers(ws, n) == 0
  {
    if n > 0 {
      NoneReads(ws, n - 1);
    }
  }

  /** A queued read task is taken by a free worker, unless readers are at their cap; and then a reader
      goes on, or leaves. */
  lemma QueuedGoesOn(x: Wait, m: nat, free: nat, threads: nat) returns (mv: Move)
    requires Waits(x, threads) && m < |x.st.mems| && m in x.queued && !x.st.mems[m].feeder.Shut?
    requires free < |x.st.workers| && !x.st.workers[free].Reading?
    ensures May(x, mv)
  {
    hide Inv, Balanced, CanGo;
    if !x.st.workers[free].Free? {
      var step := WorkerGoesOn(x.st, free);
      return Inside(step);
    }
    if Readers(x.st.workers, threads) < ReaderCap(threads) {
      return Take(free, m);
    }
    var w := SomeoneReads(x, threads);
    var i := x.st.workers[w].m;
    ReadsKnown(x.st, w);
    if x.st.mems[i].feeder.Shut? {
      return Leave(w);
    }
    assert MemberServed(x, i);
    mv := ReaderGoesOn(x, w, i, free);
  }

  lemma ReadsKnown(st: State, w: nat)
    requires Inv(st) && w < |st.workers| && st.workers[w].Reading?
    ensures st.workers[w].m < |st.mems|
  {
    hide JobInv, MemInv;
    assert WorkerInv(st, w);
  }

  /** As long as some member is unsealed, something can happen. */
  lemma WaitGoesOn(x: Wait, m: nat, threads: nat) returns (mv: Move)
    requires Waits(x, threads) && threads >= 2 && m < |x.st.mems| && x.st.mems[m].sealed.None?
    ensures May(x, mv)
  {
    hide Inv, Balanced, Capped, CanGo;
    var free := SomeoneNotReading(x.st, threads);
    if i :| 0 <= i < |x.st.mems| && !x.st.mems[i].feeder.Shut? {
      assert MemberServed(x, i);
      if i in x.queued {
        mv := QueuedGoesOn(x, i, free, threads);
      } else {
        var w :| 0 <= w < |x.st.workers| && x.st.workers[w] == Reading(i);
        mv := ReaderGoesOn(x, w, i, free);
      }
    } else {
      assert AllClosed(x.st) by {
        forall i | 0 <= i < |x.st.mems|
          ensures x.st.mems[i].feeder.Shut? && !x.st.mems[i].meta.Open?
        {
          assert MemberServed(x, i);
        }
      }
      var step := UnsealedGoesOn(x.st, m, free);
      mv := Inside(step);
    }
  }

  // ------------------------------------------------------------- the whole of what was read

  /** What member `m` has been fed and is still to be fed. */
  function Whole(x: Wait, m: nat): Bytes
    requires m < |x.st.mems|
  {
    x.st.mems[m].pushed + (if m in x.left then x.left[m] else [])
  }

  lemma FeedKeepsWhole(x: Wait, mv: Move, m: nat)
    requires May(x, mv) && !mv.Inside? && m < |x.st.mems| && !(mv.GiveUp? && mv.m == m)
    ensures |Go(x, mv).st.mems| == |x.st.mems| && Whole(Go(x, mv), m) == Whole(x, m)
  {
    hide Readers, Admitted;
    if mv.Feed? && mv.m == m {
      var rest := x.left[m];
      assert rest[..mv.n] + rest[mv.n..] == rest;
      Reassoc(x.st.mems[m].pushed, rest[..mv.n], rest[mv.n..]);
    }
  }

  lemma MoveKeepsWhole(x: Wait, mv: Move, m: nat)
    requires May(x, mv) && m < |x.st.mems| && !(mv.GiveUp? && mv.m == m)
    ensures m < |Go(x, mv).st.mems| && Whole(Go(x, mv), m) == Whole(x, m)
  {
    hide Do, Enabled;
    if mv.Inside? {
      InsideLeaves(x.st, mv.step, m);
    } else {
      FeedKeepsWhole(x, mv, m);
    }
  }

  predicate GivenUp(moves: seq<Move>, m: nat) {
    exists i :: 0 <= i < |moves| && moves[i].GiveUp? && moves[i].m == m
  }

  lemma MoveKeepsCount(x: Wait, mv: Move)
    requires May(x, mv)
    ensures |Go(x, mv).st.mems| == |x.st.mems|
  {
    hide Readers, Admitted, Do;
    match mv {
      case Inside(step) => InsideCount(x.st, step);
      case _ => NoMember(x, mv);
    }
  }

  lemma NoMember(x: Wait, mv: Move)
    requires May(x, mv) && !mv.Inside?
    ensures |Go(x, mv).st.mems| == |x.st.mems|
  {
    hide Readers, Admitted;
  }

  lemma {:induction false} MovesAreBounded(x: Wait, moves: seq<Move>, threads: nat)
    requires Waits(x, threads) && Goes(x, moves)
    ensures |moves| <= ToDo(x)
    ensures Waits(Gone(x, moves), threads) && |Gone(x, moves).st.mems| == |x.st.mems|
    decreases |moves|
  {
    hide Waits, May, Go, ToDo;
    if moves != [] {
      MoveKeeps(x, moves[0], threads);
      MoveLessens(x, moves[0], threads);
      MoveKeepsCount(x, moves[0]);
      MovesAreBounded(Go(x, moves[0]), moves[1..], threads);
    }
  }

  lemma {:induction false} MovesKeepWhole(x: Wait, moves: seq<Move>, m: nat)
    requires Goes(x, moves) && m < |x.st.mems| && !GivenUp(moves, m)
    ensures m < |Gone(x, moves).st.mems| && Whole(Gone(x, moves), m) == Whole(x, m)
    decreases |moves|
  {
    hide May, Go, Whole;
    if moves != [] {
      assert !(moves[0].GiveUp? && moves[0].m == m);
      MoveKeepsWhole(x, moves[0], m);
      assert forall i :: 0 <= i < |moves[1..]| ==> moves[1..][i] == moves[i + 1];
      MovesKeepWhole(Go(x, moves[0]), moves[1..], m);
    }
  }

  // ------------------------------------------------------------- waiting ends

  lemma SealedIsShut(x: Wait, m: nat, threads: nat)
    requires Waits(x, threads) && m < |x.st.mems| && x.st.mems[m].sealed.Some?
    ensures WholeSeal(x.st.mems[m], x.st.mems[m].sealed.value) && Whole(x, m) == x.st.mems[m].pushed
  {
    hide Inv, Balanced, Capped;
    MemberIs(x.st, m);
    SealedMeansClosed(x.st, m);
    assert MemberServed(x, m);
  }

  /** A pool of two threads or more is waited on with nothing left in the walker's hands, its read
      tasks queued or under way. Then what is left to do comes to an end within `ToDo` moves; and where
      nothing more can happen every member is sealed, over the whole of what it had been fed and its
      read had still to give, unless that read was given up. */
  lemma WaitingEnds(threads: nat, steps: seq<Step>, x: Wait, more: seq<Move>)
    requires threads >= 2 && Runs(Start(threads), steps) && x.st == After(Start(threads), steps) && Served(x)
    requires Goes(x, more)
    ensures |more| <= ToDo(x)
    ensures var end := Gone(x, more);
      (forall mv :: !May(end, mv)) ==>
        && |end.st.mems| == |x.st.mems|
        && forall m :: 0 <= m < |end.st.mems| ==>
             var mem := end.st.mems[m];
             mem.sealed.Some? && WholeSeal(mem, mem.sealed.value) && (!GivenUp(more, m) ==> mem.pushed == Whole(x, m))
  {
    hide Inv, Runs, After, ToDo, May, Go, Balanced, Capped, Served, Whole, WholeSeal, GivenUp;
    FromStart(threads, steps);
    MovesAreBounded(x, more, threads);
    var end := Gone(x, more);
    if forall mv :: !May(end, mv) {
      forall m | 0 <= m < |end.st.mems|
        ensures end.st.mems[m].sealed.Some? && WholeSeal(end.st.mems[m], end.st.mems[m].sealed.value)
        ensures !GivenUp(more, m) ==> end.st.mems[m].pushed == Whole(x, m)
      {
        if end.st.mems[m].sealed.None? {
          var mv := WaitGoesOn(end, m, threads);
        }
        SealedIsShut(end, m, threads);
        if !GivenUp(more, m) {
          MovesKeepWhole(x, more, m);
        }
      }
    }
  }
}
