/** Totals over the pool's jobs, members and workers, and how one step moves them. */
module PoolTotals {
  import opened Wrappers
  import opened ByteStrings
  import opened Pool

  /** What one job, one member and one worker weigh. */
  datatype Weights = Weights(job: Job -> nat, member: Member -> nat, worker: Worker -> nat)

  function JobWeight(jobs: map<JobId, Job>, j: JobId, f: Job -> nat): nat {
    if j in jobs then f(jobs[j]) else 0
  }

  function SumJobs(jobs: map<JobId, Job>, m: nat, n: nat, f: Job -> nat): nat {
    if n == 0 then 0 else SumJobs(jobs, m, n - 1, f) + JobWeight(jobs, JobId(m, n - 1), f)
  }

  function SumMembers(jobs: map<JobId, Job>, mems: seq<Member>, n: nat, wt: Weights): nat
    requires n <= |mems|
  {
    if n == 0 then 0
    else SumMembers(jobs, mems, n - 1, wt) + SumJobs(jobs, n - 1, mems[n - 1].njobs, wt.job) + wt.member(mems[n - 1])
  }

  function SumWorkers(ws: seq<Worker>, n: nat, f: Worker -> nat): nat
    requires n <= |ws|
  {
    if n == 0 then 0 else SumWorkers(ws, n - 1, f) + f(ws[n - 1])
  }

  function Total(st: State, wt: Weights): nat {
    SumMembers(st.jobs, st.mems, |st.mems|, wt) + SumWorkers(st.workers, |st.workers|, wt.worker)
  }

  lemma {:induction false} SumJobsSame(a: map<JobId, Job>, b: map<JobId, Job>, m: nat, n: nat, f: Job -> nat)
    requires forall s :: 0 <= s < n ==> JobWeight(a, JobId(m, s), f) == JobWeight(b, JobId(m, s), f)
    ensures SumJobs(a, m, n, f) == SumJobs(b, m, n, f)
  {
    if n > 0 {
      SumJobsSame(a, b, m, n - 1, f);
    }
  }

  lemma {:induction false} SumJobsBut(a: map<JobId, Job>, b: map<JobId, Job>, j: JobId, n: nat, f: Job -> nat)
    requires j.s < n && j in a && j in b && b == a[j := b[j]]
    ensures SumJobs(b, j.m, n, f) + f(a[j]) == SumJobs(a, j.m, n, f) + f(b[j])
  {
    if j.s == n - 1 {
      assert j == JobId(j.m, n - 1);
      SumJobsSame(a, b, j.m, n - 1, f);
    } else {
      SumJobsBut(a, b, j, n - 1, f);
    }
  }

  lemma {:induction false} SumMembersSame(a: State, b: State, n: nat, wt: Weights, j: JobId)
    requires n <= |a.mems| && n <= |b.mems| && n <= j.m && forall m :: 0 <= m < n ==> a.mems[m] == b.mems[m]
    requires forall i: JobId :: i.m < n ==> JobWeight(a.jobs, i, wt.job) == JobWeight(b.jobs, i, wt.job)
    ensures SumMembers(a.jobs, a.mems, n, wt) == SumMembers(b.jobs, b.mems, n, wt)
  {
    if n > 0 {
      SumMembersSame(a, b, n - 1, wt, j);
      SumJobsSame(a.jobs, b.jobs, n - 1, a.mems[n - 1].njobs, wt.job);
    }
  }

  /** One job and its member differ. */
  predicate AtOneJob(a: State, b: State, j: JobId) {
    && j in a.jobs && j in b.jobs && b.jobs == a.jobs[j := b.jobs[j]]
    && |b.mems| == |a.mems| && j.m < |a.mems| && b.mems == a.mems[j.m := b.mems[j.m]]
    && b.mems[j.m].njobs == a.mems[j.m].njobs && j.s < a.mems[j.m].njobs
  }

  lemma {:induction false} SumMembersBut(a: State, b: State, j: JobId, n: nat, wt: Weights)
    requires AtOneJob(a, b, j) && j.m < n <= |a.mems|
    ensures SumMembers(b.jobs, b.mems, n, wt) + wt.job(a.jobs[j]) + wt.member(a.mems[j.m])
         == SumMembers(a.jobs, a.mems, n, wt) + wt.job(b.jobs[j]) + wt.member(b.mems[j.m])
  {
    if j.m == n - 1 {
      SumMembersSame(a, b, n - 1, wt, j);
      SumJobsBut(a.jobs, b.jobs, j, a.mems[j.m].njobs, wt.job);
    } else {
      SumMembersBut(a, b, j, n - 1, wt);
      SumJobsSame(a.jobs, b.jobs, n - 1, a.mems[n - 1].njobs, wt.job);
    }
  }

  lemma {:induction false} SumWorkersSame(a: seq<Worker>, b: seq<Worker>, n: nat, f: Worker -> nat)
    requires n <= |a| && n <= |b| && forall v :: 0 <= v < n ==> a[v] == b[v]
    ensures SumWorkers(a, n, f) == SumWorkers(b, n, f)
  {
    if n > 0 {
      SumWorkersSame(a, b, n - 1, f);
    }
  }

  lemma {:induction false} SumWorkersBut(a: seq<Worker>, b: seq<Worker>, w: nat, n: nat, f: Worker -> nat)
    requires w < n <= |a| == |b| && b == a[w := b[w]]
    ensures SumWorkers(b, n, f) + f(a[w]) == SumWorkers(a, n, f) + f(b[w])
  {
    if w == n - 1 {
      SumWorkersSame(a, b, n - 1, f);
    } else {
      SumWorkersBut(a, b, w, n - 1, f);
    }
  }

  // ------------------------------------------------------------- how a step moves a total

  lemma JobMoves(a: State, b: State, j: JobId, wt: Weights)
    requires AtOneJob(a, b, j) && b.workers == a.workers
    ensures Total(b, wt) + wt.job(a.jobs[j]) + wt.member(a.mems[j.m]) == Total(a, wt) + wt.job(b.jobs[j]) + wt.member(b.mems[j.m])
  {
    SumMembersBut(a, b, j, |a.mems|, wt);
  }

  lemma WorkerMoves(a: State, b: State, w: nat, wt: Weights)
    requires b.jobs == a.jobs && b.mems == a.mems && w < |a.workers| == |b.workers| && b.workers == a.workers[w := b.workers[w]]
    ensures Total(b, wt) + wt.worker(a.workers[w]) == Total(a, wt) + wt.worker(b.workers[w])
  {
    SumWorkersBut(a.workers, b.workers, w, |a.workers|, wt.worker);
  }

  lemma BothMove(a: State, b: State, j: JobId, w: nat, wt: Weights)
    requires AtOneJob(a, b, j) && w < |a.workers| == |b.workers| && b.workers == a.workers[w := b.workers[w]]
    ensures Total(b, wt) + wt.job(a.jobs[j]) + wt.member(a.mems[j.m]) + wt.worker(a.workers[w])
         == Total(a, wt) + wt.job(b.jobs[j]) + wt.member(b.mems[j.m]) + wt.worker(b.workers[w])
  {
    SumMembersBut(a, b, j, |a.mems|, wt);
    SumWorkersBut(a.workers, b.workers, w, |a.workers|, wt.worker);
  }

  /** A new member brings only itself. */
  lemma MemberJoins(st: State, njobs: nat, wt: Weights)
    requires forall j :: j in st.jobs ==> j.m < |st.mems|
    ensures var next := AddMember(st, njobs);
      Total(next, wt) == Total(st, wt) + SumJobs(next.jobs, |st.mems|, njobs, wt.job) + wt.member(next.mems[|st.mems|])
  {
    var next := AddMember(st, njobs);
    SumMembersSame(st, next, |st.mems|, wt, JobId(|st.mems|, 0));
  }

  /** Jobs with nothing pending weigh nothing. */
  lemma {:induction false} FreshJobsWeigh(st: State, njobs: nat, n: nat, f: Job -> nat)
    requires n <= njobs && f(Job([], Some([]), false, false)) == 0
    ensures SumJobs(AddMember(st, njobs).jobs, |st.mems|, n, f) == 0
  {
    if n > 0 {
      FreshJobsWeigh(st, njobs, n - 1, f);
      assert JobId(|st.mems|, n - 1) in NewJobs(|st.mems|, njobs);
    }
  }

  // ------------------------------------------------------------- what a total of nothing, or of something, says

  lemma {:induction false} SomeJobWeighs(jobs: map<JobId, Job>, m: nat, n: nat, f: Job -> nat) returns (s: nat)
    requires SumJobs(jobs, m, n, f) > 0
    ensures s < n && JobWeight(jobs, JobId(m, s), f) > 0
  {
    if JobWeight(jobs, JobId(m, n - 1), f) > 0 {
      s := n - 1;
    } else {
      s := SomeJobWeighs(jobs, m, n - 1, f);
    }
  }

  lemma {:induction false} SomeMemberWeighs(jobs: map<JobId, Job>, mems: seq<Member>, n: nat, wt: Weights) returns (m: nat)
    requires n <= |mems| && SumMembers(jobs, mems, n, wt) > 0
    ensures m < n && (SumJobs(jobs, m, mems[m].njobs, wt.job) > 0 || wt.member(mems[m]) > 0)
  {
    if SumJobs(jobs, n - 1, mems[n - 1].njobs, wt.job) > 0 || wt.member(mems[n - 1]) > 0 {
      m := n - 1;
    } else {
      m := SomeMemberWeighs(jobs, mems, n - 1, wt);
    }
  }

  lemma {:induction false} SomeWorkerWeighs(ws: seq<Worker>, n: nat, f: Worker -> nat) returns (w: nat)
    requires n <= |ws| && SumWorkers(ws, n, f) > 0
    ensures w < n && f(ws[w]) > 0
  {
    if f(ws[n - 1]) > 0 {
      w := n - 1;
    } else {
      w := SomeWorkerWeighs(ws, n - 1, f);
    }
  }
}
