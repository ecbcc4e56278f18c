/** What the pool promises about jobs: each submitted job is in one place, runs at most once and is
    answered at most once, and `active` counts the jobs taken and not yet released. A job is queued,
    or held by one goroutine whose phase says what it has been through, or finished; steps move one
    job from one of these places to the next, and resizing and closing move none. */
module PoolJobs {
  import opened PoolMachine

  /** What a job has been through when a goroutine holds it in this phase. */
  predicate Fits(job: Job, phase: Phase) {
    && !job.finished && job.buffered <= job.answered
    && match phase
       case Took(_) => job.ran == 0 && job.answered == 0
       case Counted(_) => job.ran == 0 && job.answered == 0
       case Running(_) => job.ran == 1 && job.answered == 0
       case Finishing(_) => job.ran == 1 && job.answered == 0
       case Releasing(_) => Through(job)
       case _ => false
  }

  predicate Untouched(job: Job) {
    !job.finished && job.ran == 0 && job.answered == 0 && job.buffered == 0
  }

  /** It ran once and was answered, or its context ended, on the way or before it could run; in the
      last case it was answered too. */
  predicate Through(job: Job) {
    && job.ran <= 1 && job.answered <= 1 && job.buffered <= job.answered
    && (job.ran == 0 ==> job.answered == 1 && !job.ctxLive)
    && (job.answered == 0 ==> !job.ctxLive)
  }

  predicate HeldBy(p: Pool, t: nat, j: nat) {
    t in p.threads && p.threads[t].phase.Holds(j)
  }

  ghost predicate QueueInv(p: Pool) {
    && (forall i, k :: 0 <= i < k < |p.queue| ==> p.queue[i] < p.queue[k])
    && (forall i :: 0 <= i < |p.queue| ==> p.queue[i] < |p.jobs| && Untouched(p.jobs[p.queue[i]]))
  }

  ghost predicate HolderInv(p: Pool) {
    && (forall t: nat, j: nat ::
          HeldBy(p, t, j) ==> j < |p.jobs| && Fits(p.jobs[j], p.threads[t].phase) && j !in p.queue)
    && (forall t: nat, u: nat, j: nat :: HeldBy(p, t, j) && HeldBy(p, u, j) ==> t == u)
  }

  ghost predicate PlaceInv(p: Pool) {
    forall j: nat :: j < |p.jobs| ==>
                  if p.jobs[j].finished then Through(p.jobs[j]) else j in p.queue || exists t: nat :: HeldBy(p, t, j)
  }

  function CountedThreads(p: Pool): nat {
    Number(p.threads, (th: Thread) => th.phase.IsCounted())
  }

  ghost predicate Inv(p: Pool) {
    QueueInv(p) && HolderInv(p) && PlaceInv(p) && p.active == CountedThreads(p)
  }

  // ---------------------------------------------------------------- steps

  lemma SubmitKeeps(p: Pool, t: nat)
    requires Inv(p) && Can(p, Submit(t))
    ensures Inv(Do(p, Submit(t)))
  {
    var n := |p.jobs|;
    var grown := p.(jobs := p.jobs + [Job(true, false, 0, 0, 0)]);
    assert forall j: nat :: j < n ==> grown.jobs[j] == p.jobs[j];
    if |p.queue| < p.queueCap {
      EnqueueKeeps(p, grown.(queue := p.queue + [n]));
    } else {
      InlineKeeps(p, t, grown.(threads := p.threads[t := Thread(false, Took(n))]));
    }
  }

  lemma EnqueueKeeps(p: Pool, q: Pool)
    requires Inv(p)
    requires q == p.(jobs := p.jobs + [Job(true, false, 0, 0, 0)], queue := p.queue + [|p.jobs|])
    ensures Inv(q)
  {
    assert forall u: nat, i: nat :: HeldBy(q, u, i) <==> HeldBy(p, u, i);
    assert forall j :: j in q.queue <==> j in p.queue || j == |p.jobs|;
  }

  lemma InlineKeeps(p: Pool, t: nat, q: Pool)
    requires Inv(p) && t !in p.threads
    requires q == p.(jobs := p.jobs + [Job(true, false, 0, 0, 0)],
                     threads := p.threads[t := Thread(false, Took(|p.jobs|))])
    ensures Inv(q)
  {
    assert HeldBy(q, t, |p.jobs|);
    assert forall u: nat, i: nat :: HeldBy(q, u, i) <==> HeldBy(p, u, i) || (u == t && i == |p.jobs|);
    NumberAfter(p.threads, t, Thread(false, Took(|p.jobs|)), (th: Thread) => th.phase.IsCounted());
  }

  lemma TakeKeeps(p: Pool, t: nat)
    requires Inv(p) && Can(p, Take(t))
    ensures Inv(Do(p, Take(t)))
  {
    var q := Do(p, Take(t));
    var first := p.queue[0];
    assert p.queue == [first] + q.queue;
    assert first !in q.queue;
    assert HeldBy(q, t, first);
    assert forall u: nat, i: nat :: HeldBy(q, u, i) <==> HeldBy(p, u, i) || (u == t && i == first);
    assert forall j :: j in p.queue <==> j in q.queue || j == first;
    NumberAfter(p.threads, t, q.threads[t], (th: Thread) => th.phase.IsCounted());
  }

  /** A goroutine goes on with the job it holds, which nobody else can see. */
  lemma MoveKeeps(p: Pool, t: nat, phase: Phase, job: Job)
    requires Inv(p) && Holding(p, t)
    requires phase.Holds(p.threads[t].phase.job) && Fits(job, phase)
    ensures var j := p.threads[t].phase.job;
            var counted := (if phase.IsCounted() then 1 else 0) - (if p.threads[t].phase.IsCounted() then 1 else 0);
            Inv(At(p, t, phase).(jobs := p.jobs[j := job], active := p.active + counted))
  {
    var j := p.threads[t].phase.job;
    var counted := (if phase.IsCounted() then 1 else 0) - (if p.threads[t].phase.IsCounted() then 1 else 0);
    var q := At(p, t, phase).(jobs := p.jobs[j := job], active := p.active + counted);
    assert HeldBy(p, t, j);
    assert forall u: nat, i: nat :: HeldBy(q, u, i) <==> HeldBy(p, u, i);
    NumberAfter(p.threads, t, q.threads[t], (th: Thread) => th.phase.IsCounted());
  }

  lemma ReleaseKeeps(p: Pool, t: nat)
    requires Inv(p) && Can(p, Release(t))
    ensures Inv(Do(p, Release(t)))
  {
    var q := Do(p, Release(t));
    var j := p.threads[t].phase.job;
    assert HeldBy(p, t, j);
    assert forall u: nat, i: nat :: HeldBy(q, u, i) <==> HeldBy(p, u, i) && u != t;
    NumberAfter(p.threads, t, q.threads[t], (th: Thread) => th.phase.IsCounted());
  }

  /** A goroutine that holds no job appears or goes. */
  lemma IdleKeeps(p: Pool, t: nat, th: Thread, q: Pool)
    requires Inv(p) && (t in p.threads ==> p.threads[t].phase.Waiting?)
    requires th.phase.Waiting? || th.phase.Gone?
    requires q.threads == p.threads[t := th] && q.queue == p.queue && q.jobs == p.jobs && q.active == p.active
    ensures Inv(q)
  {
    assert forall u: nat, i: nat :: HeldBy(q, u, i) <==> HeldBy(p, u, i);
    NumberAfter(p.threads, t, th, (th: Thread) => th.phase.IsCounted());
  }

  /** Something happens to a job from outside. */
  lemma JobKeeps(p: Pool, j: nat, job: Job)
    requires Inv(p) && j < |p.jobs|
    requires job == p.jobs[j].(ctxLive := false)
             || (p.jobs[j].buffered > 0 && job == p.jobs[j].(buffered := p.jobs[j].buffered - 1))
    ensures Inv(p.(jobs := p.jobs[j := job]))
  {
    var q := p.(jobs := p.jobs[j := job]);
    assert forall u: nat, i: nat :: HeldBy(q, u, i) <==> HeldBy(p, u, i);
  }

  lemma StepKeeps(p: Pool, a: Action)
    requires Inv(p) && Can(p, a)
    ensures Inv(Do(p, a))
  {
    match a
    case Submit(t) => SubmitKeeps(p, t);
    case Take(t) => TakeKeeps(p, t);
    case Release(t) => ReleaseKeeps(p, t);
    case Die(t) => IdleKeeps(p, t, Thread(true, Gone), Do(p, a));
    case Quit(t) => IdleKeeps(p, t, Thread(true, Gone), Do(p, a));
    case Spawn(t) => IdleKeeps(p, t, Thread(true, Waiting), Do(p, a));
    case EndContext(j) => JobKeeps(p, j, p.jobs[j].(ctxLive := false));
    case Receive(j) => JobKeeps(p, j, p.jobs[j].(buffered := p.jobs[j].buffered - 1));
    case Count(t) => CountKeeps(p, t);
    case Dismiss(_) => AnsweringStepKeeps(p, a);
    case Start(t) => StartKeeps(p, t);
    case Finish(t) => FinishKeeps(p, t);
    case Respond(_) => AnsweringStepKeeps(p, a);
    case GiveUp(_) => AnsweringStepKeeps(p, a);
    case _ => SameJobsKeep(p, Do(p, a));
  }

  /** Resizing and closing do not touch jobs. */
  lemma SameJobsKeep(p: Pool, q: Pool)
    requires Inv(p)
    requires q.queue == p.queue && q.threads == p.threads && q.jobs == p.jobs && q.active == p.active
    ensures Inv(q)
  {
    assert forall u: nat, i: nat :: HeldBy(q, u, i) <==> HeldBy(p, u, i);
  }

  lemma CountKeeps(p: Pool, t: nat)
    requires Inv(p) && Can(p, Count(t))
    ensures Inv(Do(p, Count(t)))
  {
    var j := p.threads[t].phase.job;
    assert HeldBy(p, t, j) && p.jobs[j := p.jobs[j]] == p.jobs;
    MoveKeeps(p, t, Counted(j), p.jobs[j]);
  }

  lemma StartKeeps(p: Pool, t: nat)
    requires Inv(p) && Can(p, Start(t))
    ensures Inv(Do(p, Start(t)))
  {
    var j := p.threads[t].phase.job;
    assert HeldBy(p, t, j);
    MoveKeeps(p, t, Running(j), p.jobs[j].(ran := p.jobs[j].ran + 1));
  }

  lemma FinishKeeps(p: Pool, t: nat)
    requires Inv(p) && Can(p, Finish(t))
    ensures Inv(Do(p, Finish(t)))
  {
    var j := p.threads[t].phase.job;
    assert HeldBy(p, t, j) && p.jobs[j := p.jobs[j]] == p.jobs;
    MoveKeeps(p, t, Finishing(j), p.jobs[j]);
  }

  lemma AnsweringStepKeeps(p: Pool, a: Action)
    requires Inv(p) && Can(p, a) && (a.Dismiss? || a.Respond? || a.GiveUp?)
    ensures Inv(Do(p, a))
  {
    var t, j := a.t, p.threads[a.t].phase.job;
    var job := p.jobs[j];
    assert HeldBy(p, t, j) && p.jobs[j := job] == p.jobs;
    MoveKeeps(p, t, Releasing(j), if a.GiveUp? then job else Answer(job));
  }

  lemma {:induction false} RunKeeps(p: Pool, acts: seq<Action>)
    requires Inv(p) && IsRun(p, acts)
    ensures Inv(Final(p, acts))
    decreases |acts|
  {
    if acts != [] {
      StepKeeps(p, acts[0]);
      RunKeeps(Do(p, acts[0]), acts[1..]);
    }
  }

  // ---------------------------------------------------------------- whole runs

  /** How many places the job is in: queue positions, goroutines that hold it, and the finished. */
  function Places(p: Pool, j: nat): nat
    requires j < |p.jobs|
  {
    multiset(p.queue)[j] + Number(p.threads, (th: Thread) => th.phase.Holds(j)) + (if p.jobs[j].finished then 1 else 0)
  }

  lemma {:induction false} IncreasingOccursOnce(s: seq<nat>, x: nat)
    requires forall i, k :: 0 <= i < k < |s| ==> s[i] < s[k]
    ensures multiset(s)[x] == if x in s then 1 else 0
  {
    if s != [] {
      var n := |s| - 1;
      IncreasingOccursOnce(s[..n], x);
      assert s == s[..n] + [s[n]];
    }
  }

  lemma InvMeansOnePlace(p: Pool, j: nat)
    requires Inv(p) && j < |p.jobs|
    ensures Places(p, j) == 1
  {
    IncreasingOccursOnce(p.queue, j);
    var holders := Those(p.threads, (th: Thread) => th.phase.Holds(j));
    if t: nat :| HeldBy(p, t, j) {
      assert holders == {t} by {
        forall u | u in holders
          ensures u == t
        {
          assert HeldBy(p, u, j);
        }
      }
    } else {
      forall u | u in holders
        ensures false
      {
        assert HeldBy(p, u, j);
      }
      assert holders == {};
    }
  }

  /** Job conservation on every run: each job submitted is in exactly one place, has run at most
      once and been answered at most once; a finished one ran, or its context ended and it was
      told so; `active` is the number of jobs counted and not yet released. */
  lemma JobsAreConserved(cnt: int, size: int, acts: seq<Action>, j: nat)
    requires IsRun(New(cnt, size), acts) && j < |Final(New(cnt, size), acts).jobs|
    ensures var p := Final(New(cnt, size), acts);
            && Places(p, j) == 1
            && p.jobs[j].ran <= 1 && p.jobs[j].answered <= 1
            && (p.jobs[j].finished ==> Through(p.jobs[j]))
            && p.active == Number(p.threads, (th: Thread) => th.phase.IsCounted())
  {
    var p := Final(New(cnt, size), acts);
    NewInv(cnt, size);
    RunKeeps(New(cnt, size), acts);
    InvMeansOnePlace(p, j);
    if j in p.queue {
      var i :| 0 <= i < |p.queue| && p.queue[i] == j;
    }
  }

  lemma NewInv(cnt: int, size: int)
    ensures Inv(New(cnt, size))
  {
    var p := New(cnt, size);
    assert Those(p.threads, (th: Thread) => th.phase.IsCounted()) == {};
  }

  /** The one-slot response channel never blocks: whoever owes a response can send it at once, on
      the worker's path and on the caller's own. */
  lemma RespondingNeverBlocks(cnt: int, size: int, acts: seq<Action>, t: nat)
    requires IsRun(New(cnt, size), acts)
    requires t in Final(New(cnt, size), acts).threads && Final(New(cnt, size), acts).threads[t].phase.Finishing?
    ensures Can(Final(New(cnt, size), acts), Respond(t))
  {
    var p := Final(New(cnt, size), acts);
    NewInv(cnt, size);
    RunKeeps(New(cnt, size), acts);
    assert HeldBy(p, t, p.threads[t].phase.job);
  }
}
