/** Where a submitted job goes, in what order jobs are taken, and what closing leaves of the queue. */
module PoolQueue {
  import opened PoolMachine
  import opened PoolJobs

  // ---------------------------------------------------------------- submitting

  /** The capacity a pool is made with, four places a worker unless it is given. */
  function Capacity(cnt: int, size: int): nat {
    if size > 0 then size else if cnt > 0 then 4 * cnt else 4
  }

  lemma {:induction false} QueueStaysBounded(p: Pool, acts: seq<Action>)
    requires |p.queue| <= p.queueCap && IsRun(p, acts)
    ensures |Final(p, acts).queue| <= Final(p, acts).queueCap == p.queueCap
    decreases |acts|
  {
    if acts != [] {
      QueueStaysBounded(Do(p, acts[0]), acts[1..]);
    }
  }

  /** The queue never holds more than its capacity. */
  lemma QueueIsBounded(cnt: int, size: int, acts: seq<Action>)
    requires IsRun(New(cnt, size), acts)
    ensures |Final(New(cnt, size), acts).queue| <= Capacity(cnt, size)
  {
    QueueStaysBounded(New(cnt, size), acts);
  }

  /** In any state of a run, a job submitted while there is room goes to the end of the queue, and nothing
      else happens: the goroutines are as they were. Only when the queue is full does its submitter become
      the goroutine that runs it, and the queue is as it was. */
  lemma SubmittedJobIsPlaced(cnt: int, size: int, acts: seq<Action>, t: nat)
    requires IsRun(New(cnt, size), acts) && Can(Final(New(cnt, size), acts), Submit(t))
    ensures var p := Final(New(cnt, size), acts);
            var q, j := Do(p, Submit(t)), |p.jobs|;
            && q.jobs[..j] == p.jobs && |q.jobs| == j + 1 && Untouched(q.jobs[j]) && q.jobs[j].ctxLive
            && if |p.queue| < Capacity(cnt, size) then
                 q.queue == p.queue + [j] && q.threads == p.threads
               else
                 q.queue == p.queue && t !in p.threads && q.threads == p.threads[t := Thread(false, Took(j))]
  {
    QueueStaysBounded(New(cnt, size), acts);
  }

  /** Goroutines appear in two steps. */
  lemma WhoAppears(p: Pool, a: Action, t: nat)
    requires Can(p, a) && t !in p.threads && t in Do(p, a).threads
    ensures a == Spawn(t) || (a == Submit(t) && |p.queue| >= p.queueCap)
  {
  }

  /** A goroutine that is no worker of the pool appears only in the submission of a job to a full queue. */
  lemma CallersRunOnlyWhenFull(cnt: int, size: int, acts: seq<Action>, a: Action, t: nat)
    requires IsRun(New(cnt, size), acts) && Can(Final(New(cnt, size), acts), a)
    requires var p := Final(New(cnt, size), acts);
             t !in p.threads && t in Do(p, a).threads && !Do(p, a).threads[t].worker
    ensures a == Submit(t) && |Final(New(cnt, size), acts).queue| == Capacity(cnt, size)
  {
    QueueStaysBounded(New(cnt, size), acts);
    WhoAppears(Final(New(cnt, size), acts), a, t);
  }

  // ---------------------------------------------------------------- taking

  /** Jobs are taken in the order they were submitted: the one taken was submitted before all those that
      stay in the queue, and those stay in their order. */
  lemma OldestIsTaken(cnt: int, size: int, acts: seq<Action>, t: nat)
    requires IsRun(New(cnt, size), acts) && Can(Final(New(cnt, size), acts), Take(t))
    ensures var p := Final(New(cnt, size), acts);
            var q := Do(p, Take(t));
            && q.threads[t].phase.Took? && q.threads[t].worker
            && p.queue == [q.threads[t].phase.job] + q.queue
            && forall k :: 0 <= k < |q.queue| ==> q.threads[t].phase.job < q.queue[k]
  {
    NewInv(cnt, size);
    RunKeeps(New(cnt, size), acts);
    var p := Final(New(cnt, size), acts);
    var q := Do(p, Take(t));
    assert forall k :: 0 <= k < |q.queue| ==> q.queue[k] == p.queue[k + 1];
  }

  /** A goroutine that has counted its job runs it, unless it is a worker and the job's context has ended;
      then it dismisses the job, and never both. */
  lemma CountedJobHasOneWayOn(cnt: int, size: int, acts: seq<Action>, t: nat)
    requires IsRun(New(cnt, size), acts)
    requires var p := Final(New(cnt, size), acts); t in p.threads && p.threads[t].phase.Counted?
    ensures var p := Final(New(cnt, size), acts);
            var j := p.threads[t].phase.job;
            && j < |p.jobs|
            && (Can(p, Start(t)) <==> !p.threads[t].worker || p.jobs[j].ctxLive)
            && (Can(p, Dismiss(t)) <==> p.threads[t].worker && !p.jobs[j].ctxLive)
            && (Can(p, Start(t)) ==> Do(p, Start(t)).jobs[j].ran == 1)
            && (Can(p, Dismiss(t)) ==> Do(p, Dismiss(t)).jobs[j].answered == 1)
  {
    NewInv(cnt, size);
    RunKeeps(New(cnt, size), acts);
    var p := Final(New(cnt, size), acts);
    assert HeldBy(p, t, p.threads[t].phase.job);
  }

  // ---------------------------------------------------------------- closing

  /** No worker will come any more. */
  predicate NoMoreWorkers(p: Pool) {
    !p.closing.Open? && !p.resize.Growing?
  }

  lemma {:induction false} GoneStay(p: Pool, acts: seq<Action>)
    requires NoMoreWorkers(p) && (p.closing.Closed? ==> AllGone(p)) && IsRun(p, acts)
    ensures var q := Final(p, acts); NoMoreWorkers(q) && (q.closing.Closed? ==> AllGone(q))
    decreases |acts|
  {
    if acts != [] {
      GoneStay(Do(p, acts[0]), acts[1..]);
    }
  }

  /** When `Close` has returned, every worker is gone and stays gone, as long as no grow was under way when
      it began. */
  lemma ClosedMeansGone(cnt: int, size: int, before: seq<Action>, acts: seq<Action>)
    requires IsRun(New(cnt, size), before) && IsRun(Final(New(cnt, size), before), acts)
    requires var p := Final(New(cnt, size), before); NoMoreWorkers(p) && !p.closing.Closed?
    ensures var q := Final(Final(New(cnt, size), before), acts); q.closing.Closed? ==> AllGone(q)
  {
    GoneStay(Final(New(cnt, size), before), acts);
  }

  lemma {:induction false} QueueIsLeft(p: Pool, acts: seq<Action>)
    requires p.closing.Closed? && AllGone(p) && !p.resize.Growing? && IsRun(p, acts)
    ensures Final(p, acts).queue == p.queue
    ensures var q := Final(p, acts); q.closing.Closed? && AllGone(q) && !q.resize.Growing?
    decreases |acts|
  {
    if acts != [] {
      QueueIsLeft(Do(p, acts[0]), acts[1..]);
    }
  }

  lemma Prepend(p: Pool, a: Action, rest: seq<Action>)
    requires Can(p, a) && IsRun(Do(p, a), rest)
    ensures IsRun(p, [a] + rest) && Final(p, [a] + rest) == Final(Do(p, a), rest)
  {
    assert ([a] + rest)[1..] == rest;
  }

  /** `Close` does not wait for the queue: a job can be left in it, never run and never answered, when the
      one worker sees the cancelled root context first. */
  lemma QueuedJobCanBeLeft() returns (acts: seq<Action>)
    ensures IsRun(New(1, 1), acts)
    ensures var p := Final(New(1, 1), acts);
            && p.closing.Closed? && p.queue == [0] && |p.jobs| == 1 && Untouched(p.jobs[0])
            && forall rest :: IsRun(p, rest) ==> Final(p, rest).queue == [0]
  {
    var p0 := New(1, 1);
    var p3 := Do(Do(Do(p0, Submit(1)), Flag), Cancel);
    var p4 := Do(p3, Quit(0));
    var tail := CloseEmptyPool(p4);
    Prepend(p3, Quit(0), tail);
    var p2 := Do(Do(p0, Submit(1)), Flag);
    Prepend(p2, Cancel, [Quit(0)] + tail);
    Prepend(Do(p0, Submit(1)), Flag, [Cancel] + ([Quit(0)] + tail));
    acts := [Submit(1)] + ([Flag] + ([Cancel] + ([Quit(0)] + tail)));
    Prepend(p0, Submit(1), [Flag] + ([Cancel] + ([Quit(0)] + tail)));
    var p := Final(p0, acts);
    forall rest | IsRun(p, rest)
      ensures Final(p, rest).queue == [0]
    {
      QueueIsLeft(p, rest);
    }
  }

  /** The rest of `Close` on a pool of one whose worker has left. */
  lemma CloseEmptyPool(p: Pool) returns (acts: seq<Action>)
    requires p.closing.Cancelled? && AllGone(p) && p.workers == 1 && p.kill == 0 && p.killCap == 2
    ensures IsRun(p, acts) && Final(p, acts) == p.(closing := Closed, kill := 1)
  {
    var p1 := Do(p, CloseJobs);
    var p2 := Do(p1, TestCounter);
    var p3 := Do(p2, PushCloseToken);
    var p4 := Do(p3, TestCounter);
    var p5 := Do(p4, Join);
    assert IsRun(p5, []);
    Prepend(p4, Join, []);
    Prepend(p3, TestCounter, [Join] + []);
    Prepend(p2, PushCloseToken, [TestCounter] + ([Join] + []));
    Prepend(p1, TestCounter, [PushCloseToken] + ([TestCounter] + ([Join] + [])));
    acts := [CloseJobs] + ([TestCounter] + ([PushCloseToken] + ([TestCounter] + ([Join] + []))));
    Prepend(p, CloseJobs, [TestCounter] + ([PushCloseToken] + ([TestCounter] + ([Join] + []))));
  }
}
