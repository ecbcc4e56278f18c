/** The resizable worker pool as a machine whose steps are its channel operations and atomic
    counter updates, in any interleaving of workers, submitters, one resizer and `Close`. */
module PoolMachine {

  /** Where a goroutine of the pool stands. */
  datatype Phase =
    | Waiting                // in the worker's select
    | Took(job: nat)         // holds a job, not yet counted as active
    | Counted(job: nat)      // counted as active
    | Running(job: nat)
    | Finishing(job: nat)    // the job returned or panicked; its response is due
    | Releasing(job: nat)    // still counted as active
    | Gone
  {
    predicate Holds(j: nat) {
      !Waiting? && !Gone? && job == j
    }

    predicate IsCounted() {
      Counted? || Running? || Finishing? || Releasing?
    }

    /** Steps left until the goroutine waits again or is gone. */
    function Distance(): nat {
      match this
      case Took(_) => 5
      case Counted(_) => 4
      case Running(_) => 3
      case Finishing(_) => 2
      case Releasing(_) => 1
      case _ => 0
    }
  }

  /** A pool worker, or a caller running its own job because the queue was full. */
  datatype Thread = Thread(worker: bool, phase: Phase)

  /** What has happened to a submitted job; `buffered` counts the responses in its channel. */
  datatype Job = Job(ctxLive: bool, finished: bool, ran: nat, answered: nat, buffered: nat)

  datatype Resizing =
    | NoResize
    | Growing(n: nat, left: nat)
    | Shrinking(n: nat, left: nat)

  /** How far `Close` has got. Its loop reads the counter (`Testing`) and only then sends
      (`Pushing`): the counter may change in between. */
  datatype Closing = Open | Flagged | Cancelled | Testing(sent: nat) | Pushing(sent: nat) | Joining | Closed

  datatype Pool = Pool(
    queueCap: nat,
    killCap: nat,
    queue: seq<nat>,
    kill: nat,
    threads: map<nat, Thread>,
    workers: nat,
    active: int,
    jobs: seq<Job>,
    resize: Resizing,
    closing: Closing)

  const RESP_CAPACITY := 1

  function New(workerCnt: int, queueSize: int): Pool {
    var cnt := if workerCnt <= 0 then 1 else workerCnt;
    var size := if queueSize <= 0 then cnt * 4 else queueSize;
    Pool(size, cnt * 2, [], 0, FirstWorkers(cnt), cnt, 0, [], NoResize, Open)
  }

  function FirstWorkers(n: nat): (threads: map<nat, Thread>)
    ensures forall t: nat :: t in threads <==> t < n
    ensures forall t :: t in threads ==> threads[t] == Thread(true, Waiting)
  {
    if n == 0 then map[] else FirstWorkers(n - 1)[n - 1 := Thread(true, Waiting)]
  }

  datatype Action =
    | Submit(t: nat)         // `t` names the caller's goroutine if it has to run the job itself
    | Take(t: nat)
    | Count(t: nat)
    | Dismiss(t: nat)        // the job's context has ended before it ran
    | Start(t: nat)
    | Finish(t: nat)
    | Respond(t: nat)
    | GiveUp(t: nat)         // the job's context ended first
    | Release(t: nat)
    | Die(t: nat)            // takes a kill token
    | Quit(t: nat)           // sees the root context cancelled (the job channel closes later)
    | EndContext(j: nat)
    | Receive(j: nat)
    | Resize(n: int)
    | Spawn(t: nat)
    | PushKill
    | StoreWorkers
    | Flag
    | Cancel
    | CloseJobs
    | TestCounter
    | PushCloseToken
    | Join

  predicate Is(p: Pool, t: nat, worker: bool, phase: Phase) {
    t in p.threads && p.threads[t] == Thread(worker, phase)
  }

  /** The thread's job in the given kind of phase. */
  predicate Holding(p: Pool, t: nat) {
    t in p.threads && !p.threads[t].phase.Waiting? && !p.threads[t].phase.Gone?
    && p.threads[t].phase.job < |p.jobs|
  }

  predicate RootCancelled(p: Pool) {
    !p.closing.Open? && !p.closing.Flagged?
  }

  predicate JobsClosed(p: Pool) {
    RootCancelled(p) && !p.closing.Cancelled?
  }

  /** No worker is left. */
  predicate AllGone(p: Pool) {
    forall t :: t in p.threads && p.threads[t].worker ==> p.threads[t].phase.Gone?
  }

  predicate Can(p: Pool, a: Action) {
    match a
    // Sending on a closed job channel panics, so no job is submitted from then on.
    case Submit(t) => !JobsClosed(p) && t !in p.threads
    case Take(t) => Is(p, t, true, Waiting) && p.queue != []
    case Count(t) => Holding(p, t) && p.threads[t].phase.Took?
    case Dismiss(t) =>
      && Holding(p, t) && p.threads[t].worker && p.threads[t].phase.Counted?
      && !p.jobs[p.threads[t].phase.job].ctxLive
    // Only a worker looks at the context before it runs the job.
    case Start(t) =>
      && Holding(p, t) && p.threads[t].phase.Counted?
      && (p.threads[t].worker ==> p.jobs[p.threads[t].phase.job].ctxLive)
    case Finish(t) => Holding(p, t) && p.threads[t].phase.Running?
    case Respond(t) =>
      && Holding(p, t) && p.threads[t].phase.Finishing?
      && p.jobs[p.threads[t].phase.job].buffered < RESP_CAPACITY
    case GiveUp(t) =>
      && Holding(p, t) && p.threads[t].phase.Finishing?
      && !p.jobs[p.threads[t].phase.job].ctxLive
    case Release(t) => Holding(p, t) && p.threads[t].phase.Releasing?
    case Die(t) => Is(p, t, true, Waiting) && p.kill > 0
    case Quit(t) => Is(p, t, true, Waiting) && RootCancelled(p)
    case EndContext(j) => j < |p.jobs|
    case Receive(j) => j < |p.jobs| && p.jobs[j].buffered > 0
    case Resize(n) => p.resize.NoResize?
    case Spawn(t) => p.resize.Growing? && p.resize.left > 0 && t !in p.threads
    // Once `Close` has closed the token channel, a resize still under way panics.
    case PushKill => p.resize.Shrinking? && p.resize.left > 0 && p.kill < p.killCap && !p.closing.Closed?
    case StoreWorkers => !p.resize.NoResize? && p.resize.left == 0
    case Flag => p.closing.Open?
    case Cancel => p.closing.Flagged?
    case CloseJobs => p.closing.Cancelled?
    case TestCounter => p.closing.Testing?
    case PushCloseToken => p.closing.Pushing? && p.kill < p.killCap
    case Join => p.closing.Joining? && AllGone(p)
  }

  function At(p: Pool, t: nat, phase: Phase): Pool
    requires t in p.threads
  {
    p.(threads := p.threads[t := p.threads[t].(phase := phase)])
  }

  function Do(p: Pool, a: Action): Pool
    requires Can(p, a)
  {
    match a
    case Submit(t) =>
      var j := |p.jobs|;
      var q := p.(jobs := p.jobs + [Job(true, false, 0, 0, 0)]);
      if |p.queue| < p.queueCap then q.(queue := p.queue + [j])
      else q.(threads := p.threads[t := Thread(false, Took(j))])
    case Take(t) => At(p, t, Took(p.queue[0])).(queue := p.queue[1..])
    case Count(t) => At(p, t, Counted(p.threads[t].phase.job)).(active := p.active + 1)
    case Dismiss(t) =>
      var j := p.threads[t].phase.job;
      var job := if p.jobs[j].buffered < RESP_CAPACITY then Answer(p.jobs[j]) else p.jobs[j];
      At(p, t, Releasing(j)).(jobs := p.jobs[j := job])
    case Start(t) =>
      var j := p.threads[t].phase.job;
      At(p, t, Running(j)).(jobs := p.jobs[j := p.jobs[j].(ran := p.jobs[j].ran + 1)])
    case Finish(t) => At(p, t, Finishing(p.threads[t].phase.job))
    case Respond(t) =>
      var j := p.threads[t].phase.job;
      At(p, t, Releasing(j)).(jobs := p.jobs[j := Answer(p.jobs[j])])
    case GiveUp(t) => At(p, t, Releasing(p.threads[t].phase.job))
    case Release(t) =>
      var j := p.threads[t].phase.job;
      At(p, t, if p.threads[t].worker then Waiting else Gone)
      .(active := p.active - 1, jobs := p.jobs[j := p.jobs[j].(finished := true)])
    case Die(t) => At(p, t, Gone).(kill := p.kill - 1)
    case Quit(t) => At(p, t, Gone)
    case EndContext(j) => p.(jobs := p.jobs[j := p.jobs[j].(ctxLive := false)])
    case Receive(j) => p.(jobs := p.jobs[j := p.jobs[j].(buffered := p.jobs[j].buffered - 1)])
    case Resize(n) =>
      if n < 0 || !p.closing.Open? || n == p.workers then p
      else if n > p.workers then p.(resize := Growing(n, n - p.workers))
      else p.(resize := Shrinking(n, p.workers - n))
    case Spawn(t) =>
      p.(threads := p.threads[t := Thread(true, Waiting)], resize := Growing(p.resize.n, p.resize.left - 1))
    case PushKill => p.(kill := p.kill + 1, resize := Shrinking(p.resize.n, p.resize.left - 1))
    case StoreWorkers => p.(workers := p.resize.n, resize := NoResize)
    case Flag => p.(closing := Flagged)
    case Cancel => p.(closing := Cancelled)
    case CloseJobs => p.(closing := Testing(0))
    case TestCounter => p.(closing := if p.closing.sent < p.workers then Pushing(p.closing.sent) else Joining)
    case PushCloseToken => p.(kill := p.kill + 1, closing := Testing(p.closing.sent + 1))
    case Join => p.(closing := Closed)
  }

  function Answer(j: Job): Job {
    j.(answered := j.answered + 1, buffered := j.buffered + 1)
  }

  predicate IsRun(p: Pool, acts: seq<Action>)
    decreases |acts|
  {
    acts == [] || (Can(p, acts[0]) && IsRun(Do(p, acts[0]), acts[1..]))
  }

  function Final(p: Pool, acts: seq<Action>): Pool
    requires IsRun(p, acts)
    decreases |acts|
  {
    if acts == [] then p else Final(Do(p, acts[0]), acts[1..])
  }

  lemma {:induction false} RunConcat(p: Pool, a: seq<Action>, b: seq<Action>)
    requires IsRun(p, a) && IsRun(Final(p, a), b)
    ensures IsRun(p, a + b) && Final(p, a + b) == Final(Final(p, a), b)
    decreases |a|
  {
    if a == [] {
      assert a + b == b;
    } else {
      RunConcat(Do(p, a[0]), a[1..], b);
      assert (a + b)[1..] == a[1..] + b;
    }
  }

  // ---------------------------------------------------------------- counting goroutines

  /** The goroutines that satisfy `who`. */
  function Those(threads: map<nat, Thread>, who: Thread -> bool): set<nat> {
    set t | t in threads && who(threads[t])
  }

  function Number(threads: map<nat, Thread>, who: Thread -> bool): nat {
    |Those(threads, who)|
  }

  function Counts(threads: map<nat, Thread>, t: nat, who: Thread -> bool): nat {
    if t in threads && who(threads[t]) then 1 else 0
  }

  lemma NumberAfter(threads: map<nat, Thread>, t: nat, th: Thread, who: Thread -> bool)
    ensures Number(threads[t := th], who) == Number(threads, who) - Counts(threads, t, who) + (if who(th) then 1 else 0)
  {
    var before, after := Those(threads, who), Those(threads[t := th], who);
    if who(th) {
      assert after == before - {t} + {t};
      assert |before - {t}| == |before| - Counts(threads, t, who);
    } else {
      assert after == before - {t};
    }
  }
}
