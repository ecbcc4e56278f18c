/** Kill tokens of the pool: how many workers are left to it, that a shrinking pool can always
    drain its tokens, and exactly when `Close` can push all of its own. */
module PoolTokens {
  import opened PoolMachine
  import opened PoolJobs

  predicate IsLive(th: Thread) {
    th.worker && !th.phase.Gone?
  }

  function LiveWorkers(p: Pool): nat {
    Number(p.threads, IsLive)
  }

  /** The workers the pool is to keep: the counter, corrected by what a resize has done so far. */
  function Standing(p: Pool): int {
    match p.resize
    case NoResize => p.workers
    case Growing(n, left) => n - left
    case Shrinking(n, left) => n + left
  }

  /** Until the root context is cancelled, each live worker is one to keep or has a token waiting. */
  ghost predicate Balanced(p: Pool) {
    && 0 < p.killCap && p.kill <= p.killCap
    && Standing(p) >= 0 && ResizeAimed(p)
    && (!RootCancelled(p) ==> LiveWorkers(p) == Standing(p) + p.kill)
  }

  /** A grow aims above the counter, a shrink below it. */
  predicate ResizeAimed(p: Pool) {
    match p.resize
    case NoResize => true
    case Growing(n, _) => p.workers < n
    case Shrinking(n, _) => n < p.workers
  }

  lemma NewBalanced(cnt: int, size: int)
    ensures Balanced(New(cnt, size))
  {
    var p := New(cnt, size);
    FirstWorkersLive(p.workers);
  }

  lemma {:induction false} FirstWorkersLive(n: nat)
    ensures Number(FirstWorkers(n), IsLive) == n
  {
    if n == 0 {
      assert Those(FirstWorkers(0), IsLive) == {};
    } else {
      FirstWorkersLive(n - 1);
      NumberAfter(FirstWorkers(n - 1), n - 1, Thread(true, Waiting), IsLive);
    }
  }

  /** The goroutine a step moves, if any. */
  function Mover(a: Action): (t: int) {
    match a
    case Submit(t) => t
    case Take(t) => t
    case Count(t) => t
    case Dismiss(t) => t
    case Start(t) => t
    case Finish(t) => t
    case Respond(t) => t
    case GiveUp(t) => t
    case Release(t) => t
    case Die(t) => t
    case Quit(t) => t
    case Spawn(t) => t
    case _ => -1
  }

  lemma StepBalanced(p: Pool, a: Action)
    requires Balanced(p) && Can(p, a)
    ensures Balanced(Do(p, a))
  {
    var q := Do(p, a);
    if Mover(a) >= 0 && Mover(a) in q.threads {
      MoverCounts(p, a);
    }
  }

  lemma MoverCounts(p: Pool, a: Action)
    requires Can(p, a) && Mover(a) >= 0 && Mover(a) in Do(p, a).threads
    ensures var q := Do(p, a);
            LiveWorkers(q) == LiveWorkers(p) + (if a.Spawn? then 1 else if a.Die? || a.Quit? then -1 else 0)
  {
    var q, t := Do(p, a), Mover(a);
    NumberAfter(p.threads, t, q.threads[t], IsLive);
    assert q.threads == p.threads[t := q.threads[t]];
  }

  lemma {:induction false} RunBalanced(p: Pool, acts: seq<Action>)
    requires Balanced(p) && IsRun(p, acts)
    ensures Balanced(Final(p, acts))
    decreases |acts|
  {
    if acts != [] {
      StepBalanced(p, acts[0]);
      RunBalanced(Do(p, acts[0]), acts[1..]);
    }
  }

  /** The balance on every run: outside a resize, the live workers are as many as the counter says
      plus the tokens still to be taken. */
  lemma WorkersBalanceTokens(cnt: int, size: int, acts: seq<Action>)
    requires IsRun(New(cnt, size), acts)
    ensures var p := Final(New(cnt, size), acts);
            && p.kill <= p.killCap
            && (p.resize.NoResize? && !RootCancelled(p) ==> LiveWorkers(p) == p.workers + p.kill)
            && (!RootCancelled(p) ==> p.kill <= LiveWorkers(p))
  {
    NewBalanced(cnt, size);
    RunBalanced(New(cnt, size), acts);
  }

  // ---------------------------------------------------------------- bringing a worker home

  ghost predicate Reached(p: Pool) {
    Inv(p) && Balanced(p)
  }

  /** What a goroutine can do next with the job it holds. */
  function Onward(p: Pool, t: nat): Action
    requires Holding(p, t)
  {
    match p.threads[t].phase
    case Took(_) => Count(t)
    case Counted(j) => if p.threads[t].worker && !p.jobs[j].ctxLive then Dismiss(t) else Start(t)
    case Running(_) => Finish(t)
    case Finishing(_) => Respond(t)
    case Releasing(_) => Release(t)
  }

  /** Everything but goroutine `t` and its job is the same. */
  predicate OnlyMoves(p: Pool, q: Pool, t: nat) {
    && q.kill == p.kill && q.killCap == p.killCap && q.workers == p.workers
    && q.resize == p.resize && q.closing == p.closing
    && q.threads.Keys == p.threads.Keys
    && (forall u :: u in p.threads && u != t ==> q.threads[u] == p.threads[u])
    && (t in p.threads ==> q.threads[t].worker == p.threads[t].worker)
  }

  lemma OnwardMoves(p: Pool, t: nat)
    requires Inv(p) && t in p.threads && IsLive(p.threads[t]) && !p.threads[t].phase.Waiting?
    ensures Holding(p, t) && Can(p, Onward(p, t))
    ensures var q := Do(p, Onward(p, t));
            OnlyMoves(p, q, t) && IsLive(q.threads[t]) && q.threads[t].phase.Distance() < p.threads[t].phase.Distance()
  {
    assert HeldBy(p, t, p.threads[t].phase.job);
  }

  /** A step of a goroutine with the job it holds, or its end on a token. */
  predicate OfWorker(a: Action) {
    a.Count? || a.Dismiss? || a.Start? || a.Finish? || a.Respond? || a.Release? || a.Die?
  }

  /** A live worker can always get back to its select: no step on the way blocks. */
  lemma {:induction false} BringHome(p: Pool, t: nat) returns (acts: seq<Action>)
    requires Reached(p) && t in p.threads && IsLive(p.threads[t])
    ensures IsRun(p, acts) && Reached(Final(p, acts))
    ensures OnlyMoves(p, Final(p, acts), t) && Is(Final(p, acts), t, true, Waiting)
    ensures forall a :: a in acts ==> OfWorker(a) && Mover(a) == t
    decreases p.threads[t].phase.Distance()
  {
    acts := [];
    if !p.threads[t].phase.Waiting? {
      OnwardMoves(p, t);
      var a := Onward(p, t);
      StepKeeps(p, a);
      StepBalanced(p, a);
      var rest := BringHome(Do(p, a), t);
      OnwardIsOwn(p, t);
      Prepend(p, a, rest);
      OnlyMovesFurther(p, Do(p, a), Final(Do(p, a), rest), t);
      acts := [a] + rest;
    }
  }

  lemma OnwardIsOwn(p: Pool, t: nat)
    requires Holding(p, t)
    ensures OfWorker(Onward(p, t)) && Mover(Onward(p, t)) == t
  {
  }

  lemma OnlyMovesFurther(p: Pool, q: Pool, r: Pool, t: nat)
    requires OnlyMoves(p, q, t) && OnlyMoves(q, r, t)
    ensures OnlyMoves(p, r, t)
  {
  }

  lemma Prepend(p: Pool, a: Action, rest: seq<Action>)
    requires Can(p, a) && IsRun(Do(p, a), rest)
    ensures IsRun(p, [a] + rest) && Final(p, [a] + rest) == Final(Do(p, a), rest)
  {
    assert ([a] + rest)[1..] == rest;
  }

  lemma OneStep(p: Pool, a: Action)
    requires Can(p, a)
    ensures IsRun(p, [a]) && Final(p, [a]) == Do(p, a)
  {
    assert IsRun(Do(p, a), []);
    assert [a][1..] == [];
  }

  lemma SomeLive(p: Pool) returns (t: nat)
    requires LiveWorkers(p) > 0
    ensures t in p.threads && IsLive(p.threads[t])
  {
    t :| t in Those(p.threads, IsLive);
  }

  // ---------------------------------------------------------------- shrinking

  /** The resize moves, or one of the pool's workers. */
  predicate ByWorkers(p: Pool, acts: seq<Action>) {
    forall a :: a in acts ==>
      a.PushKill? || a.StoreWorkers? || (OfWorker(a) && Mover(a) in p.threads && p.threads[Mover(a)].worker)
  }

  predicate SameWorkers(p: Pool, q: Pool) {
    forall t :: t in q.threads && q.threads[t].worker ==> t in p.threads && p.threads[t].worker
  }

  lemma SameLive(p: Pool, q: Pool, t: nat)
    requires OnlyMoves(p, q, t) && t in p.threads && IsLive(p.threads[t]) && IsLive(q.threads[t])
    ensures LiveWorkers(q) == LiveWorkers(p)
  {
    assert Those(q.threads, IsLive) == Those(p.threads, IsLive);
  }

  /** A live worker comes home and takes a token. */
  lemma TakeToken(p: Pool) returns (acts: seq<Action>)
    requires Reached(p) && LiveWorkers(p) > 0 && p.kill > 0
    ensures IsRun(p, acts) && Reached(Final(p, acts)) && ByWorkers(p, acts) && SameWorkers(p, Final(p, acts))
    ensures var q := Final(p, acts);
            && q.kill == p.kill - 1 && q.killCap == p.killCap && q.workers == p.workers
            && q.resize == p.resize && q.closing == p.closing && LiveWorkers(q) == LiveWorkers(p) - 1
  {
    var t := SomeLive(p);
    var home := BringHome(p, t);
    var q := Final(p, home);
    SameLive(p, q, t);
    StepKeeps(q, Die(t));
    StepBalanced(q, Die(t));
    MoverCounts(q, Die(t));
    OneStep(q, Die(t));
    RunConcat(p, home, [Die(t)]);
    acts := home + [Die(t)];
  }

  /** From any reachable state in the middle of a shrinking resize, the resize and the workers alone can
      bring it to its end: a full token channel always has a live worker to empty it. */
  lemma {:induction false} ShrinkCanFinish(p: Pool) returns (acts: seq<Action>)
    requires Reached(p) && !RootCancelled(p) && p.resize.Shrinking?
    ensures IsRun(p, acts) && ByWorkers(p, acts)
    ensures Final(p, acts).resize.NoResize? && Final(p, acts).workers == p.resize.n
    decreases p.resize.left, p.kill
  {
    if p.resize.left == 0 {
      OneStep(p, StoreWorkers);
      acts := [StoreWorkers];
    } else if p.kill < p.killCap {
      StepKeeps(p, PushKill);
      StepBalanced(p, PushKill);
      var rest := ShrinkCanFinish(Do(p, PushKill));
      Prepend(p, PushKill, rest);
      acts := [PushKill] + rest;
    } else {
      var take := TakeToken(p);
      var rest := ShrinkCanFinish(Final(p, take));
      StillByWorkers(p, Final(p, take), rest);
      RunConcat(p, take, rest);
      acts := take + rest;
    }
  }

  lemma StillByWorkers(p: Pool, q: Pool, acts: seq<Action>)
    requires SameWorkers(p, q) && ByWorkers(q, acts)
    ensures ByWorkers(p, acts)
  {
  }

  /** A resize of an open pool to any other number of workers can be brought to its end, and then the
      counter is that number and so many workers are left once the waiting tokens are taken. */
  lemma ResizeReachesTarget(p: Pool, n: nat) returns (acts: seq<Action>)
    requires Reached(p) && p.closing.Open? && p.resize.NoResize? && n != p.workers
    ensures IsRun(Do(p, Resize(n)), acts)
    ensures var q := Final(Do(p, Resize(n)), acts);
            q.resize.NoResize? && q.workers == n && LiveWorkers(q) == n + q.kill
  {
    StepKeeps(p, Resize(n));
    StepBalanced(p, Resize(n));
    var p1 := Do(p, Resize(n));
    if n > p.workers {
      acts := GrowEnds(p1);
    } else {
      acts := ShrinkCanFinish(p1);
      StaysOpen(p1, acts);
    }
    RunBalanced(p1, acts);
  }

  /** Neither workers nor a resize close the pool. */
  lemma {:induction false} StaysOpen(p: Pool, acts: seq<Action>)
    requires p.closing.Open? && IsRun(p, acts) && forall a :: a in acts ==> !a.Flag?
    ensures Final(p, acts).closing.Open?
    decreases |acts|
  {
    if acts != [] {
      assert acts[0] in acts;
      StaysOpen(Do(p, acts[0]), acts[1..]);
    }
  }

  // ---------------------------------------------------------------- closing

  /** `Close` is about to enter its token loop; a resize may be under way, but no other can begin. */
  predicate EntersLoop(p: Pool) {
    p.closing == Testing(0)
  }

  /** The highest value the loop may still read from the counter. */
  function Most(p: Pool): nat {
    if p.resize.Growing? then p.resize.n else p.workers
  }

  function Max(a: nat, b: nat): nat {
    if a < b then b else a
  }

  /** The tokens a resize under way has left to push. */
  function ResizeTokens(p: Pool): nat {
    if p.resize.Shrinking? then p.resize.left else 0
  }

  /** The tokens `Close` may still push: a test that has passed is followed by its send, whatever
      the counter says by then. */
  function CloseTokens(p: Pool): nat {
    match p.closing
    case Testing(sent) => Max(Most(p), sent) - sent
    case Pushing(sent) => Max(Most(p), sent + 1) - sent
    case _ => 0
  }

  /** The loop can never go on: it waits to send, the channel is full, nobody is left to take from
      it and nobody will come. */
  predicate Stuck(p: Pool) {
    && p.closing.Pushing? && p.kill == p.killCap && AllGone(p)
    && (p.resize.Growing? ==> p.resize.left == 0)
  }

  /** All tokens still to come fit into the channel. */
  predicate RoomLeft(p: Pool) {
    && (p.closing.Testing? || p.closing.Pushing? || p.closing.Joining? || p.closing.Closed?)
    && ResizeAimed(p) && p.kill + ResizeTokens(p) + CloseTokens(p) <= p.killCap
  }

  /** What is left of the loop, tests and sends. */
  function LoopLeft(p: Pool): nat {
    match p.closing
    case Testing(_) => 2 * CloseTokens(p) + 1
    case Pushing(_) => 2 * CloseTokens(p)
    case _ => 0
  }

  /** The steps of the loop in a run. */
  function LoopSteps(acts: seq<Action>): nat {
    if acts == [] then 0
    else (if InLoop(acts[0]) then 1 else 0) + LoopSteps(acts[1..])
  }

  predicate InLoop(a: Action) {
    a.TestCounter? || a.PushCloseToken?
  }

  /** What the loop may still do never grows, and its own steps use it up. */
  lemma LoopSpends(p: Pool, a: Action)
    requires RoomLeft(p) && Can(p, a) && InLoop(a)
    ensures RoomLeft(Do(p, a)) && 1 + LoopLeft(Do(p, a)) <= LoopLeft(p)
  {
  }

  predicate InResize(a: Action) {
    a.Spawn? || a.PushKill? || a.StoreWorkers?
  }

  lemma ResizeLeavesRoom(p: Pool, a: Action)
    requires RoomLeft(p) && Can(p, a) && InResize(a)
    ensures RoomLeft(Do(p, a)) && LoopLeft(Do(p, a)) <= LoopLeft(p)
  {
  }

  /** Nothing the tokens depend on changes, but that one of them may be taken. */
  lemma OthersLeaveRoom(p: Pool, a: Action)
    requires RoomLeft(p) && Can(p, a) && !InLoop(a) && !InResize(a)
    ensures RoomLeft(Do(p, a)) && LoopLeft(Do(p, a)) <= LoopLeft(p)
  {
    var q := Do(p, a);
    assert q.workers == p.workers && q.resize == p.resize && q.kill <= p.kill && q.killCap == p.killCap;
    assert q.closing == p.closing || q.closing.Closed?;
  }

  lemma {:induction false} RoomStays(p: Pool, acts: seq<Action>)
    requires RoomLeft(p) && IsRun(p, acts)
    ensures RoomLeft(Final(p, acts)) && LoopSteps(acts) + LoopLeft(Final(p, acts)) <= LoopLeft(p)
    decreases |acts|
  {
    if acts != [] {
      if InLoop(acts[0]) {
        LoopSpends(p, acts[0]);
      } else if InResize(acts[0]) {
        ResizeLeavesRoom(p, acts[0]);
      } else {
        OthersLeaveRoom(p, acts[0]);
      }
      RoomStays(Do(p, acts[0]), acts[1..]);
    }
  }

  /** With room for its own tokens, those waiting and those a resize has left, no schedule makes the
      loop wait, whatever the workers and the resize do, and the loop ends. */
  lemma CloseNeverWaits(p: Pool, acts: seq<Action>)
    requires Reached(p) && EntersLoop(p) && Most(p) + p.kill + ResizeTokens(p) <= p.killCap && IsRun(p, acts)
    ensures var q := Final(p, acts); q.closing.Pushing? ==> Can(q, PushCloseToken)
    ensures LoopSteps(acts) <= 2 * Most(p) + 1
  {
    RoomStays(p, acts);
  }

  /** Every worker can leave once the root context is cancelled. */
  lemma {:induction false} AllCanLeave(p: Pool) returns (acts: seq<Action>)
    requires Reached(p) && RootCancelled(p)
    ensures IsRun(p, acts) && AllGone(Final(p, acts)) && Reached(Final(p, acts))
    ensures var q := Final(p, acts);
            q.kill == p.kill && q.killCap == p.killCap && q.workers == p.workers
            && q.closing == p.closing && q.resize == p.resize
    decreases LiveWorkers(p)
  {
    acts := [];
    if LiveWorkers(p) > 0 {
      var t := SomeLive(p);
      var home := BringHome(p, t);
      var q := Final(p, home);
      SameLive(p, q, t);
      StepKeeps(q, Quit(t));
      StepBalanced(q, Quit(t));
      NumberAfter(q.threads, t, Thread(true, Gone), IsLive);
      var rest := AllCanLeave(Do(q, Quit(t)));
      Prepend(q, Quit(t), rest);
      RunConcat(p, home, [Quit(t)] + rest);
      acts := home + ([Quit(t)] + rest);
    } else {
      assert Those(p.threads, IsLive) == {};
      forall t | t in p.threads && p.threads[t].worker
        ensures p.threads[t].phase.Gone?
      {
        assert t !in Those(p.threads, IsLive);
      }
    }
  }

  /** A grow under way starts the workers it has left. */
  lemma {:induction false} GrowEnds(p: Pool) returns (acts: seq<Action>)
    requires Reached(p) && p.resize.Growing?
    ensures IsRun(p, acts) && Reached(Final(p, acts))
    ensures var q := Final(p, acts);
            q.resize.NoResize? && q.workers == p.resize.n && q.kill == p.kill
            && q.killCap == p.killCap && q.closing == p.closing
    decreases p.resize.left
  {
    if p.resize.left == 0 {
      StepKeeps(p, StoreWorkers);
      StepBalanced(p, StoreWorkers);
      OneStep(p, StoreWorkers);
      acts := [StoreWorkers];
    } else {
      var t := FreshName(p.threads.Keys);
      StepKeeps(p, Spawn(t));
      StepBalanced(p, Spawn(t));
      var rest := GrowEnds(Do(p, Spawn(t)));
      Prepend(p, Spawn(t), rest);
      acts := [Spawn(t)] + rest;
    }
  }

  lemma {:induction false} FreshName(taken: set<nat>) returns (t: nat)
    ensures t !in taken && forall u :: u in taken ==> u < t
  {
    t := 0;
    if u :| u in taken {
      var t' := FreshName(taken - {u});
      t := Max(t', u + 1);
      forall v | v in taken
        ensures v < t
      {
        assert v == u || v in taken - {u};
      }
    }
  }

  /** The resize pushes what it can while `Close` has not started. */
  lemma {:induction false} ResizePushes(p: Pool) returns (acts: seq<Action>)
    requires p.closing == Testing(0) && AllGone(p) && p.kill <= p.killCap && !p.resize.Growing?
    ensures IsRun(p, acts)
    ensures var q := Final(p, acts);
            && q.closing == Testing(0) && AllGone(q) && !q.resize.Growing?
            && q.killCap == p.killCap && q.workers == p.workers && q.kill <= q.killCap
            && q.kill + ResizeTokens(q) == p.kill + ResizeTokens(p)
            && (ResizeTokens(q) == 0 || q.kill == q.killCap)
    decreases ResizeTokens(p)
  {
    acts := [];
    if ResizeTokens(p) > 0 && p.kill < p.killCap {
      var rest := ResizePushes(Do(p, PushKill));
      Prepend(p, PushKill, rest);
      acts := [PushKill] + rest;
    }
  }

  /** Then `Close` pushes what it can. */
  lemma {:induction false} TokensFillUp(p: Pool) returns (acts: seq<Action>)
    requires p.closing.Testing? && AllGone(p) && p.kill <= p.killCap && !p.resize.Growing?
    requires p.closing.sent < p.workers && p.kill + p.workers - p.closing.sent > p.killCap
    ensures IsRun(p, acts) && Stuck(Final(p, acts))
    decreases p.killCap - p.kill
  {
    var p1 := Do(p, TestCounter);
    if p.kill < p.killCap {
      var rest := TokensFillUp(Do(p1, PushCloseToken));
      Prepend(p1, PushCloseToken, rest);
      Prepend(p, TestCounter, [PushCloseToken] + rest);
      acts := [TestCounter] + ([PushCloseToken] + rest);
    } else {
      OneStep(p, TestCounter);
      acts := [TestCounter];
    }
  }

  lemma {:induction false} StuckForGood(p: Pool, acts: seq<Action>)
    requires Stuck(p) && IsRun(p, acts)
    ensures Stuck(Final(p, acts))
    decreases |acts|
  {
    if acts != [] {
      StuckForGood(Do(p, acts[0]), acts[1..]);
    }
  }

  /** Without room, the workers may all leave on the cancelled context and the loop blocks for good. */
  lemma CloseCanBlock(p: Pool) returns (acts: seq<Action>)
    requires Reached(p) && EntersLoop(p) && Most(p) + p.kill + ResizeTokens(p) > p.killCap
    ensures IsRun(p, acts) && Stuck(Final(p, acts))
  {
    if p.resize.Growing? {
      var grow := GrowEnds(p);
      var block := SettledCloseCanBlock(Final(p, grow));
      RunConcat(p, grow, block);
      acts := grow + block;
    } else {
      acts := SettledCloseCanBlock(p);
    }
  }

  lemma SettledCloseCanBlock(p: Pool) returns (acts: seq<Action>)
    requires Reached(p) && EntersLoop(p) && !p.resize.Growing?
    requires p.workers + p.kill + ResizeTokens(p) > p.killCap
    ensures IsRun(p, acts) && Stuck(Final(p, acts))
  {
    var leave := AllCanLeave(p);
    var q := Final(p, leave);
    var push := ResizePushes(q);
    var fill := TokensFillUp(Final(q, push));
    RunConcat(q, push, fill);
    RunConcat(p, leave, push + fill);
    acts := leave + (push + fill);
  }

  /** Some schedule makes the loop wait for good. */
  ghost predicate CanGetStuck(p: Pool) {
    exists acts :: IsRun(p, acts) && Stuck(Final(p, acts))
  }

  lemma RoomMeansNeverStuck(p: Pool)
    requires RoomLeft(p)
    ensures !CanGetStuck(p)
  {
    if CanGetStuck(p) {
      var acts :| IsRun(p, acts) && Stuck(Final(p, acts));
      RoomStays(p, acts);
      assert false;
    }
  }

  /** No schedule blocks `Close`, with or without a resize under way, exactly when the highest counter it
      may read, the tokens waiting and the tokens a shrink has left fit into the channel. */
  lemma CloseNeverBlocksExactlyWhen(p: Pool)
    requires Reached(p) && EntersLoop(p)
    ensures Most(p) + p.kill + ResizeTokens(p) <= p.killCap <==> !CanGetStuck(p)
  {
    if Most(p) + p.kill + ResizeTokens(p) <= p.killCap {
      RoomMeansNeverStuck(p);
    } else {
      var acts := CloseCanBlock(p);
    }
  }

  // ---------------------------------------------------------------- a shrink that outlives `Close`

  /** Some schedule lets `Close` end while a shrink has tokens left: it would push the next one into the
      closed channel, which panics in Go. */
  ghost predicate CanLeaveShrink(p: Pool) {
    exists acts :: IsRun(p, acts) && Final(p, acts).closing.Closed? && ResizeTokens(Final(p, acts)) > 0
  }

  predicate AtLoop(p: Pool) {
    match p.closing
    case Testing(sent) => sent <= p.workers
    case Pushing(sent) => sent < p.workers
    case Joining => true
    case Closed => true
    case _ => false
  }

  /** What the loop has to push when the counter stays. */
  function Owed(p: Pool): int {
    match p.closing
    case Testing(sent) => p.workers - sent
    case Pushing(sent) => p.workers - sent
    case _ => 0
  }

  /** Without the shrink, the loop can push all its tokens: the live workers may each take one. */
  predicate Covered(p: Pool) {
    p.kill + Owed(p) <= p.killCap + LiveWorkers(p)
  }

  /** Once `Close` has begun no resize begins, so the tokens of one only get fewer. */
  lemma {:induction false} TokensOnlyGo(p: Pool, acts: seq<Action>)
    requires !p.closing.Open? && IsRun(p, acts)
    ensures ResizeTokens(Final(p, acts)) <= ResizeTokens(p)
    decreases |acts|
  {
    if acts != [] {
      TokensOnlyGo(Do(p, acts[0]), acts[1..]);
    }
  }

  /** A step of a shrinking pool does not cover what was not covered. */
  lemma CoveredBefore(p: Pool, a: Action)
    requires Can(p, a) && AtLoop(p) && ResizeTokens(p) > 0 && Covered(Do(p, a)) && p.kill <= p.killCap
    ensures Covered(p)
  {
    if Mover(a) >= 0 && Mover(a) in Do(p, a).threads {
      MoverCounts(p, a);
    }
  }

  lemma {:induction false} LeftShrinkWasCovered(p: Pool, acts: seq<Action>)
    requires Balanced(p) && AtLoop(p) && IsRun(p, acts)
    requires Final(p, acts).closing.Closed? && ResizeTokens(Final(p, acts)) > 0
    ensures ResizeTokens(p) > 0 && Covered(p)
    decreases |acts|
  {
    if acts != [] {
      TokensOnlyGo(p, acts);
      var next := Do(p, acts[0]);
      TokensOnlyGo(next, acts[1..]);
      StepBalanced(p, acts[0]);
      LeftShrinkWasCovered(next, acts[1..]);
      CoveredBefore(p, acts[0]);
    }
  }

  /** The loop pushes its tokens, a worker taking one whenever the channel is full. */
  lemma {:induction false} LoopEnds(p: Pool) returns (acts: seq<Action>)
    requires Reached(p) && AtLoop(p) && p.closing.Testing? && Covered(p)
    ensures IsRun(p, acts) && Reached(Final(p, acts))
    ensures Final(p, acts).closing.Joining? && Final(p, acts).resize == p.resize
    decreases p.workers - p.closing.sent, p.kill
  {
    var tested := Do(p, TestCounter);
    if p.closing.sent == p.workers {
      StepKeeps(p, TestCounter);
      StepBalanced(p, TestCounter);
      OneStep(p, TestCounter);
      acts := [TestCounter];
    } else if p.kill < p.killCap {
      var rest := PushAndGoOn(p);
      acts := [TestCounter] + ([PushCloseToken] + rest);
    } else {
      var take := TakeToken(p);
      var rest := LoopEnds(Final(p, take));
      RunConcat(p, take, rest);
      acts := take + rest;
    }
  }

  lemma {:induction false} PushAndGoOn(p: Pool) returns (rest: seq<Action>)
    requires Reached(p) && AtLoop(p) && p.closing.Testing? && Covered(p)
    requires p.closing.sent < p.workers && p.kill < p.killCap
    ensures var acts := [TestCounter] + ([PushCloseToken] + rest);
            && IsRun(p, acts) && Reached(Final(p, acts))
            && Final(p, acts).closing.Joining? && Final(p, acts).resize == p.resize
    decreases p.workers - p.closing.sent, p.kill, 0
  {
    var tested := Do(p, TestCounter);
    StepKeeps(p, TestCounter);
    StepBalanced(p, TestCounter);
    StepKeeps(tested, PushCloseToken);
    StepBalanced(tested, PushCloseToken);
    rest := LoopEnds(Do(tested, PushCloseToken));
    Prepend(tested, PushCloseToken, rest);
    Prepend(p, TestCounter, [PushCloseToken] + rest);
  }

  lemma ShrinkCanBeLeft(p: Pool) returns (acts: seq<Action>)
    requires Reached(p) && EntersLoop(p) && ResizeTokens(p) > 0 && Covered(p)
    ensures IsRun(p, acts) && Final(p, acts).closing.Closed? && ResizeTokens(Final(p, acts)) > 0
  {
    var push := LoopEnds(p);
    var q := Final(p, push);
    var leave := AllCanLeave(q);
    var end := Final(q, leave);
    OneStep(end, Join);
    RunConcat(q, leave, [Join]);
    RunConcat(p, push, leave + [Join]);
    acts := push + (leave + [Join]);
  }

  /** `Close` can end before a shrink under way does exactly when the shrink has tokens left and the
      counter and the tokens waiting exceed the channel by no more than the workers still alive. */
  lemma CloseLeavesShrinkExactlyWhen(p: Pool)
    requires Reached(p) && EntersLoop(p)
    ensures CanLeaveShrink(p) <==> ResizeTokens(p) > 0 && p.kill + p.workers <= p.killCap + LiveWorkers(p)
  {
    if CanLeaveShrink(p) {
      var acts :| IsRun(p, acts) && Final(p, acts).closing.Closed? && ResizeTokens(Final(p, acts)) > 0;
      LeftShrinkWasCovered(p, acts);
    }
    if ResizeTokens(p) > 0 && Covered(p) {
      var acts := ShrinkCanBeLeft(p);
    }
  }

  // ---------------------------------------------------------------- such pools

  lemma RunReaches(cnt: int, size: int, acts: seq<Action>)
    requires IsRun(New(cnt, size), acts)
    ensures Reached(Final(New(cnt, size), acts))
  {
    NewInv(cnt, size);
    NewBalanced(cnt, size);
    RunKeeps(New(cnt, size), acts);
    RunBalanced(New(cnt, size), acts);
  }

  /** One worker, grown to `n`. */
  lemma GrowFromOne(n: nat) returns (acts: seq<Action>)
    requires n > 1
    ensures IsRun(New(1, 1), acts)
    ensures var p := Final(New(1, 1), acts);
            p.workers == n && p.kill == 0 && p.killCap == 2 && p.resize.NoResize? && p.closing.Open?
  {
    var p := New(1, 1);
    RunReaches(1, 1, []);
    StepKeeps(p, Resize(n));
    StepBalanced(p, Resize(n));
    var grow := GrowEnds(Do(p, Resize(n)));
    Prepend(p, Resize(n), grow);
    acts := [Resize(n)] + grow;
  }

  lemma EnterLoop(p: Pool) returns (acts: seq<Action>)
    requires p.closing.Open?
    ensures IsRun(p, acts) && Final(p, acts) == p.(closing := Testing(0))
  {
    var p1 := Do(p, Flag);
    var p2 := Do(p1, Cancel);
    OneStep(p2, CloseJobs);
    Prepend(p1, Cancel, [CloseJobs]);
    acts := [Flag] + ([Cancel] + [CloseJobs]);
    Prepend(p, Flag, [Cancel] + [CloseJobs]);
  }

  /** Such a pool exists: grown beyond twice its first size, then closed. */
  lemma GrownPoolBlocks() returns (acts: seq<Action>)
    ensures IsRun(New(1, 1), acts) && Stuck(Final(New(1, 1), acts))
  {
    var p0 := New(1, 1);
    var grow := GrowFromOne(3);
    var close := EnterLoop(Final(p0, grow));
    RunConcat(p0, grow, close);
    RunReaches(1, 1, grow + close);
    var rest := CloseCanBlock(Final(p0, grow + close));
    RunConcat(p0, grow + close, rest);
    acts := grow + close + rest;
  }

  /** Two workers, a shrink to one that has pushed nothing yet, then `Close`. */
  lemma ShrinkThenClose() returns (acts: seq<Action>)
    ensures IsRun(New(1, 1), acts) && Reached(Final(New(1, 1), acts))
    ensures var p := Final(New(1, 1), acts);
            EntersLoop(p) && p.workers == p.killCap == 2 && p.kill == 0 && p.resize == Shrinking(1, 1)
  {
    var p0 := New(1, 1);
    var grow := GrowFromOne(2);
    var p1 := Final(p0, grow);
    var close := EnterLoop(Do(p1, Resize(1)));
    Prepend(p1, Resize(1), close);
    acts := grow + ([Resize(1)] + close);
    RunConcat(p0, grow, [Resize(1)] + close);
    RunReaches(1, 1, acts);
  }

  /** It can block `Close`, though the counter and the tokens waiting fit. */
  lemma ShrinkUnderCloseBlocks() returns (before: seq<Action>, acts: seq<Action>)
    ensures IsRun(New(1, 1), before)
    ensures var p := Final(New(1, 1), before);
            EntersLoop(p) && p.workers + p.kill <= p.killCap && IsRun(p, acts) && Stuck(Final(p, acts))
  {
    before := ShrinkThenClose();
    acts := CloseCanBlock(Final(New(1, 1), before));
  }

  /** And it can outlive `Close`. */
  lemma ShrinkOutlivesClose() returns (before: seq<Action>, acts: seq<Action>)
    ensures IsRun(New(1, 1), before) && EntersLoop(Final(New(1, 1), before))
    ensures var p := Final(New(1, 1), before);
            IsRun(p, acts) && Final(p, acts).closing.Closed? && ResizeTokens(Final(p, acts)) > 0
  {
    before := ShrinkThenClose();
    acts := ShrinkCanBeLeft(Final(New(1, 1), before));
  }
}
