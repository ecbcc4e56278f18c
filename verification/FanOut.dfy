/** `processConcurrently`: one goroutine per item, a semaphore around the calls, a shared counter,
    and a group that keeps the first error and cancels the context for the rest. */
module FanOut {
  import opened Domain

  /** An error of a call, together with whether the group's context was still live when the call
      returned it, or the cancellation seen while waiting for the semaphore. */
  datatype Error = FromCall(code: int, live: bool) | Cancelled

  datatype Task =
    | Unborn
    | Waiting                          // at the semaphore
    | Running
    | Failing(error: Error)            // the call failed; the semaphore is still held
    | Succeeded                        // the call returned nil; not counted yet
    | Counted                          // counted; the semaphore is still held
    | Returned(outcome: Option<Error>) // the semaphore is free; the group has not heard yet
    | Over(outcome: Option<Error>)
  {
    predicate Holds() {
      Running? || Failing? || Succeeded? || Counted?
    }

    /** The call has returned nil. */
    predicate WentWell() {
      Succeeded? || Counted? || ((Returned? || Over?) && outcome.None?)
    }

    predicate IsCounted() {
      WentWell() && !Succeeded?
    }

    function Distance(): nat {
      match this
      case Unborn => 6
      case Waiting => 5
      case Running => 4
      case Failing(_) => 2
      case Succeeded => 3
      case Counted => 2
      case Returned(_) => 1
      case Over(_) => 0
    }
  }

  datatype Group = Group(
    limit: nat,
    tasks: seq<Task>,
    sem: nat,
    processed: nat,
    err: Option<Error>,
    parentDone: bool)

  function Start(n: nat, limit: nat): Group {
    Group(limit, seq(n, _ => Unborn), 0, 0, None, false)
  }

  /** The group's context ends with its parent or with the first error. */
  predicate CtxDone(g: Group) {
    g.parentDone || g.err.Some?
  }

  datatype Action =
    | Go(i: nat)
    | Acquire(i: nat)
    | SeeDone(i: nat)
    | CallFails(i: nat, code: int)
    | CallSucceeds(i: nat)
    | Count(i: nat)
    | Unlock(i: nat)          // the deferred receive from the semaphore
    | Report(i: nat)          // the group hears of the return
    | EndParent

  predicate Can(g: Group, a: Action) {
    if a.EndParent? then true
    else
      a.i < |g.tasks| &&
      var t := g.tasks[a.i];
      match a
      case Go(i) => t.Unborn? && (i > 0 ==> !g.tasks[i - 1].Unborn?)
      case Acquire(_) => t.Waiting? && g.sem < g.limit
      case SeeDone(_) => t.Waiting? && CtxDone(g)
      case CallFails(_, _) => t.Running?
      case CallSucceeds(_) => t.Running?
      case Count(_) => t.Succeeded?
      case Unlock(_) => (t.Failing? || t.Counted?) && g.sem > 0
      case Report(_) => t.Returned?
  }

  function At(g: Group, i: nat, t: Task): Group
    requires i < |g.tasks|
  {
    g.(tasks := g.tasks[i := t])
  }

  function Do(g: Group, a: Action): Group
    requires Can(g, a)
  {
    match a
    case Go(i) => At(g, i, Waiting)
    case Acquire(i) => At(g, i, Running).(sem := g.sem + 1)
    case SeeDone(i) => At(g, i, Returned(Some(Cancelled)))
    case CallFails(i, code) => At(g, i, Failing(FromCall(code, !CtxDone(g))))
    case CallSucceeds(i) => At(g, i, Succeeded)
    case Count(i) => At(g, i, Counted).(processed := g.processed + 1)
    case Unlock(i) =>
      At(g, i, Returned(if g.tasks[i].Failing? then Some(g.tasks[i].error) else None)).(sem := g.sem - 1)
    case Report(i) =>
      var outcome := g.tasks[i].outcome;
      At(g, i, Over(outcome)).(err := if g.err.None? then outcome else g.err)
    case EndParent => g.(parentDone := true)
  }

  // ---------------------------------------------------------------- counting tasks

  function Number(tasks: seq<Task>, who: Task -> bool): nat {
    if tasks == [] then 0
    else Number(tasks[..|tasks| - 1], who) + if who(tasks[|tasks| - 1]) then 1 else 0
  }

  lemma {:induction false} NumberAfter(tasks: seq<Task>, i: nat, t: Task, who: Task -> bool)
    requires i < |tasks|
    ensures Number(tasks[i := t], who)
            == Number(tasks, who) - (if who(tasks[i]) then 1 else 0) + (if who(t) then 1 else 0)
  {
    var n := |tasks| - 1;
    if i < n {
      NumberAfter(tasks[..n], i, t, who);
      assert tasks[i := t][..n] == tasks[..n][i := t];
    } else {
      assert tasks[i := t][..n] == tasks[..n];
    }
  }

  lemma {:induction false} NumberOfAll(tasks: seq<Task>, who: Task -> bool)
    ensures Number(tasks, who) <= |tasks|
    ensures (forall i :: 0 <= i < |tasks| ==> who(tasks[i])) <==> Number(tasks, who) == |tasks|
    ensures (exists i :: 0 <= i < |tasks| && who(tasks[i])) <==> Number(tasks, who) > 0
  {
    if tasks != [] {
      var n := |tasks| - 1;
      NumberOfAll(tasks[..n], who);
      assert tasks == tasks[..n] + [tasks[n]];
      if i :| 0 <= i < |tasks| && who(tasks[i]) {
        assert i < n ==> who(tasks[..n][i]);
      }
      if Number(tasks[..n], who) > 0 {
        var i :| 0 <= i < n && who(tasks[..n][i]);
        assert who(tasks[i]);
      }
      if forall i :: 0 <= i < |tasks| ==> who(tasks[i]) {
        assert forall i :: 0 <= i < n ==> who(tasks[..n][i]);
        assert who(tasks[n]);
      }
      if Number(tasks, who) == |tasks| {
        forall i | 0 <= i < |tasks|
          ensures who(tasks[i])
        {
          assert i < n ==> who(tasks[..n][i]);
        }
      }
    }
  }

  // ---------------------------------------------------------------- invariant

  /** An error the group may keep: with a live parent, one that a call returned while the context
      was live, as the group itself had not ended it. */
  predicate Genuine(g: Group, e: Error) {
    g.parentDone || (e.FromCall? && e.live)
  }

  /** What can be known of a goroutine's error before the group has heard of any. */
  predicate ErrorOk(g: Group, t: Task) {
    match t
    case Failing(e) => e.FromCall? && (g.err.None? ==> Genuine(g, e))
    case Returned(Some(e)) => g.err.None? ==> Genuine(g, e)
    case Over(Some(_)) => g.err.Some?
    case _ => true
  }

  /** The semaphore and the counter agree with the goroutines. */
  ghost predicate NumbersInv(g: Group) {
    && g.sem == Number(g.tasks, (t: Task) => t.Holds()) && g.sem <= g.limit
    && g.processed == Number(g.tasks, (t: Task) => t.IsCounted())
  }

  ghost predicate ErrorsInv(g: Group) {
    && (forall i :: 0 <= i < |g.tasks| ==> ErrorOk(g, g.tasks[i]))
    && (g.err.Some? ==> Genuine(g, g.err.value) && exists i :: 0 <= i < |g.tasks| && g.tasks[i] == Over(g.err))
  }

  ghost predicate Inv(g: Group) {
    NumbersInv(g) && ErrorsInv(g)
  }

  lemma StartInv(n: nat, limit: nat)
    ensures Inv(Start(n, limit))
  {
    var g := Start(n, limit);
    NumberOfAll(g.tasks, (t: Task) => t.Holds());
    NumberOfAll(g.tasks, (t: Task) => t.IsCounted());
  }

  /** A goroutine that has a semaphore slot to give back never waits to do so. */
  lemma HolderHasSlot(g: Group, i: nat)
    requires Inv(g) && i < |g.tasks| && g.tasks[i].Holds()
    ensures g.sem > 0
  {
    NumberOfAll(g.tasks, (t: Task) => t.Holds());
  }

  lemma NumbersKept(g: Group, a: Action)
    requires NumbersInv(g) && Can(g, a)
    ensures NumbersInv(Do(g, a))
  {
    if !a.EndParent? {
      var h := Do(g, a);
      NumberAfter(g.tasks, a.i, h.tasks[a.i], (t: Task) => t.Holds());
      NumberAfter(g.tasks, a.i, h.tasks[a.i], (t: Task) => t.IsCounted());
    }
  }

  /** An error another task holds stays as good as it was. */
  lemma ErrorStaysOk(g: Group, h: Group, t: Task)
    requires ErrorOk(g, t) && (g.parentDone ==> h.parentDone) && (g.err.Some? ==> h.err.Some?)
    ensures ErrorOk(h, t)
  {
  }

  lemma ErrorsKept(g: Group, a: Action)
    requires ErrorsInv(g) && Can(g, a)
    ensures ErrorsInv(Do(g, a))
  {
    var h := Do(g, a);
    forall i | 0 <= i < |h.tasks|
      ensures ErrorOk(h, h.tasks[i])
    {
      if a.EndParent? || i != a.i {
        ErrorStaysOk(g, h, g.tasks[i]);
      } else {
        assert ErrorOk(g, g.tasks[i]);
      }
    }
    if g.err.Some? {
      var i :| 0 <= i < |g.tasks| && g.tasks[i] == Over(g.err);
      assert h.tasks[i] == Over(h.err);
    } else if h.err.Some? {
      assert ErrorOk(g, g.tasks[a.i]) && h.tasks[a.i] == Over(h.err);
    }
  }

  lemma StepKeeps(g: Group, a: Action)
    requires Inv(g) && Can(g, a)
    ensures Inv(Do(g, a))
  {
    NumbersKept(g, a);
    ErrorsKept(g, a);
  }

  // ---------------------------------------------------------------- runs

  predicate IsRun(g: Group, acts: seq<Action>)
    decreases |acts|
  {
    acts == [] || (Can(g, acts[0]) && IsRun(Do(g, acts[0]), acts[1..]))
  }

  function Final(g: Group, acts: seq<Action>): Group
    requires IsRun(g, acts)
    decreases |acts|
  {
    if acts == [] then g else Final(Do(g, acts[0]), acts[1..])
  }

  lemma {:induction false} RunKeeps(g: Group, acts: seq<Action>)
    requires Inv(g) && IsRun(g, acts)
    ensures var h := Final(g, acts); Inv(h) && |h.tasks| == |g.tasks| && h.limit == g.limit
    decreases |acts|
  {
    if acts != [] {
      StepKeeps(g, acts[0]);
      RunKeeps(Do(g, acts[0]), acts[1..]);
    }
  }

  /** The parent's context is never cancelled on this run. */
  predicate ParentStays(acts: seq<Action>) {
    forall k :: 0 <= k < |acts| ==> !acts[k].EndParent?
  }

  lemma {:induction false} ParentLives(g: Group, acts: seq<Action>)
    requires IsRun(g, acts) && ParentStays(acts) && !g.parentDone
    ensures !Final(g, acts).parentDone
    decreases |acts|
  {
    if acts != [] {
      assert !acts[0].EndParent?;
      assert forall k :: 0 <= k < |acts[1..]| ==> acts[1..][k] == acts[k + 1];
      ParentLives(Do(g, acts[0]), acts[1..]);
    }
  }

  /** All goroutines are over: what `Wait` returns is settled. */
  predicate Done(g: Group) {
    forall i :: 0 <= i < |g.tasks| ==> g.tasks[i].Over?
  }

  /** At every moment of every interleaving at most `limit` calls run at once. */
  lemma CallsAreBounded(n: nat, limit: nat, acts: seq<Action>)
    requires IsRun(Start(n, limit), acts)
    ensures Number(Final(Start(n, limit), acts).tasks, (t: Task) => t.Running?) <= limit
  {
    var g := Final(Start(n, limit), acts);
    StartInv(n, limit);
    RunKeeps(Start(n, limit), acts);
    FewerThan(g.tasks, (t: Task) => t.Running?, (t: Task) => t.Holds());
  }

  lemma {:induction false} FewerThan(tasks: seq<Task>, some: Task -> bool, more: Task -> bool)
    requires forall t :: some(t) ==> more(t)
    ensures Number(tasks, some) <= Number(tasks, more)
  {
    if tasks != [] {
      FewerThan(tasks[..|tasks| - 1], some, more);
    }
  }

  /** What the caller gets: the counter is the number of calls that returned nil; a nil error means
      every item was processed; and with a parent never cancelled an error is one a call returned
      while its context was live, never the cancellation the group caused. */
  lemma ResultIsHonest(n: nat, limit: nat, acts: seq<Action>)
    requires IsRun(Start(n, limit), acts) && Done(Final(Start(n, limit), acts))
    ensures var g := Final(Start(n, limit), acts);
            && g.processed == Number(g.tasks, (t: Task) => t.WentWell())
            && (g.err.None? <==> g.processed == n)
            && (g.err.Some? && ParentStays(acts) ==> g.err.value.FromCall? && g.err.value.live)
  {
    var g := Final(Start(n, limit), acts);
    StartInv(n, limit);
    RunKeeps(Start(n, limit), acts);
    SameNumber(g.tasks);
    NumberOfAll(g.tasks, (t: Task) => t.IsCounted());
    if ParentStays(acts) {
      ParentLives(Start(n, limit), acts);
    }
  }

  lemma {:induction false} SameNumber(tasks: seq<Task>)
    requires forall i :: 0 <= i < |tasks| ==> tasks[i].Over?
    ensures Number(tasks, (t: Task) => t.WentWell()) == Number(tasks, (t: Task) => t.IsCounted())
  {
    if tasks != [] {
      assert tasks[|tasks| - 1].Over?;
      assert forall i :: 0 <= i < |tasks| - 1 ==> tasks[..|tasks| - 1][i] == tasks[i];
      SameNumber(tasks[..|tasks| - 1]);
    }
  }

  // ---------------------------------------------------------------- the calls of a run

  /** The calls of a run that return nil. */
  function Successes(acts: seq<Action>): nat {
    if acts == [] then 0 else (if acts[0].CallSucceeds? then 1 else 0) + Successes(acts[1..])
  }

  /** The calls of a run made for one item. */
  function CallsFor(acts: seq<Action>, i: nat): nat {
    if acts == [] then 0
    else (if (acts[0].CallSucceeds? || acts[0].CallFails?) && acts[0].i == i then 1 else 0) + CallsFor(acts[1..], i)
  }

  lemma {:induction false} SuccessesAreCounted(g: Group, acts: seq<Action>)
    requires IsRun(g, acts)
    ensures Number(Final(g, acts).tasks, (t: Task) => t.WentWell())
            == Number(g.tasks, (t: Task) => t.WentWell()) + Successes(acts)
    decreases |acts|
  {
    if acts != [] {
      var a, h := acts[0], Do(g, acts[0]);
      if !a.EndParent? {
        NumberAfter(g.tasks, a.i, h.tasks[a.i], (t: Task) => t.WentWell());
      }
      SuccessesAreCounted(h, acts[1..]);
    }
  }

  /** The task may still make its call. */
  function CallLeft(t: Task): nat {
    if t.Unborn? || t.Waiting? || t.Running? then 1 else 0
  }

  lemma {:induction false} CallsUseUp(g: Group, acts: seq<Action>, i: nat)
    requires IsRun(g, acts) && i < |g.tasks|
    ensures i < |Final(g, acts).tasks| && CallsFor(acts, i) + CallLeft(Final(g, acts).tasks[i]) <= CallLeft(g.tasks[i])
    decreases |acts|
  {
    if acts != [] {
      CallsUseUp(Do(g, acts[0]), acts[1..], i);
    }
  }

  /** The task carries the error of a call. */
  predicate Carries(t: Task, code: int) {
    match t
    case Failing(FromCall(c, _)) => c == code
    case Returned(Some(FromCall(c, _))) => c == code
    case Over(Some(FromCall(c, _))) => c == code
    case _ => false
  }

  lemma {:induction false} CarriedErrorWasReturned(g: Group, acts: seq<Action>, i: nat, code: int)
    requires IsRun(g, acts) && i < |g.tasks| && !Carries(g.tasks[i], code)
    requires i < |Final(g, acts).tasks| && Carries(Final(g, acts).tasks[i], code)
    ensures CallFails(i, code) in acts
    decreases |acts|
  {
    var h := Do(g, acts[0]);
    if acts[0] != CallFails(i, code) {
      CarriedErrorWasReturned(h, acts[1..], i, code);
    }
  }

  /** What the caller gets, told by the calls: the counter is the number of calls that returned nil, no item
      is called twice, and with a parent never cancelled the error is one that some call returned. */
  lemma ResultTellsTheCalls(n: nat, limit: nat, acts: seq<Action>, i: nat)
    requires IsRun(Start(n, limit), acts) && Done(Final(Start(n, limit), acts)) && i < n
    ensures var g := Final(Start(n, limit), acts);
            && g.processed == Successes(acts) && CallsFor(acts, i) <= 1
            && (g.err.None? <==> Successes(acts) == n)
            && (g.err.Some? && ParentStays(acts) ==>
                  g.err.value.FromCall? && exists k: nat :: CallFails(k, g.err.value.code) in acts)
  {
    var start := Start(n, limit);
    var g := Final(start, acts);
    ResultIsHonest(n, limit, acts);
    SuccessesAreCounted(start, acts);
    NumberOfAll(start.tasks, (t: Task) => t.WentWell());
    CallsUseUp(start, acts, i);
    if g.err.Some? && ParentStays(acts) {
      StartInv(n, limit);
      RunKeeps(start, acts);
      var k :| 0 <= k < |g.tasks| && g.tasks[k] == Over(g.err);
      CarriedErrorWasReturned(start, acts, k, g.err.value.code);
    }
  }

  // ---------------------------------------------------------------- termination

  function Budget(tasks: seq<Task>): nat {
    if tasks == [] then 0 else Budget(tasks[..|tasks| - 1]) + tasks[|tasks| - 1].Distance()
  }

  lemma {:induction false} BudgetAfter(tasks: seq<Task>, i: nat, t: Task)
    requires i < |tasks|
    ensures Budget(tasks[i := t]) == Budget(tasks) - tasks[i].Distance() + t.Distance()
  {
    var n := |tasks| - 1;
    if i < n {
      BudgetAfter(tasks[..n], i, t);
      assert tasks[i := t][..n] == tasks[..n][i := t];
    } else {
      assert tasks[i := t][..n] == tasks[..n];
    }
  }

  /** Some goroutine can take a step of its own. */
  ghost predicate CanMove(g: Group) {
    exists a: Action :: Can(g, a) && !a.EndParent?
  }

  /** The group never hangs: with at least one slot, some goroutine can go on until all are over. */
  lemma NeverHangs(n: nat, limit: nat, acts: seq<Action>)
    requires limit > 0 && IsRun(Start(n, limit), acts)
    ensures Done(Final(Start(n, limit), acts)) <==> !CanMove(Final(Start(n, limit), acts))
  {
    var g := Final(Start(n, limit), acts);
    StartInv(n, limit);
    RunKeeps(Start(n, limit), acts);
    if i :| 0 <= i < |g.tasks| && !g.tasks[i].Over? {
      SomeTaskMoves(g, i);
    }
  }

  lemma SomeTaskMoves(g: Group, i: nat)
    requires Inv(g) && g.limit > 0 && i < |g.tasks| && !g.tasks[i].Over?
    ensures CanMove(g)
  {
    if g.tasks[i].Unborn? {
      FirstUnbornCanGo(g, i);
    } else if g.tasks[i].Returned? {
      assert Can(g, Report(i));
    } else if g.tasks[i].Holds() {
      HolderMoves(g, i);
    } else if g.sem < g.limit {
      assert Can(g, Acquire(i));
    } else {
      NumberOfAll(g.tasks, (t: Task) => t.Holds());
      var k :| 0 <= k < |g.tasks| && g.tasks[k].Holds();
      HolderMoves(g, k);
    }
  }

  lemma HolderMoves(g: Group, i: nat)
    requires Inv(g) && i < |g.tasks| && g.tasks[i].Holds()
    ensures CanMove(g)
  {
    HolderHasSlot(g, i);
    if g.tasks[i].Running? {
      assert Can(g, CallSucceeds(i));
    } else if g.tasks[i].Succeeded? {
      assert Can(g, Count(i));
    } else {
      assert Can(g, Unlock(i));
    }
  }

  lemma {:induction false} FirstUnbornCanGo(g: Group, i: nat)
    requires i < |g.tasks| && g.tasks[i].Unborn?
    ensures CanMove(g)
  {
    if i > 0 && g.tasks[i - 1].Unborn? {
      FirstUnbornCanGo(g, i - 1);
    } else {
      assert Can(g, Go(i));
    }
  }

  /** The steps of the goroutines in a run. */
  function OwnSteps(acts: seq<Action>): nat {
    if acts == [] then 0 else (if acts[0].EndParent? then 0 else 1) + OwnSteps(acts[1..])
  }

  lemma StepSpendsBudget(g: Group, a: Action)
    requires Can(g, a) && !a.EndParent?
    ensures Budget(Do(g, a).tasks) < Budget(g.tasks)
  {
    BudgetAfter(g.tasks, a.i, Do(g, a).tasks[a.i]);
  }

  lemma {:induction false} StepsSpendBudget(g: Group, acts: seq<Action>)
    requires IsRun(g, acts)
    ensures OwnSteps(acts) + Budget(Final(g, acts).tasks) <= Budget(g.tasks)
    decreases |acts|
  {
    if acts != [] {
      if !acts[0].EndParent? {
        StepSpendsBudget(g, acts[0]);
      }
      StepsSpendBudget(Do(g, acts[0]), acts[1..]);
    }
  }

  lemma {:induction false} FullBudget(tasks: seq<Task>)
    requires forall i :: 0 <= i < |tasks| ==> tasks[i].Unborn?
    ensures Budget(tasks) == 6 * |tasks|
  {
    if tasks != [] {
      assert tasks[|tasks| - 1].Unborn?;
      FullBudget(tasks[..|tasks| - 1]);
    }
  }

  /** Every interleaving ends: the goroutines take at most six steps an item. */
  lemma RunsAreShort(n: nat, limit: nat, acts: seq<Action>)
    requires IsRun(Start(n, limit), acts)
    ensures OwnSteps(acts) <= 6 * n
  {
    StepsSpendBudget(Start(n, limit), acts);
    FullBudget(Start(n, limit).tasks);
  }
}
