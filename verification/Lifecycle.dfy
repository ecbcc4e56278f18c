/** The life of an order over whole runs of the service, operations atomic, clock readings never
    going back. */
module Lifecycle {
  import opened Domain
  import opened Database
  import opened Transaction
  import opened Service
  import opened Consistency

  datatype Operation =
    | DoAccept(req: AcceptRequest, now: Time, f: Faults)
    | DoIssue(receiverId: nat, orderId: nat, now: Time, f: Faults)
    | DoClientReturn(receiverId: nat, orderId: nat, now: Time, f: Faults)
    | DoCourierReturn(orderId: nat, now: Time, stamped: Time, f: Faults)

  predicate Fits(op: Operation) {
    FaultsFit(op.f) && (op.DoCourierReturn? ==> op.now <= op.stamped)
  }

  /** The last reading of the clock an operation makes. */
  function LastReading(op: Operation): Time {
    if op.DoCourierReturn? then op.stamped else op.now
  }

  function Execute(db: Database, op: Operation): (Database, Answer)
    requires Fits(op)
  {
    match op
    case DoAccept(req, now, f) => Accept(db, req, now, f)
    case DoIssue(receiverId, orderId, now, f) => Issue(db, receiverId, orderId, now, f)
    case DoClientReturn(receiverId, orderId, now, f) => ClientReturn(db, receiverId, orderId, now, f)
    case DoCourierReturn(orderId, now, stamped, f) => CourierReturn(db, orderId, now, stamped, f)
  }

  /** A run from a moment no earlier than `clock`. */
  ghost predicate IsHistory(clock: Time, ops: seq<Operation>)
    decreases |ops|
  {
    ops == [] || (Fits(ops[0]) && clock <= ops[0].now && IsHistory(LastReading(ops[0]), ops[1..]))
  }

  ghost function Run(db: Database, clock: Time, ops: seq<Operation>): Database
    requires IsHistory(clock, ops)
    decreases |ops|
  {
    if ops == [] then db else Run(Execute(db, ops[0]).0, LastReading(ops[0]), ops[1..])
  }

  function EndClock(clock: Time, ops: seq<Operation>): Time {
    if ops == [] then clock else LastReading(ops[|ops| - 1])
  }

  ghost predicate Empty(db: Database) {
    db.orders == map[] && db.history == []
  }

  // ---------------------------------------------------------------- one order

  predicate IsCourier(status: OrderStatus) {
    status.ReturnedWithoutClient? || status.GivenToCourier?
  }

  /** The transitions the guards let through. Leaving a courier status by an issue takes a clock
      reading exactly at the deadline. */
  predicate Follows(a: OrderStatus, b: OrderStatus) {
    match b
    case InStorage => false
    case GivenToClient => a.InStorage? || IsCourier(a)
    case ReturnedFromClient => a.GivenToClient? || IsCourier(a)
    case ReturnedWithoutClient => a.InStorage?
    case GivenToCourier => a.ReturnedFromClient?
  }

  /** A statuses list begins in storage and follows the transitions. */
  predicate IsLife(statuses: seq<OrderStatus>) {
    && (statuses != [] ==> statuses[0].InStorage?)
    && forall k :: 1 <= k < |statuses| ==> Follows(statuses[k - 1], statuses[k])
  }

  /** Issued at most once, and never after a hand-back to the courier. */
  predicate IssuedOnce(statuses: seq<OrderStatus>) {
    forall j, k :: 0 <= j < k < |statuses| && statuses[k].GivenToClient? ==>
                     !statuses[j].GivenToClient? && !IsCourier(statuses[j])
  }

  predicate WasIssued(statuses: seq<OrderStatus>) {
    GivenToClient in statuses
  }

  predicate WasHandedBack(statuses: seq<OrderStatus>) {
    ReturnedWithoutClient in statuses || GivenToCourier in statuses
  }

  /** What holds of an order in every run. */
  ghost predicate OrderInv(db: Database, clock: Time, id: nat) {
    var statuses := StatusesOf(db.history, id);
    && (id in db.orders <==> statuses != [])
    && IsLife(statuses)
    && (id in db.orders ==>
          && db.orders[id].orderId == id
          && db.orders[id].status == statuses[|statuses| - 1]
          && (WasHandedBack(statuses) ==> clock >= db.orders[id].storageUntil))
  }

  /** What holds besides while no hand-back of the order was checked exactly at its deadline. */
  ghost predicate StrictInv(db: Database, clock: Time, id: nat) {
    var statuses := StatusesOf(db.history, id);
    && IssuedOnce(statuses)
    && (id in db.orders ==>
          var o := db.orders[id];
          && (WasHandedBack(statuses) ==> clock > o.storageUntil)
          && (WasIssued(statuses) ==>
                o.status.GivenToClient? || o.status.ReturnedFromClient? || clock > o.storageUntil))
  }

  /** What never changes once an order is accepted. */
  predicate SameParcel(a: Order, b: Order) {
    && a.orderId == b.orderId && a.receiverId == b.receiverId
    && a.storageUntil == b.storageUntil && a.acceptTime == b.acceptTime
    && a.packageType == b.packageType && a.weight == b.weight && a.price == b.price
  }

  // ---------------------------------------------------------------- the effect of an operation

  /** The write an operation would publish on these tables, if its guards let it. */
  function WriteOf(db: Database, op: Operation): Option<Write> {
    match op
    case DoAccept(req, now, f) =>
      var rules := ApplicableRules(db, req.packageType);
      if rules.Reject? then None
      else
        var total := TotalPrice(rules.value, req.weight, req.price);
        if total.Reject? then None else Some(AcceptedWrite(req, total.value, now))
    case DoIssue(receiverId, orderId, now, f) =>
      if orderId !in db.orders then None else Allowed(DecideIssue(db.orders[orderId], receiverId, now))
    case DoClientReturn(receiverId, orderId, now, f) =>
      if orderId !in db.orders then None else Allowed(DecideClientReturn(db.orders[orderId], receiverId, now))
    case DoCourierReturn(orderId, now, stamped, f) =>
      if orderId !in db.orders then None else Allowed(DecideCourierReturn(db.orders[orderId], now, stamped))
  }

  function Allowed(d: Decision<Write>): Option<Write> {
    if d.Go? then Some(d.value) else None
  }

  /** The order and its history carry the write. */
  ghost predicate Wrote(db: Database, after: Database, w: Write) {
    && after.orders == db.orders[w.order.orderId := w.order]
    && after.history == db.history + [w.entry]
  }

  ghost predicate Untouched(db: Database, after: Database) {
    after.orders == db.orders && after.history == db.history
  }

  lemma PublishedWrite(db: Database, stmts: seq<Statement>, w: Write, f: Faults)
    requires FaultsFit(f)
    requires stmts == InsertStatements(w, f.at) || stmts == UpdateStatements(w, f.at)
    ensures var after := RunTransaction(db, stmts, f.tx).0;
            || after == db
            || (Wrote(db, after, w)
                && (stmts == InsertStatements(w, f.at) ==> w.order.orderId !in db.orders)
                && (stmts == UpdateStatements(w, f.at) ==> w.order.orderId in db.orders))
    ensures RunTransaction(db, stmts, f.tx).1.Ok? ==> Wrote(db, RunTransaction(db, stmts, f.tx).0, w)
  {
    AllOrNothing(db, stmts, f.tx);
    if AcceptsAll(db, stmts) {
      ApplyThree(db, stmts);
    }
  }

  /** An operation does nothing, or publishes exactly the write its guards allow: an acceptance
      for a new order, anything else for an existing one. */
  lemma ExecuteWrites(db: Database, op: Operation)
    requires Fits(op)
    ensures var (after, answer) := Execute(db, op);
            || Untouched(db, after)
            || (WriteOf(db, op).Some? && Wrote(db, after, WriteOf(db, op).value)
                && (op.DoAccept? <==> WriteOf(db, op).value.order.orderId !in db.orders))
    ensures var (after, answer) := Execute(db, op);
            answer.Success? ==> WriteOf(db, op).Some? && Wrote(db, after, WriteOf(db, op).value)
    ensures WellKeyedAt(db, op) && WriteOf(db, op).Some? && !op.DoAccept? ==>
              WriteOf(db, op).value.order.orderId == op.orderId
  {
    var w := WriteOf(db, op);
    if w.Some? {
      if op.DoAccept? {
        PublishedWrite(db, InsertStatements(w.value, op.f.at), w.value, op.f);
      } else {
        PublishedWrite(db, UpdateStatements(w.value, op.f.at), w.value, op.f);
      }
    }
  }

  ghost predicate WellKeyedAt(db: Database, op: Operation) {
    op.DoAccept? || (op.orderId in db.orders ==> db.orders[op.orderId].orderId == op.orderId)
  }

  // ---------------------------------------------------------------- every operation keeps it

  /** The new status fits the old ones. */
  lemma WriteFits(db: Database, clock: Time, op: Operation, id: nat)
    requires Fits(op) && clock <= op.now && OrderInv(db, clock, id)
    requires WriteOf(db, op).Some? && WriteOf(db, op).value.order.orderId == id
    requires op.DoAccept? <==> id !in db.orders
    requires !op.DoAccept? ==> op.orderId == id
    ensures var w := WriteOf(db, op).value;
            var statuses := StatusesOf(db.history, id);
            && Coherent(w)
            && IsLife(statuses + [w.order.status])
            && (id in db.orders ==> SameParcel(db.orders[id], w.order))
            && (IsCourier(w.order.status) ==> op.now >= w.order.storageUntil)
            && (w.order.status.GivenToClient? ==>
                  op.now <= w.order.storageUntil
                  && id in db.orders
                  && !db.orders[id].status.GivenToClient? && !db.orders[id].status.ReturnedFromClient?)
  {
    var w := WriteOf(db, op).value;
    var statuses := StatusesOf(db.history, id);
    if statuses != [] {
      assert db.orders[id].status == statuses[|statuses| - 1];
      assert Follows(db.orders[id].status, w.order.status);
    }
    LifeGrows(statuses, w.order.status);
  }

  lemma LifeGrows(statuses: seq<OrderStatus>, s: OrderStatus)
    requires IsLife(statuses) && (if statuses == [] then s.InStorage? else Follows(statuses[|statuses| - 1], s))
    ensures IsLife(statuses + [s])
  {
    var all := statuses + [s];
    assert forall k :: 1 <= k < |statuses| ==> Follows(all[k - 1], all[k]);
  }

  lemma IssuedOnceGrows(statuses: seq<OrderStatus>, s: OrderStatus)
    requires IssuedOnce(statuses)
    requires s.GivenToClient? ==> !WasHandedBack(statuses) && !WasIssued(statuses)
    ensures IssuedOnce(statuses + [s])
  {
    var all := statuses + [s];
    forall j, k | 0 <= j < k < |all| && all[k].GivenToClient?
      ensures !all[j].GivenToClient? && !IsCourier(all[j])
    {
      assert j < |statuses| && all[j] in statuses;
    }
  }

  /** The hand-back of this order is checked exactly at its deadline. */
  predicate HandsBackAtDeadline(db: Database, op: Operation, id: nat) {
    op.DoCourierReturn? && op.orderId == id && id in db.orders && op.now == db.orders[id].storageUntil
  }

  /** Nothing about this order changes but the time. */
  lemma AsideKeeps(db: Database, after: Database, clock: Time, later: Time, id: nat)
    requires OrderInv(db, clock, id) && clock <= later
    requires id in after.orders <==> id in db.orders
    requires id in db.orders ==> after.orders[id] == db.orders[id]
    requires StatusesOf(after.history, id) == StatusesOf(db.history, id)
    ensures OrderInv(after, later, id)
    ensures StrictInv(db, clock, id) ==> StrictInv(after, later, id)
  {
  }

  /** The order's own write. */
  lemma WriteKeeps(db: Database, after: Database, clock: Time, op: Operation, id: nat)
    requires Fits(op) && clock <= op.now && OrderInv(db, clock, id)
    requires WriteOf(db, op).Some? && WriteOf(db, op).value.order.orderId == id
    requires op.DoAccept? <==> id !in db.orders
    requires !op.DoAccept? ==> op.orderId == id
    requires Wrote(db, after, WriteOf(db, op).value)
    ensures OrderInv(after, LastReading(op), id)
    ensures StrictInv(db, clock, id) && !HandsBackAtDeadline(db, op, id) ==> StrictInv(after, LastReading(op), id)
  {
    var w := WriteOf(db, op).value;
    var statuses := StatusesOf(db.history, id);
    WriteFits(db, clock, op, id);
    StatusesGrow(db.history, w.entry, id);
    if StrictInv(db, clock, id) {
      IssuedOnceGrows(statuses, w.order.status);
    }
  }

  lemma OperationKeeps(db: Database, clock: Time, op: Operation, id: nat)
    requires Fits(op) && clock <= op.now
    requires OrderInv(db, clock, id) && (!op.DoAccept? ==> OrderInv(db, clock, op.orderId))
    ensures OrderInv(Execute(db, op).0, LastReading(op), id)
    ensures var after := Execute(db, op).0;
            id in db.orders ==> id in after.orders && SameParcel(db.orders[id], after.orders[id])
    ensures StrictInv(db, clock, id) && !HandsBackAtDeadline(db, op, id) ==>
              StrictInv(Execute(db, op).0, LastReading(op), id)
  {
    var after := Execute(db, op).0;
    ExecuteWrites(db, op);
    if Untouched(db, after) {
      AsideKeeps(db, after, clock, LastReading(op), id);
    } else if WriteOf(db, op).value.order.orderId == id {
      WriteFits(db, clock, op, id);
      WriteKeeps(db, after, clock, op, id);
    } else {
      OthersWriteKeeps(db, after, clock, op, id);
    }
  }

  /** The write of another order. */
  lemma OthersWriteKeeps(db: Database, after: Database, clock: Time, op: Operation, id: nat)
    requires Fits(op) && clock <= op.now && OrderInv(db, clock, id)
    requires WriteOf(db, op).Some? && WriteOf(db, op).value.order.orderId != id
    requires Wrote(db, after, WriteOf(db, op).value)
    ensures OrderInv(after, LastReading(op), id)
    ensures id in db.orders ==> id in after.orders && after.orders[id] == db.orders[id]
    ensures StrictInv(db, clock, id) ==> StrictInv(after, LastReading(op), id)
  {
    var w := WriteOf(db, op).value;
    StatusesGrow(db.history, w.entry, id);
    assert w.entry.orderId == w.order.orderId;
    AsideKeeps(db, after, clock, LastReading(op), id);
  }

  // ---------------------------------------------------------------- whole runs

  /** Some hand-back of the order in the run is checked exactly at its deadline. */
  ghost predicate SomeHandBackAtDeadline(db: Database, clock: Time, ops: seq<Operation>, id: nat)
    requires IsHistory(clock, ops)
    decreases |ops|
  {
    ops != [] && (HandsBackAtDeadline(db, ops[0], id)
                  || SomeHandBackAtDeadline(Execute(db, ops[0]).0, LastReading(ops[0]), ops[1..], id))
  }

  lemma {:induction false} RunKeeps(db: Database, clock: Time, ops: seq<Operation>, id: nat)
    requires IsHistory(clock, ops)
    requires forall j: nat :: OrderInv(db, clock, j)
    ensures OrderInv(Run(db, clock, ops), EndClock(clock, ops), id)
    ensures id in db.orders ==>
              id in Run(db, clock, ops).orders && SameParcel(db.orders[id], Run(db, clock, ops).orders[id])
    ensures StrictInv(db, clock, id) && !SomeHandBackAtDeadline(db, clock, ops, id) ==>
              StrictInv(Run(db, clock, ops), EndClock(clock, ops), id)
    decreases |ops|
  {
    if ops != [] {
      var after := Execute(db, ops[0]).0;
      forall j: nat
        ensures OrderInv(after, LastReading(ops[0]), j)
      {
        OperationKeeps(db, clock, ops[0], j);
      }
      OperationKeeps(db, clock, ops[0], id);
      RunKeeps(after, LastReading(ops[0]), ops[1..], id);
    }
  }

  lemma EmptyInv(db: Database, clock: Time, id: nat)
    requires Empty(db)
    ensures OrderInv(db, clock, id) && StrictInv(db, clock, id)
  {
  }

  /** In every run the recorded statuses of an order begin in storage, never come back to it, and
      follow the transitions; the last one is its status; and a hand-back lies at or after its
      deadline. */
  lemma EveryLifeFollowsTheGuards(db: Database, clock: Time, ops: seq<Operation>, id: nat)
    requires Empty(db) && IsHistory(clock, ops) && id in Run(db, clock, ops).orders
    ensures var final := Run(db, clock, ops);
            var statuses := StatusesOf(final.history, id);
            && statuses != [] && statuses[0].InStorage?
            && (forall k :: 1 <= k < |statuses| ==> Follows(statuses[k - 1], statuses[k]) && !statuses[k].InStorage?)
            && final.orders[id].status == statuses[|statuses| - 1]
            && (WasHandedBack(statuses) ==> EndClock(clock, ops) >= final.orders[id].storageUntil)
  {
    forall j: nat
      ensures OrderInv(db, clock, j)
    {
      EmptyInv(db, clock, j);
    }
    RunKeeps(db, clock, ops, id);
    var statuses := StatusesOf(Run(db, clock, ops).history, id);
    assert IsLife(statuses);
    forall k | 1 <= k < |statuses|
      ensures Follows(statuses[k - 1], statuses[k]) && !statuses[k].InStorage?
    {
    }
  }

  /** An order is issued at most once and never after a hand-back to the courier, on every run in
      which no hand-back of it is checked exactly at its deadline. */
  lemma IssuedAtMostOnce(db: Database, clock: Time, ops: seq<Operation>, id: nat)
    requires Empty(db) && IsHistory(clock, ops)
    requires !SomeHandBackAtDeadline(db, clock, ops, id)
    ensures IssuedOnce(StatusesOf(Run(db, clock, ops).history, id))
  {
    forall j: nat
      ensures OrderInv(db, clock, j)
    {
      EmptyInv(db, clock, j);
    }
    EmptyInv(db, clock, id);
    RunKeeps(db, clock, ops, id);
  }

  /** After acceptance nothing changes an order's receiver, deadline, accept time, package, weight
      or price. */
  lemma ParcelNeverChanges(db: Database, clock: Time, before: seq<Operation>, ops: seq<Operation>, id: nat)
    requires Empty(db) && IsHistory(clock, before) && IsHistory(EndClock(clock, before), ops)
    requires id in Run(db, clock, before).orders
    ensures var mid := Run(db, clock, before);
            var final := Run(mid, EndClock(clock, before), ops);
            id in final.orders && SameParcel(mid.orders[id], final.orders[id])
  {
    var mid := Run(db, clock, before);
    forall j: nat
      ensures OrderInv(mid, EndClock(clock, before), j)
    {
      forall i: nat
        ensures OrderInv(db, clock, i)
      {
        EmptyInv(db, clock, i);
      }
      RunKeeps(db, clock, before, j);
    }
    RunKeeps(mid, EndClock(clock, before), ops, id);
  }

  /** Exactly when an order that was handed back can still be issued: by its receiver, from a
      courier status, with the clock reading exactly the deadline. */
  lemma IssueAfterHandBack(db: Database, clock: Time, ops: seq<Operation>, id: nat, receiverId: nat, now: Time)
    requires Empty(db) && IsHistory(clock, ops) && EndClock(clock, ops) <= now
    requires id in Run(db, clock, ops).orders
    requires WasHandedBack(StatusesOf(Run(db, clock, ops).history, id))
    ensures var o := Run(db, clock, ops).orders[id];
            DecideIssue(o, receiverId, now).Go? <==>
            o.receiverId == receiverId && IsCourier(o.status) && now == o.storageUntil
  {
    EveryLifeFollowsTheGuards(db, clock, ops, id);
  }

  /** It does happen: an order accepted, handed back and issued, the last two at its deadline. */
  lemma IssuedAfterHandBackWitness(db: Database, code: string, at: Time) returns (ops: seq<Operation>)
    requires Empty(db) && code in db.packageTypes && code != ""
    ensures IsHistory(0, ops)
    ensures StatusesOf(Run(db, 0, ops).history, 7) == [InStorage, ReturnedWithoutClient, GivenToClient]
    ensures !IssuedOnce([InStorage, ReturnedWithoutClient, GivenToClient])
  {
    ops := HandBackRun(db, code, Faults(Done, Done, at, TxFaults(Done, [Done, Done, Done], Done)));
    var life := [InStorage, ReturnedWithoutClient, GivenToClient];
    assert IsCourier(life[1]) && life[2].GivenToClient?;
  }

  lemma HandBackRun(db: Database, code: string, ok: Faults) returns (ops: seq<Operation>)
    requires Empty(db) && code in db.packageTypes && code != "" && AllDone(ok)
    ensures IsHistory(0, ops)
    ensures StatusesOf(Run(db, 0, ops).history, 7) == [InStorage] + [ReturnedWithoutClient] + [GivenToClient]
  {
    var req := AcceptRequest(1, 7, 10, 0.0, 0.0, code);
    var op0, op1, op2 := DoAccept(req, 0, ok), DoCourierReturn(7, 10, 10, ok), DoIssue(1, 7, 10, ok);
    ops := [op0, op1, op2];
    AcceptSeven(db, op0);
    HandBackThenIssue(Execute(db, op0).0, op1, op2);
    RunOfThree(db, op0, op1, op2);
  }

  /** Order 7 is accepted for receiver 1 and stored until 10. */
  lemma AcceptSeven(db: Database, op: Operation)
    requires Empty(db) && op.DoAccept? && op.now == 0 && AllDone(op.f)
    requires op.req == AcceptRequest(1, 7, 10, 0.0, 0.0, op.req.packageType)
    requires op.req.packageType in db.packageTypes && op.req.packageType != ""
    ensures var after := Execute(db, op).0;
            && 7 in after.orders && after.orders[7].orderId == 7 && after.orders[7].status.InStorage?
            && after.orders[7].receiverId == 1 && after.orders[7].storageUntil == 10
            && after.orders[7].packageType in after.packageTypes
            && StatusesOf(after.history, 7) == [InStorage]
  {
    AcceptWitness(db, op.req, op);
    StatusesGrow(db.history, OrderHistory(7, InStorage, 0), 7);
  }

  /** Order 7, stored until 10 for receiver 1, is handed back at 10 and issued at 10. */
  lemma HandBackThenIssue(db: Database, op1: Operation, op2: Operation)
    requires 7 in db.orders && db.orders[7].orderId == 7 && db.orders[7].status.InStorage?
    requires db.orders[7].receiverId == 1 && db.orders[7].storageUntil == 10
    requires db.orders[7].packageType in db.packageTypes
    requires op1 == DoCourierReturn(7, 10, 10, op1.f) && AllDone(op1.f)
    requires op2 == DoIssue(1, 7, 10, op2.f) && AllDone(op2.f)
    ensures StatusesOf(Execute(Execute(db, op1).0, op2).0.history, 7)
            == StatusesOf(db.history, 7) + [ReturnedWithoutClient] + [GivenToClient]
  {
    var db1 := Execute(db, op1).0;
    Succeeds(db, op1);
    Succeeds(db1, op2);
    StatusesGrow(db.history, OrderHistory(7, ReturnedWithoutClient, 10), 7);
    StatusesGrow(db1.history, OrderHistory(7, GivenToClient, 10), 7);
  }

  predicate AllDone(f: Faults) {
    FaultsFit(f) && f.read.Done? && f.rules.Done? && f.tx.begin.Done? && f.tx.commit.Done?
    && forall k :: 0 <= k < 3 ==> f.tx.exec[k].Done?
  }

  lemma RunOfThree(db: Database, op0: Operation, op1: Operation, op2: Operation)
    requires Fits(op0) && Fits(op1) && Fits(op2)
    requires 0 <= op0.now && LastReading(op0) <= op1.now && LastReading(op1) <= op2.now
    ensures IsHistory(0, [op0, op1, op2])
    ensures Run(db, 0, [op0, op1, op2]) == Execute(Execute(Execute(db, op0).0, op1).0, op2).0
  {
    var ops := [op0, op1, op2];
    assert ops[1..] == [op1, op2] && [op1, op2][1..] == [op2] && [op2][1..] == [];
    var db3 := Execute(Execute(Execute(db, op0).0, op1).0, op2).0;
    assert IsHistory(LastReading(op2), []) && Run(db3, LastReading(op2), []) == db3;
    assert IsHistory(LastReading(op1), [op2]);
    assert IsHistory(LastReading(op0), [op1, op2]);
    var db1 := Execute(db, op0).0;
    var db2 := Execute(db1, op1).0;
    assert Run(db2, LastReading(op1), [op2]) == Run(db3, LastReading(op2), [op2][1..]);
    assert Run(db1, LastReading(op0), [op1, op2]) == Run(db2, LastReading(op1), [op1, op2][1..]);
    assert Run(db, 0, ops) == Run(db1, LastReading(op0), ops[1..]);
  }

  lemma AcceptWitness(db: Database, req: AcceptRequest, op: Operation)
    requires op.DoAccept? && op.req == req && Fits(op) && op.f.read.Done? && op.f.rules.Done?
    requires op.f.tx.begin.Done? && op.f.tx.commit.Done? && forall k :: 0 <= k < 3 ==> op.f.tx.exec[k].Done?
    requires req.orderId !in db.orders && req.packageType in db.packageTypes && req.packageType != ""
    requires !TooHeavy(req.weight, db.packageTypes[req.packageType])
    ensures var after := Execute(db, op).0;
            && after.history == db.history + [OrderHistory(req.orderId, InStorage, op.now)]
            && req.orderId in after.orders
            && after.orders[req.orderId].orderId == req.orderId
            && after.orders[req.orderId].status.InStorage?
            && after.orders[req.orderId].receiverId == req.receiverId
            && after.orders[req.orderId].storageUntil == req.storageUntil
            && after.orders[req.orderId].packageType == req.packageType
            && after.packageTypes == db.packageTypes
  {
    var rules := [db.packageTypes[req.packageType]];
    assert TotalPrice(rules, req.weight, req.price).Go?;
    Succeeds(db, op);
  }

  /** With nothing failing, an operation its guards let through publishes its write. */
  lemma Succeeds(db: Database, op: Operation)
    requires Fits(op) && op.f.read.Done? && op.f.rules.Done?
    requires op.f.tx.begin.Done? && op.f.tx.commit.Done? && forall k :: 0 <= k < 3 ==> op.f.tx.exec[k].Done?
    requires WriteOf(db, op).Some?
    requires WriteOf(db, op).value.order.packageType in db.packageTypes
    requires op.DoAccept? <==> WriteOf(db, op).value.order.orderId !in db.orders
    ensures Wrote(db, Execute(db, op).0, WriteOf(db, op).value)
    ensures Execute(db, op).0.packageTypes == db.packageTypes
  {
    var w := WriteOf(db, op).value;
    var stmts := if op.DoAccept? then InsertStatements(w, op.f.at) else UpdateStatements(w, op.f.at);
    AcceptsThree(db, stmts);
    ApplyThree(db, stmts);
    PublishedWrite(db, stmts, w, op.f);
    AllOrNothing(db, stmts, op.f.tx);
  }

  lemma AcceptsThree(db: Database, stmts: seq<Statement>)
    requires |stmts| == 3
    requires Accepts(db, stmts[0]) && Accepts(Apply(db, stmts[0]), stmts[1])
    requires Accepts(Apply(Apply(db, stmts[0]), stmts[1]), stmts[2])
    ensures AcceptsAll(db, stmts)
  {
    var tail := stmts[1..];
    assert tail[0] == stmts[1] && tail[1..][0] == stmts[2] && tail[1..][1..] == [];
    var db2 := Apply(Apply(db, stmts[0]), stmts[1]);
    assert AcceptsAll(Apply(db2, stmts[2]), tail[1..][1..]);
    assert AcceptsAll(db2, tail[1..]);
    assert AcceptsAll(Apply(db, stmts[0]), tail);
  }
}
