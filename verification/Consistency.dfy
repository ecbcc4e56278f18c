/** Order, history and outbox agree in every committed state of the whole system: any mix of operations,
    any failures, both workers in between. */
module Consistency {
  import opened Domain
  import opened Database
  import opened Transaction
  import opened Service
  import opened OutboxMachine

  function EventTypeFor(status: OrderStatus): EventType {
    match status
    case InStorage => OrderAccepted
    case GivenToClient => OrderIssued
    case ReturnedFromClient => OrderReturnedByClient
    case ReturnedWithoutClient => OrderReturnedToCourier
    case GivenToCourier => OrderReturnedToCourier
  }

  /** The recorded statuses of an order, oldest first. */
  function StatusesOf(history: seq<OrderHistory>, id: nat): seq<OrderStatus>
    decreases |history|
  {
    if history == [] then []
    else
      var n := |history| - 1;
      StatusesOf(history[..n], id) + if history[n].orderId == id then [history[n].status] else []
  }

  /** The types of the events about an order, oldest first. */
  function EventsOf(outbox: seq<OutboxRow>, id: nat): seq<EventType>
    decreases |outbox|
  {
    if outbox == [] then []
    else
      var n := |outbox| - 1;
      EventsOf(outbox[..n], id) + if outbox[n].payload.order.id == id then [outbox[n].payload.eventType] else []
  }

  ghost predicate ConsistentAt(db: Database, id: nat) {
    var statuses, events := StatusesOf(db.history, id), EventsOf(db.outbox, id);
    && |statuses| == |events|
    && (forall k :: 0 <= k < |statuses| ==> events[k] == EventTypeFor(statuses[k]))
    && (id in db.orders <==> statuses != [])
    && (id in db.orders ==> db.orders[id].status == statuses[|statuses| - 1])
  }

  ghost predicate Consistent(db: Database) {
    forall id: nat :: ConsistentAt(db, id)
  }

  /** The three writes speak of one order, one status and its event. */
  predicate Coherent(w: Write) {
    && w.entry.orderId == w.order.orderId && w.event.order.id == w.order.orderId
    && w.entry.status == w.order.status
    && w.event.eventType == EventTypeFor(w.order.status)
  }

  /** The statements of one operation. */
  ghost predicate IsOperation(stmts: seq<Statement>) {
    exists w, at :: Coherent(w) && (stmts == InsertStatements(w, at) || stmts == UpdateStatements(w, at))
  }

  // ---------------------------------------------------------------- what operations write

  /** Every decision, on whatever row was read, yields coherent writes for that row's key. */
  lemma DecisionsAreCoherent(order: Order, receiverId: nat, now: Time, later: Time, req: AcceptRequest, total: real)
    ensures Coherent(AcceptedWrite(req, total, now))
    ensures var d := DecideIssue(order, receiverId, now);
            d.Go? ==> Coherent(d.value) && d.value.order.orderId == order.orderId
    ensures var d := DecideClientReturn(order, receiverId, now);
            d.Go? ==> Coherent(d.value) && d.value.order.orderId == order.orderId
    ensures var d := DecideCourierReturn(order, now, later);
            d.Go? ==> Coherent(d.value) && d.value.order.orderId == order.orderId
  {
  }

  /** An operation publishes either nothing or one coherent transaction. */
  ghost predicate PublishesOneOperation(db: Database, after: Database) {
    || after == db
    || exists stmts :: IsOperation(stmts) && AcceptsAll(db, stmts) && after == ApplyAll(db, stmts)
  }

  lemma PerformPublishes(db: Database, d: Decision<seq<Statement>>, f: Faults)
    requires FaultsFit(f) && (d.Go? ==> |d.value| == 3 && IsOperation(d.value))
    ensures PublishesOneOperation(db, Perform(db, d, f).0)
  {
    if d.Go? {
      AllOrNothing(db, d.value, f.tx);
    }
  }

  lemma OnOrderPublishes(db: Database, orderId: nat, decide: Order -> Decision<Write>, f: Faults)
    requires FaultsFit(f)
    requires forall order :: decide(order).Go? ==> Coherent(decide(order).value)
    ensures PublishesOneOperation(db, OnOrder(db, orderId, decide, f).0)
  {
    if f.read.Done? && orderId in db.orders {
      var order := db.orders[orderId];
      var d := PlanOf(decide(order), f.at);
      if d.Go? {
        assert Coherent(decide(order).value);
        assert IsOperation(d.value);
      }
      PerformPublishes(db, d, f);
    }
  }

  /** Whatever fails, each of the four operations leaves the tables as they were or adds one
      coherent transaction. */
  lemma OperationsPublishOneOrNone(db: Database, req: AcceptRequest, receiverId: nat, orderId: nat,
                                   now: Time, later: Time, f: Faults)
    requires FaultsFit(f)
    ensures PublishesOneOperation(db, Accept(db, req, now, f).0)
    ensures PublishesOneOperation(db, Issue(db, receiverId, orderId, now, f).0)
    ensures PublishesOneOperation(db, ClientReturn(db, receiverId, orderId, now, f).0)
    ensures PublishesOneOperation(db, CourierReturn(db, orderId, now, later, f).0)
  {
    AcceptPublishes(db, req, now, f);
    OnOrderPublishes(db, orderId, order => DecideIssue(order, receiverId, now), f);
    OnOrderPublishes(db, orderId, order => DecideClientReturn(order, receiverId, now), f);
    OnOrderPublishes(db, orderId, order => DecideCourierReturn(order, now, later), f);
  }

  lemma AcceptPublishes(db: Database, req: AcceptRequest, now: Time, f: Faults)
    requires FaultsFit(f)
    ensures PublishesOneOperation(db, Accept(db, req, now, f).0)
  {
    var d := AcceptPlan(db, req, now, f.at);
    if d.Go? {
      var rules := ApplicableRules(db, req.packageType).value;
      var w := AcceptedWrite(req, TotalPrice(rules, req.weight, req.price).value, now);
      assert Coherent(w) && d.value == InsertStatements(w, f.at);
    }
    PerformPublishes(db, d, f);
  }

  // ---------------------------------------------------------------- one transaction keeps it

  lemma StatusesGrow(history: seq<OrderHistory>, h: OrderHistory, id: nat)
    ensures StatusesOf(history + [h], id) == StatusesOf(history, id) + if h.orderId == id then [h.status] else []
  {
    assert (history + [h])[..|history + [h]| - 1] == history;
  }

  lemma EventsGrow(outbox: seq<OutboxRow>, row: OutboxRow, id: nat)
    ensures EventsOf(outbox + [row], id) ==
            EventsOf(outbox, id) + if row.payload.order.id == id then [row.payload.eventType] else []
  {
    assert (outbox + [row])[..|outbox + [row]| - 1] == outbox;
  }

  /** The three statements, one after the other. */
  lemma ApplyThree(db: Database, stmts: seq<Statement>)
    requires |stmts| == 3 && AcceptsAll(db, stmts)
    ensures Accepts(db, stmts[0]) && Accepts(Apply(db, stmts[0]), stmts[1])
            && Accepts(Apply(Apply(db, stmts[0]), stmts[1]), stmts[2])
    ensures ApplyAll(db, stmts) == Apply(Apply(Apply(db, stmts[0]), stmts[1]), stmts[2])
  {
    var tail := stmts[1..];
    assert tail[0] == stmts[1] && tail[1..][0] == stmts[2] && tail[1..][1..] == [];
    var db1 := Apply(db, stmts[0]);
    assert AcceptsAll(db1, tail);
    var db2 := Apply(db1, tail[0]);
    assert AcceptsAll(db2, tail[1..]);
    assert ApplyAll(db2, tail[1..]) == ApplyAll(Apply(db2, stmts[2]), tail[1..][1..]);
  }

  lemma OperationWrites(db: Database, stmts: seq<Statement>) returns (w: Write, at: Time)
    requires IsOperation(stmts) && AcceptsAll(db, stmts)
    ensures Coherent(w)
    ensures ApplyAll(db, stmts) == db.(orders := db.orders[w.order.orderId := w.order],
                                       history := db.history + [w.entry],
                                       outbox := db.outbox + [NewOutboxRow(w.event, at)])
  {
    w, at :| Coherent(w) && (stmts == InsertStatements(w, at) || stmts == UpdateStatements(w, at));
    ApplyThree(db, stmts);
  }

  lemma OperationKeepsConsistent(db: Database, stmts: seq<Statement>)
    requires Consistent(db) && IsOperation(stmts) && AcceptsAll(db, stmts)
    ensures Consistent(ApplyAll(db, stmts))
  {
    var w, at := OperationWrites(db, stmts);
    var db' := ApplyAll(db, stmts);
    forall id: nat
      ensures ConsistentAt(db', id)
    {
      assert ConsistentAt(db, id);
      StatusesGrow(db.history, w.entry, id);
      EventsGrow(db.outbox, NewOutboxRow(w.event, at), id);
    }
  }

  // ---------------------------------------------------------------- the workers keep it

  lemma {:induction false} SamePayloadsSameEvents(outbox: seq<OutboxRow>, outbox': seq<OutboxRow>, id: nat)
    requires |outbox'| == |outbox|
    requires forall i :: 0 <= i < |outbox| ==> outbox'[i].payload == outbox[i].payload
    ensures EventsOf(outbox', id) == EventsOf(outbox, id)
    decreases |outbox|
  {
    if outbox != [] {
      var n := |outbox| - 1;
      assert outbox'[n].payload == outbox[n].payload;
      assert forall i :: 0 <= i < n ==> outbox'[..n][i].payload == outbox[..n][i].payload;
      SamePayloadsSameEvents(outbox[..n], outbox'[..n], id);
    }
  }

  /** No step of a worker touches an order, its history or the payload of an event. */
  lemma WorkersKeepPayloads(m: Machine, a: Action)
    requires Allowed(m, a) && !a.Business?
    ensures var db := Step(m, a).db;
            && db.orders == m.db.orders && db.history == m.db.history
            && |db.outbox| == |m.db.outbox|
            && forall i :: 0 <= i < |db.outbox| ==> db.outbox[i].payload == m.db.outbox[i].payload
  {
    match a
    case MarkProcessing(_) =>
    case Bump(o) => BumpKeepsPayloads(m, o);
    case CompleteRow(_, _) =>
    case FailRow(_) =>
    case _ => QuietStep(m, a);
  }

  lemma BumpKeepsPayloads(m: Machine, o: Outcome)
    requires Allowed(m, Bump(o))
    ensures var db := StepBump(m, o).db;
            && db.orders == m.db.orders && db.history == m.db.history
            && |db.outbox| == |m.db.outbox|
            && forall i :: 0 <= i < |db.outbox| ==> db.outbox[i].payload == m.db.outbox[i].payload
  {
  }

  lemma StepKeepsConsistent(m: Machine, a: Action)
    requires Allowed(m, a) && Consistent(m.db)
    requires a.Business? ==> IsOperation(a.stmts)
    ensures Consistent(Step(m, a).db)
  {
    if a.Business? {
      OperationKeepsConsistent(m.db, a.stmts);
    } else {
      WorkersKeepPayloads(m, a);
      forall id: nat
        ensures ConsistentAt(Step(m, a).db, id)
      {
        assert ConsistentAt(m.db, id);
        SamePayloadsSameEvents(m.db.outbox, Step(m, a).db.outbox, id);
      }
    }
  }

  lemma {:induction false} ConsistentFrom(m: Machine, acts: seq<Action>)
    requires IsRun(m, acts) && Consistent(m.db)
    requires forall k :: 0 <= k < |acts| && acts[k].Business? ==> IsOperation(acts[k].stmts)
    ensures Consistent(Final(m, acts).db)
    decreases |acts|
  {
    if acts != [] {
      StepKeepsConsistent(m, acts[0]);
      ConsistentFrom(Step(m, acts[0]), acts[1..]);
    }
  }

  /** In every committed state of the whole system, an order's last recorded status is its status,
      its history and its events are equally many, and the k-th event matches the k-th status. */
  lemma TransactionalConsistency(m: Machine, acts: seq<Action>, id: nat)
    requires Initial(m) && m.db.orders == map[] && m.db.history == []
    requires IsRun(m, acts)
    requires forall k :: 0 <= k < |acts| && acts[k].Business? ==> IsOperation(acts[k].stmts)
    ensures var db := Final(m, acts).db;
            var statuses, events := StatusesOf(db.history, id), EventsOf(db.outbox, id);
            && |statuses| == |events|
            && (forall k :: 0 <= k < |statuses| ==> events[k] == EventTypeFor(statuses[k]))
            && (id in db.orders <==> statuses != [])
            && (id in db.orders ==> db.orders[id].status == statuses[|statuses| - 1])
  {
    assert Consistent(m.db) by {
      assert forall i: nat :: ConsistentAt(m.db, i);
    }
    ConsistentFrom(m, acts);
    assert ConsistentAt(Final(m, acts).db, id);
  }
}
