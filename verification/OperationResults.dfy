/** Exactly when each operation succeeds, all that it writes then, and which error it gives otherwise. */
module OperationResults {
  import opened Domain
  import opened Database
  import opened Transaction
  import opened Service
  import opened Consistency
  import opened Lifecycle

  // ---------------------------------------------------------------- the tables

  /** What the schema guarantees of every stored order: its own key, and a package type that is there. */
  ghost predicate SchemaHolds(db: Database) {
    forall id :: id in db.orders ==> db.orders[id].orderId == id && db.orders[id].packageType in db.packageTypes
  }

  lemma {:induction false} SchemaStays(db: Database, stmts: seq<Statement>)
    requires SchemaHolds(db) && AcceptsAll(db, stmts)
    ensures SchemaHolds(ApplyAll(db, stmts))
    decreases |stmts|
  {
    if stmts != [] {
      SchemaStays(Apply(db, stmts[0]), stmts[1..]);
    }
  }

  /** The order, one history entry and one unsent event, and nothing else. */
  predicate Published(db: Database, after: Database, order: Order, entry: OrderHistory, event: Event, at: Time) {
    after == db.(orders := db.orders[order.orderId := order],
                 history := db.history + [entry],
                 outbox := db.outbox + [OutboxRow(event, Created, None, 0, at, None, None)])
  }

  /** Statements that the tables accept are published when nothing fails. */
  lemma ThreePublished(db: Database, stmts: seq<Statement>, order: Order, entry: OrderHistory, event: Event, f: Faults)
    requires AllDone(f) && entry.orderId == order.orderId
    requires stmts == [InsertOrder(order), InsertHistory(entry), InsertOutbox(event, f.at)]
             || stmts == [UpdateOrder(order), InsertHistory(entry), InsertOutbox(event, f.at)]
    ensures var (after, r) := RunTransaction(db, stmts, f.tx);
            if Accepts(db, stmts[0]) then r.Ok? && Published(db, after, order, entry, event, f.at)
            else r.Failure? && after == db
  {
    AllOrNothing(db, stmts, f.tx);
    if Accepts(db, stmts[0]) {
      AcceptsThree(db, stmts);
      ApplyThree(db, stmts);
    }
  }

  // ---------------------------------------------------------------- prices

  /** Surcharges add up. */
  lemma {:induction false} SurchargeAdds(a: seq<PackageRules>, b: seq<PackageRules>)
    ensures Surcharge(a + b) == Surcharge(a) + Surcharge(b)
    decreases |b|
  {
    if b == [] {
      assert a + b == a;
    } else {
      var n := |b| - 1;
      SurchargeAdds(a, b[..n]);
      assert (a + b)[..|a + b| - 1] == a + b[..n];
    }
  }

  lemma OneSurcharge(rule: PackageRules)
    ensures Surcharge([rule]) == rule.price
  {
    assert [rule][..0] == [];
  }

  /** A weight is refused exactly when some rule with a positive limit is below it. */
  lemma PricedExactlyWhen(rules: seq<PackageRules>, weight: real, price: real)
    ensures var d := TotalPrice(rules, weight, price);
            && (d == Reject(WeightTooHeavy) <==>
                  exists k :: 0 <= k < |rules| && rules[k].maxWeight > 0.0 && weight > rules[k].maxWeight)
            && (d.Go? ==> d.value == price + Surcharge(rules))
            && (d.Go? || d.why == WeightTooHeavy)
  {
    assert forall k :: 0 <= k < |rules| ==>
        (TooHeavy(weight, rules[k]) <==> rules[k].maxWeight > 0.0 && weight > rules[k].maxWeight);
  }

  // ---------------------------------------------------------------- acceptance

  /** An acceptance that the guards let through. */
  predicate MayAccept(db: Database, req: AcceptRequest) {
    && req.orderId !in db.orders
    && req.packageType in db.packageTypes
    && var rule := db.packageTypes[req.packageType];
       !(rule.maxWeight > 0.0 && req.weight > rule.maxWeight)
  }

  /** With the transaction and the rules answered, an order is accepted exactly when its id is new, its
      package is a known code, and the package's limit, if it has one, is not exceeded; an empty
      package code is refused by the schema's foreign key. A first look-up that fails changes only the
      error an existing order gets. */
  lemma AcceptedExactlyWhen(db: Database, req: AcceptRequest, now: Time, f: Faults)
    requires AllDone(f.(read := Done)) && !f.read.Crashed() && "" !in db.packageTypes
    ensures var (after, answer) := Accept(db, req, now, f);
            && (answer.Success? <==> MayAccept(db, req))
            && (answer.Success? ==>
                  Published(db, after,
                            Order(req.orderId, req.receiverId, req.storageUntil, InStorage, now, now, req.packageType,
                                  req.weight, req.price + db.packageTypes[req.packageType].price),
                            OrderHistory(req.orderId, InStorage, now),
                            Event(OrderAccepted, Actor(Courier, 1), OrderInfo(req.orderId, req.receiverId, "accepted")),
                            f.at))
            && (!answer.Success? ==> after == db)
  {
    if req.packageType in db.packageTypes {
      AcceptKnown(db, req, now, f);
    } else if req.packageType == "" && !(f.read.Done? && req.orderId in db.orders) {
      AcceptUnnamed(db, req, now, f);
    }
  }

  lemma AcceptKnown(db: Database, req: AcceptRequest, now: Time, f: Faults)
    requires AllDone(f.(read := Done)) && !f.read.Crashed() && "" !in db.packageTypes
    requires req.packageType in db.packageTypes
    ensures var (after, answer) := Accept(db, req, now, f);
            if MayAccept(db, req) then
              && answer.Success?
              && Published(db, after,
                           Order(req.orderId, req.receiverId, req.storageUntil, InStorage, now, now, req.packageType,
                                 req.weight, req.price + db.packageTypes[req.packageType].price),
                           OrderHistory(req.orderId, InStorage, now),
                           Event(OrderAccepted, Actor(Courier, 1), OrderInfo(req.orderId, req.receiverId, "accepted")),
                           f.at)
            else !answer.Success? && after == db
  {
    var rule := db.packageTypes[req.packageType];
    PricedExactlyWhen([rule], req.weight, req.price);
    OneSurcharge(rule);
    assert [rule][0] == rule;
    if !(rule.maxWeight > 0.0 && req.weight > rule.maxWeight) {
      var w := AcceptedWrite(req, req.price + rule.price, now);
      assert TotalPrice([rule], req.weight, req.price) == Go(req.price + rule.price);
      ThreePublished(db, InsertStatements(w, f.at), w.order, w.entry, w.event, f.(read := Done));
    } else {
      assert TotalPrice([rule], req.weight, req.price) == Reject(WeightTooHeavy);
    }
  }

  lemma AcceptUnnamed(db: Database, req: AcceptRequest, now: Time, f: Faults)
    requires AllDone(f.(read := Done)) && !f.read.Crashed() && "" !in db.packageTypes
    requires req.packageType == "" && !(f.read.Done? && req.orderId in db.orders)
    ensures var (after, answer) := Accept(db, req, now, f); answer.Broken? && after == db
  {
    PricedExactlyWhen([], req.weight, req.price);
    var total := TotalPrice([], req.weight, req.price).value;
    var w := AcceptedWrite(req, total, now);
    ThreePublished(db, InsertStatements(w, f.at), w.order, w.entry, w.event, f.(read := Done));
  }

  /** Which error a refused acceptance gets. */
  lemma AcceptErrorsExactlyWhen(db: Database, req: AcceptRequest, now: Time, f: Faults)
    requires AllDone(f) && "" !in db.packageTypes
    ensures var answer := Accept(db, req, now, f).1;
            var known := req.packageType in db.packageTypes;
            && (answer == Rejected(AlreadyExists) <==> req.orderId in db.orders)
            && (answer == Rejected(NoPackageRules) <==>
                  req.orderId !in db.orders && req.packageType != "" && !known)
            && (answer == Rejected(WeightTooHeavy) <==>
                  req.orderId !in db.orders && known && db.packageTypes[req.packageType].maxWeight > 0.0
                  && req.weight > db.packageTypes[req.packageType].maxWeight)
            && (answer.Broken? <==> req.orderId !in db.orders && req.packageType == "")
  {
    AcceptedExactlyWhen(db, req, now, f);
    if req.orderId !in db.orders && req.packageType == "" {
      AcceptUnnamed(db, req, now, f);
    } else if req.orderId !in db.orders && req.packageType in db.packageTypes {
      var rule := db.packageTypes[req.packageType];
      PricedExactlyWhen([rule], req.weight, req.price);
      assert [rule][0] == rule;
    }
  }

  // ---------------------------------------------------------------- operations on an existing order

  /** A read that is not answered ends the operation before it has done anything. */
  lemma UnansweredReadEndsIt(db: Database, receiverId: nat, orderId: nat, now: Time, later: Time, f: Faults)
    requires FaultsFit(f) && !f.read.Done?
    ensures var answer := if f.read.Crashed() then Died else Broken;
            && Issue(db, receiverId, orderId, now, f) == (db, answer)
            && ClientReturn(db, receiverId, orderId, now, f) == (db, answer)
            && CourierReturn(db, orderId, now, later, f) == (db, answer)
  {
  }

  /** With the database answering, a decision taken is a write published. */
  lemma DecisionIsPublished(db: Database, orderId: nat, decide: Order -> Decision<Write>, f: Faults)
    requires AllDone(f) && SchemaHolds(db) && orderId in db.orders
    requires var d := decide(db.orders[orderId]);
             d.Go? ==> && d.value.order.orderId == d.value.entry.orderId == orderId
                       && d.value.order.packageType == db.orders[orderId].packageType
    ensures var ((after, answer), d) := (OnOrder(db, orderId, decide, f), decide(db.orders[orderId]));
            if d.Go? then answer.Success? && Published(db, after, d.value.order, d.value.entry, d.value.event, f.at)
            else answer == Rejected(d.why) && after == db
  {
    var d := decide(db.orders[orderId]);
    if d.Go? {
      ThreePublished(db, UpdateStatements(d.value, f.at), d.value.order, d.value.entry, d.value.event, f);
    }
  }

  /** An order is issued exactly when it exists, to its receiver, while it is neither with the client nor
      returned by him, no later than its deadline; each refusal has its own error. */
  lemma IssuedExactlyWhen(db: Database, receiverId: nat, orderId: nat, now: Time, f: Faults)
    requires AllDone(f) && SchemaHolds(db)
    ensures var (after, answer) := Issue(db, receiverId, orderId, now, f);
            if orderId !in db.orders then answer == Rejected(NotFound) && after == db else
            var o := db.orders[orderId];
            && (answer.Success? <==>
                  && o.receiverId == receiverId && o.status != GivenToClient && o.status != ReturnedFromClient
                  && now <= o.storageUntil)
            && (answer.Success? ==>
                  Published(db, after, o.(status := GivenToClient, lastUpdateTime := now),
                            OrderHistory(orderId, GivenToClient, now),
                            Event(OrderIssued, Actor(Client, receiverId), OrderInfo(orderId, receiverId, "issued")),
                            f.at))
            && (!answer.Success? ==> after == db)
            && (answer == Rejected(BelongsToDifferentReceiver) <==> o.receiverId != receiverId)
            && (answer == Rejected(AlreadyGiven) <==> o.receiverId == receiverId && o.status == GivenToClient)
            && (answer == Rejected(UnavailableReturned) <==>
                  o.receiverId == receiverId && o.status == ReturnedFromClient)
            && (answer == Rejected(StorageExpired) <==>
                  && o.receiverId == receiverId && o.status != GivenToClient && o.status != ReturnedFromClient
                  && now > o.storageUntil)
  {
    if orderId in db.orders {
      DecisionIsPublished(db, orderId, order => DecideIssue(order, receiverId, now), f);
    }
  }

  /** An order comes back from the client exactly when it exists, from its receiver, while it is neither in
      storage nor returned already, at most 48 hours after its last update. */
  lemma ClientReturnedExactlyWhen(db: Database, receiverId: nat, orderId: nat, now: Time, f: Faults)
    requires AllDone(f) && SchemaHolds(db)
    ensures var (after, answer) := ClientReturn(db, receiverId, orderId, now, f);
            if orderId !in db.orders then answer == Rejected(NotFound) && after == db else
            var o := db.orders[orderId];
            var inTime := now - o.lastUpdateTime <= 48 * 3_600_000_000_000;
            && (answer.Success? <==>
                  && o.receiverId == receiverId && o.status != InStorage && o.status != ReturnedFromClient && inTime)
            && (answer.Success? ==>
                  Published(db, after, o.(status := ReturnedFromClient, lastUpdateTime := now),
                            OrderHistory(orderId, ReturnedFromClient, now),
                            Event(OrderReturnedByClient, Actor(Client, receiverId),
                                  OrderInfo(orderId, receiverId, "returned_by_client")),
                            f.at))
            && (!answer.Success? ==> after == db)
            && (answer == Rejected(BelongsToDifferentReceiver) <==> o.receiverId != receiverId)
            && (answer == Rejected(AlreadyInStorage) <==>
                  o.receiverId == receiverId && (o.status == InStorage || o.status == ReturnedFromClient))
            && (answer == Rejected(ReturnPeriodExpired) <==>
                  && o.receiverId == receiverId && o.status != InStorage && o.status != ReturnedFromClient && !inTime)
  {
    if orderId in db.orders {
      DecisionIsPublished(db, orderId, order => DecideClientReturn(order, receiverId, now), f);
    }
  }

  /** An order goes back to the courier exactly when it exists, is in storage or was returned by the client,
      and its deadline has come; the status tells the two apart. */
  lemma HandedBackExactlyWhen(db: Database, orderId: nat, checked: Time, stamped: Time, f: Faults)
    requires AllDone(f) && SchemaHolds(db)
    ensures var (after, answer) := CourierReturn(db, orderId, checked, stamped, f);
            if orderId !in db.orders then answer == Rejected(NotFound) && after == db else
            var o := db.orders[orderId];
            var here := o.status == InStorage || o.status == ReturnedFromClient;
            var status := if o.status == ReturnedFromClient then GivenToCourier else ReturnedWithoutClient;
            && (answer.Success? <==> here && checked >= o.storageUntil)
            && (answer.Success? ==>
                  Published(db, after, o.(status := status, lastUpdateTime := stamped),
                            OrderHistory(orderId, status, stamped),
                            Event(OrderReturnedToCourier, Actor(System, 0),
                                  OrderInfo(orderId, o.receiverId, "returned_to_courier")),
                            f.at))
            && (!answer.Success? ==> after == db)
            && (answer == Rejected(NotInStorage) <==> !here)
            && (answer == Rejected(StorageNotExpired) <==> here && checked < o.storageUntil)
  {
    if orderId in db.orders {
      DecisionIsPublished(db, orderId, order => DecideCourierReturn(order, checked, stamped), f);
    }
  }
}
