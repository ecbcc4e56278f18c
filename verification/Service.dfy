/** The operations of the pickup point: each reads the order, applies its guards, and writes the
    order, its history and the event in one transaction. */
module Service {
  import opened Domain
  import opened Database
  import opened Transaction

  datatype Rejection =
    | NotFound
    | AlreadyExists
    | NoPackageRules
    | WeightTooHeavy
    | BelongsToDifferentReceiver
    | AlreadyGiven
    | UnavailableReturned
    | StorageExpired
    | AlreadyInStorage
    | ReturnPeriodExpired
    | NotInStorage
    | StorageNotExpired

  datatype Decision<T> = Go(value: T) | Reject(why: Rejection)

  /** What an operation answers: done, refused by a guard, broken by the database, or cut off. */
  datatype Answer = Success | Rejected(why: Rejection) | Broken | Died

  datatype AcceptRequest = AcceptRequest(
    receiverId: nat, orderId: nat, storageUntil: Time, weight: real, price: real, packageType: string)

  /** The three writes of one operation. */
  datatype Write = Write(order: Order, entry: OrderHistory, event: Event)

  /** The fate of the round trips of one operation; `at` is the transaction's start. */
  datatype Faults = Faults(read: Outcome, rules: Outcome, at: Time, tx: TxFaults)

  predicate FaultsFit(f: Faults) {
    |f.tx.exec| == 3
  }

  // ---------------------------------------------------------------- decisions

  function GetById(db: Database, orderId: nat): Decision<Order> {
    if orderId in db.orders then Go(db.orders[orderId]) else Reject(NotFound)
  }

  /** The rules of a package code, or an error when it has none. */
  function GetPackageRules(db: Database, code: string): Decision<seq<PackageRules>> {
    if code in db.packageTypes then Go([db.packageTypes[code]]) else Reject(NoPackageRules)
  }

  predicate TooHeavy(weight: real, rules: PackageRules) {
    rules.maxWeight > 0.0 && weight > rules.maxWeight
  }

  function Surcharge(rules: seq<PackageRules>): real {
    if rules == [] then 0.0 else Surcharge(rules[..|rules| - 1]) + rules[|rules| - 1].price
  }

  /** Base price and surcharges, unless some rule forbids the weight. */
  function TotalPrice(rules: seq<PackageRules>, weight: real, price: real): Decision<real> {
    if exists k :: 0 <= k < |rules| && TooHeavy(weight, rules[k]) then Reject(WeightTooHeavy)
    else Go(price + Surcharge(rules))
  }

  function AcceptedWrite(req: AcceptRequest, total: real, now: Time): Write {
    Write(
      Order(req.orderId, req.receiverId, req.storageUntil, InStorage, now, now, req.packageType, req.weight, total),
      OrderHistory(req.orderId, InStorage, now),
      Event(OrderAccepted, Actor(Courier, 1), OrderInfo(req.orderId, req.receiverId, "accepted")))
  }

  /** The rules that apply: none are asked for when no package is named. */
  function ApplicableRules(db: Database, packageType: string): Decision<seq<PackageRules>> {
    if packageType == "" then Go([]) else GetPackageRules(db, packageType)
  }

  function DecideIssue(order: Order, receiverId: nat, now: Time): Decision<Write> {
    if order.receiverId != receiverId then Reject(BelongsToDifferentReceiver)
    else if order.status.GivenToClient? then Reject(AlreadyGiven)
    else if order.status.ReturnedFromClient? then Reject(UnavailableReturned)
    else if now > order.storageUntil then Reject(StorageExpired)
    else Go(Write(
              order.(status := GivenToClient, lastUpdateTime := now),
              OrderHistory(order.orderId, GivenToClient, now),
              Event(OrderIssued, Actor(Client, receiverId), OrderInfo(order.orderId, receiverId, "issued"))))
  }

  function DecideClientReturn(order: Order, receiverId: nat, now: Time): Decision<Write> {
    if order.receiverId != receiverId then Reject(BelongsToDifferentReceiver)
    else if order.status.InStorage? || order.status.ReturnedFromClient? then Reject(AlreadyInStorage)
    else if now - order.lastUpdateTime > RETURN_PERIOD then Reject(ReturnPeriodExpired)
    else Go(Write(
              order.(status := ReturnedFromClient, lastUpdateTime := now),
              OrderHistory(order.orderId, ReturnedFromClient, now),
              Event(OrderReturnedByClient, Actor(Client, receiverId),
                    OrderInfo(order.orderId, receiverId, "returned_by_client"))))
  }

  /** The clock is read twice: for the guard, and again for the stamp. */
  function DecideCourierReturn(order: Order, checked: Time, stamped: Time): Decision<Write> {
    if !order.status.InStorage? && !order.status.ReturnedFromClient? then Reject(NotInStorage)
    else if checked < order.storageUntil then Reject(StorageNotExpired)
    else
      var status := if order.status.ReturnedFromClient? then GivenToCourier else ReturnedWithoutClient;
      Go(Write(
           order.(status := status, lastUpdateTime := stamped),
           OrderHistory(order.orderId, status, stamped),
           Event(OrderReturnedToCourier, Actor(System, 0),
                 OrderInfo(order.orderId, order.receiverId, "returned_to_courier"))))
  }

  function InsertStatements(w: Write, at: Time): (stmts: seq<Statement>)
    ensures |stmts| == 3
  {
    [InsertOrder(w.order), InsertHistory(w.entry), InsertOutbox(w.event, at)]
  }

  function UpdateStatements(w: Write, at: Time): (stmts: seq<Statement>)
    ensures |stmts| == 3
  {
    [UpdateOrder(w.order), InsertHistory(w.entry), InsertOutbox(w.event, at)]
  }

  // ---------------------------------------------------------------- operations

  function FromResult(r: Transaction.Result): Answer {
    match r
    case Ok => Success
    case Failure => Broken
    case Dead => Died
  }

  /** The transaction of a decision, or its rejection. */
  function Perform(db: Database, d: Decision<seq<Statement>>, f: Faults): (Database, Answer)
    requires FaultsFit(f) && (d.Go? ==> |d.value| == 3)
  {
    match d
    case Reject(why) => (db, Rejected(why))
    case Go(stmts) =>
      var (after, r) := RunTransaction(db, stmts, f.tx);
      (after, FromResult(r))
  }

  function AcceptPlan(db: Database, req: AcceptRequest, now: Time, at: Time): (d: Decision<seq<Statement>>)
    ensures d.Go? ==> |d.value| == 3
  {
    match ApplicableRules(db, req.packageType)
    case Reject(why) => Reject(why)
    case Go(rules) =>
      match TotalPrice(rules, req.weight, req.price)
      case Reject(why) => Reject(why)
      case Go(total) => Go(InsertStatements(AcceptedWrite(req, total, now), at))
  }

  /** A failed look-up counts as "no such order": the insert then decides. */
  function Accept(db: Database, req: AcceptRequest, now: Time, f: Faults): (Database, Answer)
    requires FaultsFit(f)
  {
    if f.read.Crashed() then (db, Died)
    else if f.read.Done? && req.orderId in db.orders then (db, Rejected(AlreadyExists))
    else if req.packageType != "" && f.rules.Crashed() then (db, Died)
    else if req.packageType != "" && !f.rules.Done? then (db, Broken)
    else Perform(db, AcceptPlan(db, req, now, f.at), f)
  }

  function PlanOf(d: Decision<Write>, at: Time): (p: Decision<seq<Statement>>)
    ensures p.Go? ==> |p.value| == 3
  {
    match d
    case Reject(why) => Reject(why)
    case Go(w) => Go(UpdateStatements(w, at))
  }

  /** An operation on an existing order: the decision on the row read, then its transaction. */
  function OnOrder(db: Database, orderId: nat, decide: Order -> Decision<Write>, f: Faults): (Database, Answer)
    requires FaultsFit(f)
  {
    if f.read.Crashed() then (db, Died)
    else if !f.read.Done? then (db, Broken)
    else match GetById(db, orderId)
      case Reject(why) => (db, Rejected(why))
      case Go(order) => Perform(db, PlanOf(decide(order), f.at), f)
  }

  function Issue(db: Database, receiverId: nat, orderId: nat, now: Time, f: Faults): (Database, Answer)
    requires FaultsFit(f)
  {
    OnOrder(db, orderId, order => DecideIssue(order, receiverId, now), f)
  }

  function ClientReturn(db: Database, receiverId: nat, orderId: nat, now: Time, f: Faults): (Database, Answer)
    requires FaultsFit(f)
  {
    OnOrder(db, orderId, order => DecideClientReturn(order, receiverId, now), f)
  }

  function CourierReturn(db: Database, orderId: nat, checked: Time, stamped: Time, f: Faults): (Database, Answer)
    requires FaultsFit(f)
  {
    OnOrder(db, orderId, order => DecideCourierReturn(order, checked, stamped), f)
  }

  // ---------------------------------------------------------------- the service object

  class PVZService {
    const dbClient: DbClient

    constructor (dbClient: DbClient)
      ensures this.dbClient == dbClient
    {
      this.dbClient := dbClient;
    }

    method ReadOrder(orderId: nat, o: Outcome) returns (r: Transaction.Result, d: Decision<Order>)
      ensures r == Reply(o) && d == GetById(dbClient.db, orderId)
    {
      r, d := Reply(o), GetById(dbClient.db, orderId);
    }

    /** The weight check and the price sum, rule by rule. */
    method PriceOf(rules: seq<PackageRules>, weight: real, price: real) returns (d: Decision<real>)
      ensures d == TotalPrice(rules, weight, price)
      ensures d.Reject? <==>
              exists k :: 0 <= k < |rules| && rules[k].maxWeight > 0.0 && weight > rules[k].maxWeight
    {
      var total := price;
      var k := 0;
      while k < |rules|
        invariant 0 <= k <= |rules|
        invariant forall j :: 0 <= j < k ==> !TooHeavy(weight, rules[j])
        invariant total == price + Surcharge(rules[..k])
      {
        if rules[k].maxWeight > 0.0 && weight > rules[k].maxWeight {
          assert TooHeavy(weight, rules[k]);
          return Reject(WeightTooHeavy);
        }
        total := total + rules[k].price;
        assert rules[..k + 1][..k] == rules[..k];
        k := k + 1;
      }
      assert rules[..k] == rules;
      d := Go(total);
    }

    method AcceptOrder(req: AcceptRequest, now: Time, f: Faults) returns (answer: Answer)
      requires FaultsFit(f)
      modifies dbClient
      ensures (dbClient.db, answer) == Accept(old(dbClient.db), req, now, f)
    {
      var r, found := ReadOrder(req.orderId, f.read);
      if r.Dead? {
        return Died;
      }
      if r.Ok? && found.Go? {
        return Rejected(AlreadyExists);
      }
      var rules: seq<PackageRules> := [];
      if req.packageType != "" {
        if !f.rules.Done? {
          return FromResult(Reply(f.rules));
        }
        var answered := GetPackageRules(dbClient.db, req.packageType);
        if answered.Reject? {
          return Rejected(answered.why);
        }
        rules := answered.value;
      }
      var priced := PriceOf(rules, req.weight, req.price);
      if priced.Reject? {
        return Rejected(priced.why);
      }
      var order := Order(req.orderId, req.receiverId, req.storageUntil, InStorage, now, now,
                         req.packageType, req.weight, priced.value);
      var entry := OrderHistory(req.orderId, InStorage, now);
      var event := Event(OrderAccepted, Actor(Courier, 1), OrderInfo(req.orderId, req.receiverId, "accepted"));
      r := dbClient.WithTransaction([InsertOrder(order), InsertHistory(entry), InsertOutbox(event, f.at)], f.tx);
      answer := FromResult(r);
    }

    method IssueSingle(receiverId: nat, orderId: nat, now: Time, f: Faults) returns (answer: Answer)
      requires FaultsFit(f)
      requires WellKeyed(dbClient.db)
      modifies dbClient
      ensures (dbClient.db, answer) == Issue(old(dbClient.db), receiverId, orderId, now, f)
    {
      var r, found := ReadOrder(orderId, f.read);
      if !r.Ok? {
        return FromResult(r);
      }
      if found.Reject? {
        return Rejected(found.why);
      }
      var order := found.value;
      if order.receiverId != receiverId {
        return Rejected(BelongsToDifferentReceiver);
      }
      if order.status == GivenToClient {
        return Rejected(AlreadyGiven);
      }
      if order.status == ReturnedFromClient {
        return Rejected(UnavailableReturned);
      }
      if now > order.storageUntil {
        return Rejected(StorageExpired);
      }
      order := order.(status := GivenToClient);
      order := order.(lastUpdateTime := now);
      var entry := OrderHistory(orderId, GivenToClient, now);
      var event := Event(OrderIssued, Actor(Client, receiverId), OrderInfo(orderId, receiverId, "issued"));
      r := dbClient.WithTransaction([UpdateOrder(order), InsertHistory(entry), InsertOutbox(event, f.at)], f.tx);
      answer := FromResult(r);
    }

    method ReturnSingle(receiverId: nat, orderId: nat, now: Time, f: Faults) returns (answer: Answer)
      requires FaultsFit(f)
      requires WellKeyed(dbClient.db)
      modifies dbClient
      ensures (dbClient.db, answer) == ClientReturn(old(dbClient.db), receiverId, orderId, now, f)
    {
      var r, found := ReadOrder(orderId, f.read);
      if !r.Ok? {
        return FromResult(r);
      }
      if found.Reject? {
        return Rejected(found.why);
      }
      var order := found.value;
      if order.receiverId != receiverId {
        return Rejected(BelongsToDifferentReceiver);
      }
      if order.status == InStorage || order.status == ReturnedFromClient {
        return Rejected(AlreadyInStorage);
      }
      if now - order.lastUpdateTime > RETURN_PERIOD {
        return Rejected(ReturnPeriodExpired);
      }
      order := order.(status := ReturnedFromClient);
      order := order.(lastUpdateTime := now);
      var entry := OrderHistory(orderId, ReturnedFromClient, now);
      var event := Event(OrderReturnedByClient, Actor(Client, receiverId),
                         OrderInfo(orderId, receiverId, "returned_by_client"));
      r := dbClient.WithTransaction([UpdateOrder(order), InsertHistory(entry), InsertOutbox(event, f.at)], f.tx);
      answer := FromResult(r);
    }

    method ReturnOrderToDelivery(orderId: nat, checked: Time, stamped: Time, f: Faults) returns (answer: Answer)
      requires FaultsFit(f)
      requires WellKeyed(dbClient.db)
      modifies dbClient
      ensures (dbClient.db, answer) == CourierReturn(old(dbClient.db), orderId, checked, stamped, f)
    {
      var r, found := ReadOrder(orderId, f.read);
      if !r.Ok? {
        return FromResult(r);
      }
      if found.Reject? {
        return Rejected(found.why);
      }
      var order := found.value;
      if order.status != InStorage && order.status != ReturnedFromClient {
        return Rejected(NotInStorage);
      }
      if checked < order.storageUntil {
        return Rejected(StorageNotExpired);
      }
      var newStatus := ReturnedWithoutClient;
      if order.status == ReturnedFromClient {
        newStatus := GivenToCourier;
      }
      order := order.(status := newStatus);
      order := order.(lastUpdateTime := stamped);
      var entry := OrderHistory(orderId, newStatus, order.lastUpdateTime);
      var event := Event(OrderReturnedToCourier, Actor(System, 0),
                         OrderInfo(orderId, order.receiverId, "returned_to_courier"));
      r := dbClient.WithTransaction([UpdateOrder(order), InsertHistory(entry), InsertOutbox(event, f.at)], f.tx);
      answer := FromResult(r);
    }
  }

  /** Every order is stored under its own id. */
  ghost predicate WellKeyed(db: Database) {
    forall id :: id in db.orders ==> db.orders[id].orderId == id
  }
}
