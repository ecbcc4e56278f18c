/** The tables every component shares, as a value, and the statements of one transaction.
    An outbox row's key is its position in the table: rows are only ever appended. */
module Database {
  import opened Domain

  datatype Database = Database(
    orders: map<nat, Order>,
    history: seq<OrderHistory>,
    outbox: seq<OutboxRow>,
    dlq: map<nat, DlqRow>,
    nextDlq: nat,
    packageTypes: map<string, PackageRules>)

  /** The statements that run inside transactions. */
  datatype Statement =
    | InsertOrder(order: Order)
    | UpdateOrder(order: Order)
    | InsertHistory(entry: OrderHistory)
    | InsertOutbox(event: Event, createdAt: Time)
    | InsertDlq(row: DlqRow)

  /** A foreign key of the schema would be broken. */
  predicate Violates(db: Database, s: Statement) {
    match s
    case InsertOrder(o) => o.orderId !in db.orders && o.packageType !in db.packageTypes
    case UpdateOrder(o) => o.orderId in db.orders && o.packageType !in db.packageTypes
    case InsertHistory(h) => h.orderId !in db.orders
    case InsertOutbox(_, _) => false
    case InsertDlq(_) => false
  }

  /** The number of rows the statement touches: an insert of an existing order does nothing, as
      does an update of a missing one. */
  function RowsAffected(db: Database, s: Statement): nat {
    match s
    case InsertOrder(o) => if o.orderId in db.orders then 0 else 1
    case UpdateOrder(o) => if o.orderId in db.orders then 1 else 0
    case InsertHistory(_) => 1
    case InsertOutbox(_, _) => 1
    case InsertDlq(_) => 1
  }

  /** A statement the repositories accept: no constraint broken and one row touched. */
  predicate Accepts(db: Database, s: Statement) {
    !Violates(db, s) && RowsAffected(db, s) > 0
  }

  function NewOutboxRow(event: Event, createdAt: Time): OutboxRow {
    OutboxRow(event, Created, None, 0, createdAt, None, None)
  }

  function Apply(db: Database, s: Statement): Database
    requires Accepts(db, s)
  {
    match s
    case InsertOrder(o) => db.(orders := db.orders[o.orderId := o])
    case UpdateOrder(o) => db.(orders := db.orders[o.orderId := o])
    case InsertHistory(h) => db.(history := db.history + [h])
    case InsertOutbox(e, at) => db.(outbox := db.outbox + [NewOutboxRow(e, at)])
    case InsertDlq(row) => db.(dlq := db.dlq[db.nextDlq := row], nextDlq := db.nextDlq + 1)
  }

  predicate AcceptsAll(db: Database, stmts: seq<Statement>)
    decreases |stmts|
  {
    stmts == [] || (Accepts(db, stmts[0]) && AcceptsAll(Apply(db, stmts[0]), stmts[1..]))
  }

  function ApplyAll(db: Database, stmts: seq<Statement>): Database
    requires AcceptsAll(db, stmts)
    decreases |stmts|
  {
    if stmts == [] then db else ApplyAll(Apply(db, stmts[0]), stmts[1..])
  }

  /** One more statement at the end of a list already accepted. */
  lemma {:induction false} ApplyAllSnoc(db: Database, stmts: seq<Statement>, s: Statement)
    requires AcceptsAll(db, stmts)
    ensures AcceptsAll(db, stmts + [s]) <==> Accepts(ApplyAll(db, stmts), s)
    ensures Accepts(ApplyAll(db, stmts), s) ==>
              ApplyAll(db, stmts + [s]) == Apply(ApplyAll(db, stmts), s)
    decreases |stmts|
  {
    if stmts == [] {
      assert [s][1..] == [];
    } else {
      ApplyAllSnoc(Apply(db, stmts[0]), stmts[1..], s);
      assert (stmts + [s])[1..] == stmts[1..] + [s];
    }
  }
}
