/** The order repository itself: statements on the tables, through the plain client or through an
    open transaction. */
module OrderRepo {
  import opened Domain
  import opened Database
  import opened Transaction
  import opened CachedRepo

  /** The tables after a statement sent through the plain client. */
  function AfterWrite(db: Database, s: Statement, o: Outcome): Database {
    if Accepts(db, s) && o.Applied() then Apply(db, s) else db
  }

  /** What the caller is told: a statement that touches no row or breaks a constraint fails. */
  function WriteReply(db: Database, s: Statement, o: Outcome): Result {
    if Accepts(db, s) then Reply(o) else if o.Crashed() then Dead else Failure
  }

  class OrderRepository {
    const client: DbClient

    constructor (client: DbClient)
      ensures this.client == client
    {
      this.client := client;
    }

    method GetByID(id: nat, o: Outcome) returns (reply: Lookup<Order>)
      ensures reply == StoreGet(client.db, id, o)
    {
      if !o.Done? {
        return Unavailable;
      }
      if id !in client.db.orders {
        return Missing;
      }
      reply := Found(client.db.orders[id]);
    }

    /** Tells, whenever the store answers, whether a read of the order would find it. */
    method Exists(id: nat, o: Outcome) returns (reply: Lookup<bool>)
      ensures !reply.Missing? && (reply.Unavailable? <==> StoreGet(client.db, id, o).Unavailable?)
      ensures reply.Found? ==> (reply.value <==> StoreGet(client.db, id, o).Found?)
    {
      if !o.Done? {
        return Unavailable;
      }
      reply := Found(id in client.db.orders);
    }

    /** Scans the selected rows one by one; no row at all is an error. */
    method GetPackageRules(code: string, o: Outcome) returns (reply: Lookup<seq<PackageRules>>)
      ensures reply == StoreRules(client.db, code, o)
    {
      if !o.Done? {
        return Unavailable;
      }
      var rules: seq<PackageRules> := [];
      if code in client.db.packageTypes {
        rules := rules + [client.db.packageTypes[code]];
        assert rules == [client.db.packageTypes[code]];
      }
      reply := if |rules| == 0 then Missing else Found(rules);
    }

    method Save(order: Order, o: Outcome) returns (r: Result)
      modifies client
      ensures client.db == AfterWrite(old(client.db), InsertOrder(order), o)
      ensures r == WriteReply(old(client.db), InsertOrder(order), o)
    {
      r := if o.Crashed() then Dead else Failure;
      if order.orderId in client.db.orders || order.packageType !in client.db.packageTypes {
        return;
      }
      if o.Applied() {
        client.db := client.db.(orders := client.db.orders[order.orderId := order]);
      }
      r := Reply(o);
    }

    method Update(order: Order, o: Outcome) returns (r: Result)
      modifies client
      ensures client.db == AfterWrite(old(client.db), UpdateOrder(order), o)
      ensures r == WriteReply(old(client.db), UpdateOrder(order), o)
    {
      r := if o.Crashed() then Dead else Failure;
      if order.orderId !in client.db.orders || order.packageType !in client.db.packageTypes {
        return;
      }
      if o.Applied() {
        client.db := client.db.(orders := client.db.orders[order.orderId := order]);
      }
      r := Reply(o);
    }

    method SaveHistory(h: OrderHistory, o: Outcome) returns (r: Result)
      modifies client
      ensures client.db == AfterWrite(old(client.db), InsertHistory(h), o)
      ensures r == WriteReply(old(client.db), InsertHistory(h), o)
    {
      r := if o.Crashed() then Dead else Failure;
      if h.orderId !in client.db.orders {
        return;
      }
      if o.Applied() {
        client.db := client.db.(history := client.db.history + [h]);
      }
      r := Reply(o);
    }
  }
}
