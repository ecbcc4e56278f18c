/** The times in the life of an order: what each history entry says of the clock reading behind it. */
module LifecycleTimes {
  import opened Domain
  import opened Database
  import opened Consistency
  import opened Lifecycle

  /** The history entries of an order, oldest first. */
  function EntriesOf(history: seq<OrderHistory>, id: nat): seq<OrderHistory>
    decreases |history|
  {
    if history == [] then []
    else
      var h := history[|history| - 1];
      EntriesOf(history[..|history| - 1], id) + if h.orderId == id then [h] else []
  }

  lemma EntriesGrow(history: seq<OrderHistory>, h: OrderHistory, id: nat)
    ensures EntriesOf(history + [h], id)
            == if h.orderId == id then EntriesOf(history, id) + [h] else EntriesOf(history, id)
  {
    assert (history + [h])[..|history + [h]| - 1] == history;
  }

  /** They are the entries of its statuses. */
  lemma {:induction false} EntriesHaveStatuses(history: seq<OrderHistory>, id: nat)
    ensures |EntriesOf(history, id)| == |StatusesOf(history, id)|
    ensures forall k :: 0 <= k < |EntriesOf(history, id)| ==>
              EntriesOf(history, id)[k].status == StatusesOf(history, id)[k]
    decreases |history|
  {
    if history != [] {
      EntriesHaveStatuses(history[..|history| - 1], id);
    }
  }

  /** The guard behind an entry that follows `before`: a hand-back reads the deadline or later, an issue
      the deadline or earlier, and a client returns within the return period of the entry before. */
  predicate InTime(before: Option<OrderHistory>, h: OrderHistory, deadline: Time) {
    && (IsCourier(h.status) ==> h.changedAt >= deadline)
    && (h.status.GivenToClient? ==> h.changedAt <= deadline)
    && (h.status.ReturnedFromClient? ==> before.Some? && h.changedAt - before.value.changedAt <= RETURN_PERIOD)
    && (before.Some? ==> before.value.changedAt <= h.changedAt)
  }

  predicate AllInTime(entries: seq<OrderHistory>, deadline: Time) {
    forall k :: 0 <= k < |entries| ==> InTimeAt(entries, k, deadline)
  }

  predicate InTimeAt(entries: seq<OrderHistory>, k: int, deadline: Time)
    requires 0 <= k < |entries|
  {
    InTime(if k == 0 then None else Some(entries[k - 1]), entries[k], deadline)
  }

  ghost predicate TimedInv(db: Database, clock: Time, id: nat) {
    var entries := EntriesOf(db.history, id);
    if id in db.orders then
      var o := db.orders[id];
      && o.orderId == id && entries != []
      && entries[|entries| - 1] == OrderHistory(id, o.status, o.lastUpdateTime)
      && o.lastUpdateTime <= clock && AllInTime(entries, o.storageUntil)
    else
      entries == []
  }

  /** What the latest history entry of an order says. */
  function LatestEntry(db: Database, id: nat): Option<OrderHistory> {
    if id in db.orders then Some(OrderHistory(id, db.orders[id].status, db.orders[id].lastUpdateTime)) else None
  }

  /** The entry an operation writes is in time. */
  lemma WriteInTime(db: Database, clock: Time, op: Operation, id: nat)
    requires Fits(op) && clock <= op.now && TimedInv(db, clock, id)
    requires WriteOf(db, op).Some? && WriteOf(db, op).value.order.orderId == id
    requires op.DoAccept? <==> id !in db.orders
    requires !op.DoAccept? ==> op.orderId == id
    ensures var w := WriteOf(db, op).value;
            && w.entry == OrderHistory(id, w.order.status, w.order.lastUpdateTime)
            && w.order.lastUpdateTime <= LastReading(op)
            && (id in db.orders ==> w.order.storageUntil == db.orders[id].storageUntil)
            && InTime(LatestEntry(db, id), w.entry, w.order.storageUntil)
  {
  }

  lemma OneMoreInTime(entries: seq<OrderHistory>, h: OrderHistory, deadline: Time)
    requires AllInTime(entries, deadline)
    requires InTime(if entries == [] then None else Some(entries[|entries| - 1]), h, deadline)
    ensures AllInTime(entries + [h], deadline)
  {
    var all := entries + [h];
    forall k | 0 <= k < |all|
      ensures InTimeAt(all, k, deadline)
    {
      if k < |entries| {
        assert InTimeAt(entries, k, deadline);
      }
    }
  }

  lemma OperationKeepsTimes(db: Database, clock: Time, op: Operation, id: nat)
    requires Fits(op) && clock <= op.now
    requires TimedInv(db, clock, id) && (!op.DoAccept? ==> TimedInv(db, clock, op.orderId))
    ensures TimedInv(Execute(db, op).0, LastReading(op), id)
  {
    var after := Execute(db, op).0;
    ExecuteWrites(db, op);
    if !Untouched(db, after) {
      var w := WriteOf(db, op).value;
      if w.order.orderId == id {
        OwnWriteKeepsTimes(db, after, clock, op, id);
      } else {
        assert w.entry.orderId == w.order.orderId;
        EntriesGrow(db.history, w.entry, id);
      }
    }
  }

  lemma OwnWriteKeepsTimes(db: Database, after: Database, clock: Time, op: Operation, id: nat)
    requires Fits(op) && clock <= op.now && TimedInv(db, clock, id)
    requires WriteOf(db, op).Some? && WriteOf(db, op).value.order.orderId == id
    requires op.DoAccept? <==> id !in db.orders
    requires !op.DoAccept? ==> op.orderId == id
    requires Wrote(db, after, WriteOf(db, op).value)
    ensures TimedInv(after, LastReading(op), id)
  {
    var w := WriteOf(db, op).value;
    WriteInTime(db, clock, op, id);
    EntriesGrow(db.history, w.entry, id);
    OneMoreInTime(EntriesOf(db.history, id), w.entry, w.order.storageUntil);
  }

  lemma {:induction false} RunKeepsTimes(db: Database, clock: Time, ops: seq<Operation>, id: nat)
    requires IsHistory(clock, ops)
    requires forall j: nat :: TimedInv(db, clock, j)
    ensures TimedInv(Run(db, clock, ops), EndClock(clock, ops), id)
    decreases |ops|
  {
    if ops != [] {
      var after := Execute(db, ops[0]).0;
      forall j: nat
        ensures TimedInv(after, LastReading(ops[0]), j)
      {
        assert TimedInv(db, clock, id) && TimedInv(db, clock, j);
        OperationKeepsTimes(db, clock, ops[0], j);
      }
      RunKeepsTimes(after, LastReading(ops[0]), ops[1..], id);
    }
  }

  /** In every run each entry of an order's history is in time: hand-backs at or after the deadline,
      issues at or before it, client returns within the return period of the entry before, and no entry
      earlier than the one before. */
  lemma EveryEntryIsInTime(db: Database, clock: Time, ops: seq<Operation>, id: nat)
    requires Empty(db) && IsHistory(clock, ops) && id in Run(db, clock, ops).orders
    ensures var final := Run(db, clock, ops);
            var entries := EntriesOf(final.history, id);
            && AllInTime(entries, final.orders[id].storageUntil)
            && |entries| == |StatusesOf(final.history, id)| > 0
            && entries[|entries| - 1] == OrderHistory(id, final.orders[id].status, final.orders[id].lastUpdateTime)
  {
    forall j: nat
      ensures TimedInv(db, clock, j)
    {
    }
    RunKeepsTimes(db, clock, ops, id);
    EntriesHaveStatuses(Run(db, clock, ops).history, id);
  }
}
