/** What of the tables a cached answer depends on: the rows it shows. An answer is right exactly when it
    shows all the rows there are to show under its key, and statements leave it right exactly when each
    order they write and each history entry they add is unseen under that key, before and after. */
module CacheViews {
  import opened Domain
  import opened Database
  import opened CacheKeys
  import opened CachedRepo
  import opened Service

  /** Rows of the two tables that are cached: orders by id, history entries with their multiplicity. */
  datatype Shown = Shown(orders: map<nat, Order>, entries: multiset<OrderHistory>)

  /** The rows that make up the answer under a key. */
  datatype Relevance = Relevance(order: (string, Order) -> bool, entry: (string, OrderHistory) -> bool)

  function View(db: Database, key: string, relevant: Relevance): Shown {
    Shown(Rows(db, key, relevant.order), Entries(db.history, key, relevant.entry))
  }

  function Rows(db: Database, key: string, relevant: (string, Order) -> bool): map<nat, Order> {
    map id | id in db.orders && relevant(key, db.orders[id]) :: db.orders[id]
  }

  function Entries(history: seq<OrderHistory>, key: string, relevant: (string, OrderHistory) -> bool)
    : multiset<OrderHistory>
  {
    if history == [] then multiset{}
    else
      var h := history[|history| - 1];
      Entries(history[..|history| - 1], key, relevant) + if relevant(key, h) then multiset{h} else multiset{}
  }

  function Count(shown: Shown): nat {
    |shown.orders| + |shown.entries|
  }

  /** All that is shown, and perhaps not all there is to show. */
  predicate Within(some: Shown, all: Shown) {
    && (forall id :: id in some.orders ==> id in all.orders && all.orders[id] == some.orders[id])
    && some.entries <= all.entries
  }

  /** As many rows are all the rows. */
  lemma SameCountSameRows(some: Shown, all: Shown)
    requires Within(some, all)
    ensures Count(some) == Count(all) <==> some == all
  {
    var left := all.orders.Keys - some.orders.Keys;
    assert all.orders.Keys == some.orders.Keys + left;
    assert |all.orders| == |some.orders| + |left|;
    assert all.entries == some.entries + (all.entries - some.entries);
    assert |all.entries| == |some.entries| + |all.entries - some.entries|;
    if Count(some) == Count(all) {
      assert left == {} && all.entries - some.entries == multiset{};
      assert some.orders == all.orders;
    }
  }

  // ---------------------------------------------------------------- what statements write

  /** The rows a list of statements leaves behind, by id. */
  function Written(stmts: seq<Statement>): map<nat, Order>
    decreases |stmts|
  {
    if stmts == [] then map[] else WrittenBy(stmts[0]) + Written(stmts[1..])
  }

  function WrittenBy(s: Statement): map<nat, Order> {
    if s.InsertOrder? || s.UpdateOrder? then map[s.order.orderId := s.order] else map[]
  }

  lemma {:induction false} WrittenIsApplied(db: Database, stmts: seq<Statement>)
    requires AcceptsAll(db, stmts)
    ensures ApplyAll(db, stmts).orders == db.orders + Written(stmts)
    decreases |stmts|
  {
    if stmts != [] {
      var rest := stmts[1..];
      assert Apply(db, stmts[0]).orders == db.orders + WrittenBy(stmts[0]);
      WrittenIsApplied(Apply(db, stmts[0]), rest);
      UnionAssociates(db.orders, WrittenBy(stmts[0]), Written(rest));
    } else {
      assert db.orders + map[] == db.orders;
    }
  }

  lemma UnionAssociates(a: map<nat, Order>, b: map<nat, Order>, c: map<nat, Order>)
    ensures a + b + c == a + (b + c)
  {
  }

  lemma {:induction false} WrittenIsKeyed(stmts: seq<Statement>)
    ensures forall id :: id in Written(stmts) ==> Written(stmts)[id].orderId == id
    decreases |stmts|
  {
    if stmts != [] {
      WrittenIsKeyed(stmts[1..]);
    }
  }

  lemma StaysWellKeyed(db: Database, stmts: seq<Statement>)
    requires WellKeyed(db) && AcceptsAll(db, stmts)
    ensures WellKeyed(ApplyAll(db, stmts))
  {
    WrittenIsApplied(db, stmts);
    WrittenIsKeyed(stmts);
  }

  /** A row written with what is stored already, or of no interest under the key, before or after. */
  predicate Unseen(db: Database, id: nat, row: Order, key: string, relevant: (string, Order) -> bool) {
    || (id in db.orders && db.orders[id] == row)
    || (!relevant(key, row) && (id in db.orders ==> !relevant(key, db.orders[id])))
  }

  predicate WritesUnseen(db: Database, stmts: seq<Statement>, key: string, relevant: (string, Order) -> bool) {
    forall id :: id in Written(stmts) ==> Unseen(db, id, Written(stmts)[id], key, relevant)
  }

  /** Each order left behind is unseen, and each entry added is of no interest. */
  predicate LeavesAlone(db: Database, stmts: seq<Statement>, key: string, relevant: Relevance) {
    WritesUnseen(db, stmts, key, relevant.order) && AddsNothing(stmts, key, relevant.entry)
  }

  lemma RowsStayExactlyWhen(db: Database, stmts: seq<Statement>, key: string, relevant: (string, Order) -> bool)
    requires AcceptsAll(db, stmts)
    ensures Rows(ApplyAll(db, stmts), key, relevant) == Rows(db, key, relevant) <==>
            WritesUnseen(db, stmts, key, relevant)
  {
    WrittenIsApplied(db, stmts);
    var before, after, w := Rows(db, key, relevant), Rows(ApplyAll(db, stmts), key, relevant), Written(stmts);
    if before == after {
      forall id | id in w
        ensures Unseen(db, id, w[id], key, relevant)
      {
        assert id in after <==> relevant(key, w[id]);
        assert id in before <==> id in db.orders && relevant(key, db.orders[id]);
      }
    }
    if WritesUnseen(db, stmts, key, relevant) {
      forall id: nat
        ensures id in after <==> id in before
        ensures id in after ==> after[id] == before[id]
      {
        assert id in w ==> Unseen(db, id, w[id], key, relevant);
      }
    }
  }

  /** The entries of interest that a list of statements adds. */
  function Added(stmts: seq<Statement>, key: string, relevant: (string, OrderHistory) -> bool): multiset<OrderHistory>
    decreases |stmts|
  {
    if stmts == [] then multiset{} else AddedBy(stmts[0], key, relevant) + Added(stmts[1..], key, relevant)
  }

  function AddedBy(s: Statement, key: string, relevant: (string, OrderHistory) -> bool): multiset<OrderHistory> {
    if s.InsertHistory? && relevant(key, s.entry) then multiset{s.entry} else multiset{}
  }

  lemma AddedOnce(db: Database, s: Statement, key: string, relevant: (string, OrderHistory) -> bool)
    requires Accepts(db, s)
    ensures Entries(Apply(db, s).history, key, relevant)
            == Entries(db.history, key, relevant) + AddedBy(s, key, relevant)
  {
    if s.InsertHistory? {
      var after := Apply(db, s).history;
      assert after[..|after| - 1] == db.history;
    }
  }

  lemma {:induction false} AddedIsApplied(db: Database, stmts: seq<Statement>, key: string,
                                          relevant: (string, OrderHistory) -> bool)
    requires AcceptsAll(db, stmts)
    ensures Entries(ApplyAll(db, stmts).history, key, relevant)
            == Entries(db.history, key, relevant) + Added(stmts, key, relevant)
    decreases |stmts|
  {
    if stmts != [] {
      AddedOnce(db, stmts[0], key, relevant);
      AddedIsApplied(Apply(db, stmts[0]), stmts[1..], key, relevant);
    }
  }

  predicate AddsNothing(stmts: seq<Statement>, key: string, relevant: (string, OrderHistory) -> bool) {
    forall i :: 0 <= i < |stmts| && stmts[i].InsertHistory? ==> !relevant(key, stmts[i].entry)
  }

  lemma {:induction false} AddsNothingExactlyWhen(stmts: seq<Statement>, key: string,
                                                  relevant: (string, OrderHistory) -> bool)
    ensures Added(stmts, key, relevant) == multiset{} <==> AddsNothing(stmts, key, relevant)
    decreases |stmts|
  {
    if stmts != [] {
      var rest := stmts[1..];
      AddsNothingExactlyWhen(rest, key, relevant);
      assert forall i :: 1 <= i < |stmts| ==> stmts[i] == rest[i - 1];
      assert AddsNothing(stmts, key, relevant) <==>
             AddedBy(stmts[0], key, relevant) == multiset{} && AddsNothing(rest, key, relevant) by {
        if AddsNothing(stmts, key, relevant) {
          assert forall i :: 0 <= i < |rest| ==> rest[i] == stmts[i + 1];
        }
      }
      assert |Added(stmts, key, relevant)| == |AddedBy(stmts[0], key, relevant)| + |Added(rest, key, relevant)|;
    }
  }

  /** Entries are only ever added. */
  lemma EntriesStayExactlyWhen(db: Database, stmts: seq<Statement>, key: string,
                               relevant: (string, OrderHistory) -> bool)
    requires AcceptsAll(db, stmts)
    ensures Entries(ApplyAll(db, stmts).history, key, relevant) == Entries(db.history, key, relevant) <==>
            AddsNothing(stmts, key, relevant)
  {
    AddedIsApplied(db, stmts, key, relevant);
    AddsNothingExactlyWhen(stmts, key, relevant);
    var before, added := Entries(db.history, key, relevant), Added(stmts, key, relevant);
    assert |before + added| == |before| + |added|;
  }

  /** Statements leave the answer under a key alone exactly when each row they write is unseen. */
  lemma ViewStaysExactlyWhen(db: Database, stmts: seq<Statement>, key: string, relevant: Relevance)
    requires AcceptsAll(db, stmts)
    ensures View(ApplyAll(db, stmts), key, relevant) == View(db, key, relevant) <==>
            LeavesAlone(db, stmts, key, relevant)
  {
    RowsStayExactlyWhen(db, stmts, key, relevant.order);
    EntriesStayExactlyWhen(db, stmts, key, relevant.entry);
    var before, after := View(db, key, relevant), View(ApplyAll(db, stmts), key, relevant);
    assert before == after <==> before.orders == after.orders && before.entries == after.entries;
  }

  lemma OneStatement(db: Database, s: Statement)
    requires Accepts(db, s)
    ensures AcceptsAll(db, [s]) && ApplyAll(db, [s]) == Apply(db, s)
  {
    assert [s][1..] == [];
    assert ApplyAll(Apply(db, s), []) == Apply(db, s);
  }

  /** The tables only grow. */
  lemma {:induction false} TablesGrow(db: Database, stmts: seq<Statement>)
    requires AcceptsAll(db, stmts)
    ensures db.orders.Keys <= ApplyAll(db, stmts).orders.Keys && db.history <= ApplyAll(db, stmts).history
    decreases |stmts|
  {
    if stmts != [] {
      TablesGrow(Apply(db, stmts[0]), stmts[1..]);
    }
  }

  // ---------------------------------------------------------------- orders

  ghost predicate OrderRight(db: Database, key: string, o: Order) {
    exists id: nat :: key == OrderKey(id) && id in db.orders && db.orders[id] == o
  }

  lemma OrderRightAt(db: Database, id: nat, value: Order)
    ensures OrderRight(db, OrderKey(id), value) <==> id in db.orders && db.orders[id] == value
  {
    if OrderRight(db, OrderKey(id), value) {
      var other: nat :| OrderKey(id) == OrderKey(other) && other in db.orders && db.orders[other] == value;
      OrderKeyInjective(other, id);
    }
  }

  const ONE_ORDER: Relevance :=
    Relevance((key: string, o: Order) => key == OrderKey(o.orderId), (key: string, h: OrderHistory) => false)

  function ShownOrder(o: Order): Shown {
    Shown(map[o.orderId := o], multiset{})
  }

  lemma {:induction false} NoEntries(history: seq<OrderHistory>, key: string, relevant: (string, OrderHistory) -> bool)
    requires forall h :: !relevant(key, h)
    ensures Entries(history, key, relevant) == multiset{}
  {
    if history != [] {
      NoEntries(history[..|history| - 1], key, relevant);
    }
  }

  /** A row is the stored one exactly when it is all there is to show. */
  lemma OrderRightExactlyWhenShown(db: Database, id: nat, o: Order)
    requires WellKeyed(db) && o.orderId == id
    ensures OrderRight(db, OrderKey(id), o) <==> View(db, OrderKey(id), ONE_ORDER) == ShownOrder(o)
  {
    var rows := Rows(db, OrderKey(id), ONE_ORDER.order);
    OrderRightAt(db, id, o);
    NoEntries(db.history, OrderKey(id), ONE_ORDER.entry);
    forall other: nat
      ensures other in rows <==> other == id && id in db.orders
    {
      OrderKeyInjective(other, id);
    }
    var sole := map[id := o];
    assert id in sole && sole[id] == o;
    assert id in rows ==> rows[id] == db.orders[id];
  }

  // ---------------------------------------------------------------- lists

  /** The order is on the list kept under the key. */
  predicate OnList(key: string, o: Order) {
    key == ALL_ORDERS || (key == RETURNED_ORDERS && IsReturned(o)) || key == ReceiverKey(o.receiverId)
  }

  ghost predicate IsListKey(key: string) {
    key == ALL_ORDERS || key == RETURNED_ORDERS || exists id: nat :: key == ReceiverKey(id)
  }

  ghost predicate ListRight(db: Database, key: string, rows: seq<Order>) {
    && IsListKey(key) && Lists(db, (o: Order) => OnList(key, o), rows)
    && (key == ALL_ORDERS || key == RETURNED_ORDERS ==> LatestFirst(rows))
  }

  /** A right list is what the repository's queries answer. */
  lemma ListRightMeans(db: Database, key: string, rows: seq<Order>, id: nat)
    ensures ListRight(db, ALL_ORDERS, rows) <==> AnswersAll(db, rows)
    ensures ListRight(db, RETURNED_ORDERS, rows) <==> AnswersReturned(db, rows)
    ensures ListRight(db, ReceiverKey(id), rows) <==> AnswersReceiver(db, id, rows)
  {
    forall other: nat
      ensures ReceiverKey(other) != RETURNED_ORDERS && ReceiverKey(other) != ALL_ORDERS && RETURNED_ORDERS != ALL_ORDERS
      ensures ReceiverKey(other) == ReceiverKey(id) ==> other == id
    {
      ReceiverKeysApart(other, id);
    }
  }

  const ONE_LIST: Relevance := Relevance(OnList, (key: string, h: OrderHistory) => false)

  /** The rows of a list, by id. */
  function ById(rows: seq<Order>): map<nat, Order> {
    if rows == [] then map[]
    else
      var o := rows[|rows| - 1];
      ById(rows[..|rows| - 1])[o.orderId := o]
  }

  function ShownList(rows: seq<Order>): Shown {
    Shown(ById(rows), multiset{})
  }

  predicate DistinctIds(rows: seq<Order>) {
    forall i, j :: 0 <= i < j < |rows| ==> rows[i].orderId != rows[j].orderId
  }

  lemma {:induction false} ByIdFacts(rows: seq<Order>)
    requires DistinctIds(rows)
    ensures |ById(rows)| == |rows|
    ensures forall i :: 0 <= i < |rows| ==> rows[i].orderId in ById(rows) && ById(rows)[rows[i].orderId] == rows[i]
    ensures forall id :: id in ById(rows) ==> ById(rows)[id] in rows && ById(rows)[id].orderId == id
  {
    if rows != [] {
      var n := |rows| - 1;
      var some := rows[..n];
      ByIdFacts(some);
      OneMore(ById(some), rows[n].orderId, rows[n]);
      assert forall i :: 0 <= i < n ==> some[i] == rows[i];
      assert rows[n] in rows;
    }
  }

  lemma OneMore(m: map<nat, Order>, id: nat, o: Order)
    requires id !in m
    ensures |m[id := o]| == |m| + 1
  {
    assert m[id := o].Keys == m.Keys + {id};
  }

  /** A list has every row once exactly when it shows what there is to show. */
  lemma ListsExactlyWhenShown(db: Database, key: string, rows: seq<Order>)
    requires WellKeyed(db) && DistinctIds(rows)
    ensures Lists(db, (o: Order) => OnList(key, o), rows) <==> Rows(db, key, OnList) == ById(rows)
  {
    if Lists(db, (o: Order) => OnList(key, o), rows) {
      ListIsShown(db, key, rows);
    }
    if Rows(db, key, OnList) == ById(rows) {
      ShownIsList(db, key, rows);
    }
  }

  lemma ListIsShown(db: Database, key: string, rows: seq<Order>)
    requires WellKeyed(db) && Lists(db, (o: Order) => OnList(key, o), rows)
    ensures Rows(db, key, OnList) == ById(rows)
  {
    ByIdFacts(rows);
    var all := Rows(db, key, OnList);
    forall id: nat
      ensures id in all <==> id in ById(rows)
      ensures id in all ==> all[id] == ById(rows)[id]
    {
      if id in all {
        assert db.orders[id] in rows;
      }
    }
  }

  lemma ShownIsList(db: Database, key: string, rows: seq<Order>)
    requires DistinctIds(rows) && Rows(db, key, OnList) == ById(rows)
    ensures Lists(db, (o: Order) => OnList(key, o), rows)
  {
    ByIdFacts(rows);
    var all := Rows(db, key, OnList);
    forall id | id in db.orders && OnList(key, db.orders[id])
      ensures db.orders[id] in rows
    {
      assert id in all;
    }
    forall i | 0 <= i < |rows|
      ensures rows[i].orderId in db.orders && db.orders[rows[i].orderId] == rows[i] && OnList(key, rows[i])
    {
      assert rows[i].orderId in all;
    }
  }

  /** A list of rows fits two tables exactly when they show the same rows. */
  lemma ListsDetermine(db: Database, db': Database, key: string, rows: seq<Order>)
    requires WellKeyed(db) && WellKeyed(db') && Lists(db, (o: Order) => OnList(key, o), rows)
    ensures Lists(db', (o: Order) => OnList(key, o), rows) <==> Rows(db', key, OnList) == Rows(db, key, OnList)
  {
    ListsExactlyWhenShown(db, key, rows);
    ListsExactlyWhenShown(db', key, rows);
  }

  // ---------------------------------------------------------------- lists cut short

  /** The first rows of a right list: the loops that read rows do not ask why the rows ended. */
  ghost predicate PartOfList(db: Database, key: string, rows: seq<Order>) {
    exists full :: rows <= full && ListRight(db, key, full)
  }

  /** What is read of a list is the right list exactly when it shows what there is to show. */
  lemma PartIsRightExactlyWhenShown(db: Database, db': Database, key: string, rows: seq<Order>)
    requires WellKeyed(db') && PartOfList(db, key, rows)
    ensures ListRight(db', key, rows) <==> View(db', key, ONE_LIST) == ShownList(rows)
  {
    var full :| rows <= full && ListRight(db, key, full);
    NoEntries(db'.history, key, ONE_LIST.entry);
    ListsExactlyWhenShown(db', key, rows);
  }

  lemma PartIsWithin(db: Database, key: string, rows: seq<Order>)
    requires WellKeyed(db) && PartOfList(db, key, rows)
    ensures Within(ShownList(rows), View(db, key, ONE_LIST))
  {
    var full :| rows <= full && ListRight(db, key, full);
    ListIsShown(db, key, full);
    FirstRowsShown(rows, full);
  }

  lemma FirstRowsShown(rows: seq<Order>, full: seq<Order>)
    requires rows <= full && DistinctIds(full)
    ensures forall id :: id in ById(rows) ==> id in ById(full) && ById(full)[id] == ById(rows)[id]
  {
    ByIdFacts(full);
    ByIdFacts(rows);
    forall id | id in ById(rows)
      ensures id in ById(full) && ById(full)[id] == ById(rows)[id]
    {
      var i :| 0 <= i < |rows| && rows[i] == ById(rows)[id];
      assert full[i] == rows[i];
    }
  }

  // ---------------------------------------------------------------- histories

  ghost predicate PartOfHistory(db: Database, id: nat, rows: seq<OrderHistory>) {
    exists full :: rows <= full && AnswersHistory(db, id, full)
  }

  ghost predicate HistoryRight(db: Database, key: string, rows: seq<OrderHistory>) {
    exists id: nat :: key == HistoryKey(id) && AnswersHistory(db, id, rows)
  }

  ghost predicate PartUnderKey(db: Database, key: string, rows: seq<OrderHistory>) {
    exists id: nat :: key == HistoryKey(id) && PartOfHistory(db, id, rows)
  }

  const ONE_HISTORY: Relevance :=
    Relevance((key: string, o: Order) => false, (key: string, h: OrderHistory) => key == HistoryKey(h.orderId))

  function ShownHistory(rows: seq<OrderHistory>): Shown {
    Shown(map[], multiset(rows))
  }

  lemma HistoryRightAt(db: Database, id: nat, rows: seq<OrderHistory>)
    ensures HistoryRight(db, HistoryKey(id), rows) <==> AnswersHistory(db, id, rows)
    ensures PartUnderKey(db, HistoryKey(id), rows) <==> PartOfHistory(db, id, rows)
  {
    forall other: nat | HistoryKey(other) == HistoryKey(id)
      ensures other == id
    {
      HistoryKeyInjective(other, id);
    }
  }

  lemma {:induction false} EntriesOfOrder(history: seq<OrderHistory>, id: nat)
    ensures Entries(history, HistoryKey(id), ONE_HISTORY.entry) == Occurrences(history, id)
  {
    if history != [] {
      EntriesOfOrder(history[..|history| - 1], id);
      HistoryKeyInjective(history[|history| - 1].orderId, id);
    }
  }

  lemma HistoryIsRightExactlyWhenShown(db: Database, db': Database, id: nat, rows: seq<OrderHistory>)
    requires PartOfHistory(db, id, rows)
    ensures AnswersHistory(db', id, rows) <==> View(db', HistoryKey(id), ONE_HISTORY) == ShownHistory(rows)
  {
    var full :| rows <= full && AnswersHistory(db, id, full);
    assert forall i :: 0 <= i < |rows| ==> rows[i] == full[i];
    EntriesOfOrder(db'.history, id);
    assert View(db', HistoryKey(id), ONE_HISTORY) == Shown(map[], Occurrences(db'.history, id));
  }

  lemma HistoryPartIsWithin(db: Database, id: nat, rows: seq<OrderHistory>)
    requires PartOfHistory(db, id, rows)
    ensures Within(ShownHistory(rows), View(db, HistoryKey(id), ONE_HISTORY))
  {
    var full :| rows <= full && AnswersHistory(db, id, full);
    EntriesOfOrder(db.history, id);
    var rest := full[|rows|..];
    assert full == rows + rest;
    assert multiset(full) == multiset(rows) + multiset(rest);
  }
}
