/** `WithTransaction`: begin, run a closure's statements, then commit or roll back. */
module Transaction {
  import opened Domain
  import opened Database

  // A transaction collects its writes and publishes them at commit, so statements sent through the
  // plain client in between are visible at once and survive a rollback.

  datatype Result = Ok | Failure | Dead
  // Dead: the process died on the way; no caller sees a value.

  /** The fate of each round trip of one transaction. */
  datatype TxFaults = TxFaults(begin: Outcome, exec: seq<Outcome>, commit: Outcome)

  /** The reply to a round trip that should have taken effect. */
  function Reply(o: Outcome): Result {
    if o.Done? then Ok else if o.Crashed() then Dead else Failure
  }

  /** The published effect of a whole transaction and what its caller is told. */
  function RunTransaction(db: Database, stmts: seq<Statement>, f: TxFaults): (r: (Database, Result))
    requires |f.exec| == |stmts|
  {
    if !f.begin.Done? then (db, Reply(f.begin))
    else if !RunsThrough(db, stmts, f.exec) then (db, FirstFailure(db, stmts, f.exec))
    else if f.commit.Applied() then (ApplyAll(db, stmts), Reply(f.commit))
    else (db, Reply(f.commit))
  }

  /** Every statement is answered, accepted and takes effect inside the transaction. */
  predicate RunsThrough(db: Database, stmts: seq<Statement>, exec: seq<Outcome>)
    requires |exec| == |stmts|
    ensures RunsThrough(db, stmts, exec) <==> AcceptsAll(db, stmts) && forall k :: 0 <= k < |exec| ==> exec[k].Done?
    decreases |stmts|
  {
    stmts == [] ||
    (exec[0].Done? && Accepts(db, stmts[0]) && RunsThrough(Apply(db, stmts[0]), stmts[1..], exec[1..]))
  }

  /** What the first failing statement tells the closure. */
  function FirstFailure(db: Database, stmts: seq<Statement>, exec: seq<Outcome>): (r: Result)
    requires |exec| == |stmts| && !RunsThrough(db, stmts, exec)
    ensures !r.Ok?
    decreases |stmts|
  {
    if !exec[0].Done? then Reply(exec[0])
    else if !Accepts(db, stmts[0]) then Failure
    else FirstFailure(Apply(db, stmts[0]), stmts[1..], exec[1..])
  }

  /** All or nothing: the published tables are the old ones or carry every statement; they carry
      every statement exactly when all of them ran and the commit took effect; a caller told `Ok`
      can rely on it, and one told otherwise can rely on the old tables unless the commit itself
      was lost or cut off after the fact. */
  lemma AllOrNothing(db: Database, stmts: seq<Statement>, f: TxFaults)
    requires |f.exec| == |stmts|
    ensures var (after, r) := RunTransaction(db, stmts, f);
            && (after == db || (AcceptsAll(db, stmts) && after == ApplyAll(db, stmts)))
            && (r.Ok? ==> AcceptsAll(db, stmts) && after == ApplyAll(db, stmts))
            && (!r.Ok? && !f.commit.Lost? && !f.commit.CrashAfter? ==> after == db)
            && (r.Ok? <==> f.begin.Done? && f.commit.Done? && AcceptsAll(db, stmts)
                           && forall k :: 0 <= k < |f.exec| ==> f.exec[k].Done?)
  {
    if f.begin.Done? && !RunsThrough(db, stmts, f.exec) {
      assert !FirstFailure(db, stmts, f.exec).Ok?;
    }
  }

  /** The first statement that is not answered or not accepted decides the answer: the process dies in it, or
      the caller is told of a failure. */
  lemma {:induction false} FirstFailureIsTold(db: Database, stmts: seq<Statement>, exec: seq<Outcome>, k: nat)
    requires |exec| == |stmts| && k < |stmts|
    requires AcceptsAll(db, stmts[..k]) && forall j :: 0 <= j < k ==> exec[j].Done?
    requires !exec[k].Done? || !Accepts(ApplyAll(db, stmts[..k]), stmts[k])
    ensures !RunsThrough(db, stmts, exec)
    ensures FirstFailure(db, stmts, exec) == if exec[k].Crashed() then Dead else Failure
    decreases |stmts|
  {
    if k > 0 {
      assert stmts[..k][1..] == stmts[1..][..k - 1] && stmts[..k][0] == stmts[0];
      FirstFailureIsTold(Apply(db, stmts[0]), stmts[1..], exec[1..], k - 1);
    }
  }

  /** The database as its clients see it. */
  class DbClient {
    var db: Database

    constructor (db: Database)
      ensures this.db == db
    {
      this.db := db;
    }

    method BeginTx(o: Outcome) returns (tx: Tx?, r: Result)
      ensures r == Reply(o)
      ensures r.Ok? ==> tx != null && fresh(tx) && tx.pending == [] && tx.open
    {
      r := Reply(o);
      tx := null;
      if r.Ok? {
        tx := new Tx();
      }
    }

    /** The closure is its list of statements: it stops at the first one that fails. */
    method WithTransaction(stmts: seq<Statement>, f: TxFaults) returns (r: Result)
      requires |f.exec| == |stmts|
      modifies this
      ensures (db, r) == RunTransaction(old(db), stmts, f)
    {
      var tx: Tx?;
      tx, r := BeginTx(f.begin);
      if !r.Ok? {
        return;
      }
      var k := 0;
      while k < |stmts|
        invariant 0 <= k <= |stmts|
        invariant fresh(tx) && tx.open && tx.pending == stmts[..k]
        invariant db == old(db) && AcceptsAll(db, stmts[..k])
        invariant RunsThrough(db, stmts, f.exec) <==>
                  RunsThrough(ApplyAll(db, stmts[..k]), stmts[k..], f.exec[k..])
        invariant !RunsThrough(db, stmts, f.exec) ==>
                  FirstFailure(db, stmts, f.exec)
                  == FirstFailure(ApplyAll(db, stmts[..k]), stmts[k..], f.exec[k..])
      {
        assert stmts[..k + 1] == stmts[..k] + [stmts[k]];
        ApplyAllSnoc(db, stmts[..k], stmts[k]);
        r := tx.Exec(this, stmts[k], f.exec[k]);
        if !r.Ok? {
          tx.Rollback();
          return;
        }
        k := k + 1;
      }
      assert stmts[..k] == stmts;
      r := tx.Commit(this, f.commit);
    }
  }

  /** An open transaction: the statements it has run so far. */
  class Tx {
    var pending: seq<Statement>
    var open: bool

    constructor ()
      ensures pending == [] && open
    {
      pending := [];
      open := true;
    }

    /** Runs a statement against what the transaction sees: the published tables and its own
        writes. */
    method Exec(client: DbClient, s: Statement, o: Outcome) returns (r: Result)
      requires open && AcceptsAll(client.db, pending)
      modifies this
      ensures open == old(open)
      ensures r.Ok? <==> o.Done? && Accepts(ApplyAll(client.db, old(pending)), s)
      ensures r.Ok? ==> pending == old(pending) + [s] && AcceptsAll(client.db, pending)
      ensures !r.Ok? ==> r == (if o.Done? then Failure else Reply(o)) && pending == old(pending)
    {
      if !o.Done? {
        return Reply(o);
      }
      if !Accepts(ApplyAll(client.db, pending), s) {
        return Failure;
      }
      ApplyAllSnoc(client.db, pending, s);
      pending := pending + [s];
      r := Ok;
    }

    method Commit(client: DbClient, o: Outcome) returns (r: Result)
      requires open && AcceptsAll(client.db, pending)
      modifies this, client
      ensures !open && r == Reply(o)
      ensures client.db == if o.Applied() then ApplyAll(old(client.db), old(pending)) else old(client.db)
    {
      open := false;
      if o.Applied() {
        client.db := ApplyAll(client.db, pending);
      }
      r := Reply(o);
    }

    method Rollback()
      modifies this
      ensures !open && pending == []
    {
      pending := [];
      open := false;
    }
  }
}
