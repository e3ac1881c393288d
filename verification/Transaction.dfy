/** The transaction object: BEGIN in the constructor, COMMIT or ROLLBACK once, ROLLBACK
    in the destructor unless one of them has succeeded. */
module Transaction {

  datatype Command = Begin | Commit | Rollback | Statement(sql: string)

  /** The data is the list of statements applied to it. `working` is what the connection
      sees, `committed` what is safe; outside a transaction they are the same. */
  datatype Database = Database(committed: seq<string>, working: seq<string>, open: bool)

  predicate Consistent(d: Database) {
    !d.open ==> d.working == d.committed
  }

  /** A command that does not fail. */
  function Executed(d: Database, c: Command): Database
    requires Accepts(d, c)
  {
    match c
    case Begin => d.(open := true)
    case Commit => Database(d.working, d.working, false)
    case Rollback => Database(d.committed, d.committed, false)
    case Statement(sql) =>
      var working := d.working + [sql];
      if d.open then d.(working := working) else Database(working, working, false)
  }

  /** The engine refuses to nest transactions and to end one that is not open. */
  predicate Accepts(d: Database, c: Command) {
    match c
    case Begin => !d.open
    case Commit => d.open
    case Rollback => d.open
    case Statement(_) => true
  }

  /** A fault strikes the command that is executed `k`-th from now. */
  predicate FaultAt(faults: seq<bool>, k: nat) {
    k < |faults| && faults[k]
  }

  /** The faults still ahead after `n` commands. */
  function After(faults: seq<bool>, n: nat): seq<bool> {
    if n <= |faults| then faults[n..] else []
  }

  lemma AfterAfter(faults: seq<bool>, m: nat, n: nat)
    ensures After(After(faults, m), n) == After(faults, m + n)
    ensures FaultAt(After(faults, m), n) <==> FaultAt(faults, m + n)
  {
  }

  /** The place of the first command from `at` on, out of `n`, that a fault strikes (or spares);
      `n` when there is none. */
  function First(faults: seq<bool>, at: nat, n: nat, strikes: bool): (k: nat)
    ensures k <= n
    ensures k < n ==> FaultAt(faults, at + k) == strikes
    ensures forall i: nat :: at <= i < at + k ==> FaultAt(faults, i) != strikes
    decreases n
  {
    if n == 0 || FaultAt(faults, at) == strikes then 0 else 1 + First(faults, at + 1, n - 1, strikes)
  }

  class Connection {
    var db: Database
    var faults: seq<bool>

    /** Throws, changing nothing, when the engine refuses or a fault strikes. */
    method Execute(c: Command) returns (threw: bool)
      modifies this
      ensures threw <==> !Accepts(old(db), c) || FaultAt(old(faults), 0)
      ensures db == if threw then old(db) else Executed(old(db), c)
      ensures faults == After(old(faults), 1)
      ensures !threw && c.Statement? ==> db.working == old(db.working) + [c.sql] && db.open == old(db.open)
      ensures !threw && c.Statement? ==> db.committed == if old(db.open) then old(db.committed) else db.working
      ensures !threw && c.Commit? ==> !db.open && db.committed == old(db.working)
      ensures !threw && c.Rollback? ==> !db.open && db.committed == old(db.committed)
    {
      threw := !(match c case Begin => !db.open case Commit => db.open case Rollback => db.open case Statement(_) => true)
               || (faults != [] && faults[0]);
      faults := if faults == [] then [] else faults[1..];
      if threw {
        return;
      }
      match c
      case Begin => db := db.(open := true);
      case Commit => db := Database(db.working, db.working, false);
      case Rollback => db := Database(db.committed, db.committed, false);
      case Statement(sql) =>
        var working := db.working + [sql];
        db := if db.open then db.(working := working) else Database(working, working, false);
    }
  }

  class TrkTransaction {
    const database: Connection
    var commited: bool

    constructor (database: Connection)
      ensures this.database == database && !commited
    {
      this.database := database;
      commited := false;
    }

    method Commit() returns (threw: bool)
      modifies this, database
      ensures threw <==> old(commited) || !Accepts(old(database.db), Command.Commit) || FaultAt(old(database.faults), 0)
      ensures commited <==> old(commited) || !threw
      ensures database.db == if threw then old(database.db) else Executed(old(database.db), Command.Commit)
      ensures database.faults == if old(commited) then old(database.faults) else After(old(database.faults), 1)
    {
      if commited {
        return true;
      }
      threw := database.Execute(Command.Commit);
      if !threw {
        commited := true;
      }
    }

    method Rollback() returns (threw: bool)
      modifies this, database
      ensures threw <==> old(commited) || !Accepts(old(database.db), Command.Rollback) || FaultAt(old(database.faults), 0)
      ensures commited <==> old(commited) || !threw
      ensures database.db == if threw then old(database.db) else Executed(old(database.db), Command.Rollback)
      ensures database.faults == if old(commited) then old(database.faults) else After(old(database.faults), 1)
    {
      if commited {
        return true;
      }
      threw := database.Execute(Command.Rollback);
      if !threw {
        commited := true;
      }
    }

    /** The destructor swallows a failing ROLLBACK. */
    method Destroy() returns (swallowed: bool)
      modifies this, database
      ensures swallowed
        <==> !old(commited) && (!Accepts(old(database.db), Command.Rollback) || FaultAt(old(database.faults), 0))
      ensures database.db == if old(commited) || swallowed then old(database.db)
                             else Executed(old(database.db), Command.Rollback)
    {
      swallowed := false;
      if !commited {
        swallowed := database.Execute(Command.Rollback);
      }
    }
  }

  datatype Ending = CommitTried | RollbackTried

  /** What a lifetime comes to, told from the faults alone: where in the body it stops, which of
      the ending calls succeeds, and whether the destructor's ROLLBACK is struck. */
  datatype Fate = Fate(begun: bool, bodyDone: nat, ended: nat, stuck: bool)

  function Fated(faults: seq<bool>, open: bool, body: nat, endings: nat): Fate {
    var done := First(faults, 1, body, true);
    var ended := First(faults, 1 + body, endings, false);
    if open || FaultAt(faults, 0) then Fate(false, 0, endings, false)
    else if done < body then Fate(true, done, endings, FaultAt(faults, 2 + done))
    else Fate(true, body, ended, ended == endings && FaultAt(faults, 1 + body + endings))
  }

  lemma {:induction false} FirstIs(faults: seq<bool>, at: nat, n: nat, strikes: bool, k: nat)
    requires k <= n && forall i: nat :: at <= i < at + k ==> FaultAt(faults, i) != strikes
    requires k < n ==> FaultAt(faults, at + k) == strikes
    ensures First(faults, at, n, strikes) == k
  {
  }

  /** The statements of the body, up to the first that throws. */
  method RunBody(c: Connection, body: seq<string>, ghost faults: seq<bool>, ghost before: seq<string>)
    returns (threw: bool)
    requires c.db == Database(before, before, true) && c.faults == After(faults, 1)
    modifies c
    ensures var done := First(faults, 1, |body|, true);
      && (threw <==> done < |body|)
      && c.db == Database(before, before + body[..done], true)
      && c.faults == After(faults, if threw then 2 + done else 1 + |body|)
  {
    hide First, After, FaultAt;
    var i := 0;
    while i < |body|
      invariant 0 <= i <= |body|
      invariant c.faults == After(faults, 1 + i) && forall k: nat :: 1 <= k < 1 + i ==> !FaultAt(faults, k)
      invariant c.db == Database(before, before + body[..i], true)
    {
      AfterAfter(faults, 1 + i, 0);
      AfterAfter(faults, 1 + i, 1);
      threw := c.Execute(Statement(body[i]));
      if threw {
        FirstIs(faults, 1, |body|, true, i);
        return;
      }
      assert before + body[..i] + [body[i]] == before + body[..i + 1];
      i := i + 1;
    }
    FirstIs(faults, 1, |body|, true, |body|);
    threw := false;
  }

  /** The ending calls one after the other, each exception caught. */
  method TryEndings(t: TrkTransaction, endings: seq<Ending>, ghost faults: seq<bool>, ghost at: nat)
    returns (refused: seq<bool>)
    requires !t.commited && t.database.db.open && t.database.faults == After(faults, at)
    modifies t, t.database
    ensures var ended := First(faults, at, |endings|, false);
      && |refused| == |endings| && (forall k :: 0 <= k < |endings| ==> (refused[k] <==> k != ended))
      && (t.commited <==> ended < |endings|)
      && if ended == |endings| then t.database.db == old(t.database.db) && t.database.faults == After(faults, at + |endings|)
         else var data := if endings[ended].CommitTried? then old(t.database.db.working) else old(t.database.db.committed);
              t.database.db == Database(data, data, false)
  {
    hide First, After, FaultAt;
    ghost var ended := First(faults, at, |endings|, false);
    refused := [];
    while |refused| < |endings|
      invariant |refused| <= |endings|
      invariant t.commited <==> ended < |refused|
      invariant forall j :: 0 <= j < |refused| ==> (refused[j] <==> j != ended)
      invariant !t.commited ==> t.database.db == old(t.database.db) && t.database.faults == After(faults, at + |refused|)
      invariant t.commited ==>
        var data := if endings[ended].CommitTried? then old(t.database.db.working) else old(t.database.db.committed);
        t.database.db == Database(data, data, false)
    {
      ghost var k := |refused|;
      AfterAfter(faults, at + k, 0);
      AfterAfter(faults, at + k, 1);
      assert k < ended ==> FaultAt(faults, at + k);
      assert k == ended ==> !FaultAt(faults, at + k);
      var failed;
      match endings[|refused|] {
        case CommitTried => failed := t.Commit();
        case RollbackTried => failed := t.Rollback();
      }
      refused := refused + [failed];
    }
  }

  /** A whole lifetime: BEGIN, the statements of the body one by one, any number of Commit and
      Rollback calls whose exceptions the caller catches, and the destructor, which also runs
      when a statement's exception leaves the scope. The first ending call that no fault strikes
      succeeds and all others throw. The data is the data before, or the data with the whole
      body applied, and the latter exactly when the body was done and the call that succeeded
      is a Commit. The transaction stays open exactly when no ending call succeeded and the
      destructor's ROLLBACK failed too. */
  method Scope(c: Connection, body: seq<string>, endings: seq<Ending>) returns (threw: bool, refused: seq<bool>)
    requires Consistent(c.db)
    modifies c
    ensures Consistent(c.db)
    ensures var fate := Fated(old(c.faults), old(c.db.open), |body|, |endings|);
      && (threw <==> !fate.begun || fate.bodyDone < |body|)
      && (!threw ==> |refused| == |endings| && forall k :: 0 <= k < |endings| ==> (refused[k] <==> k != fate.ended))
      && c.db.committed == (if !threw && fate.ended < |endings| && endings[fate.ended].CommitTried?
                            then old(c.db.committed) + body else old(c.db.committed))
      && (if fate.begun then c.db.open == fate.stuck else c.db == old(c.db))
  {
    hide First, After, FaultAt;
    ghost var faults := c.faults;
    refused := [];
    AfterAfter(faults, 0, 0);
    threw := c.Execute(Begin);
    if threw {
      return;
    }
    var t := new TrkTransaction(c);
    threw := RunBody(c, body, faults, old(c.db.committed));
    if threw {
      AfterAfter(faults, 2 + First(faults, 1, |body|, true), 0);
      var swallowed := t.Destroy();
      return;
    }
    assert body[..|body|] == body;
    refused := TryEndings(t, endings, faults, 1 + |body|);
    AfterAfter(faults, 1 + |body| + |endings|, 0);
    var swallowed := t.Destroy();
  }
}
