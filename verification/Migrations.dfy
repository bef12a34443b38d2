/** The migration loop of `db.rs`: a ledger of applied versions and a ready gate,
    through any number of runs that may fail at any step. */
module Migrations {

  datatype Migration = Migration(version: int, sql: string)

  /** Where a run fails while applying one migration. A failed commit may have
      reached the disk or not; either way the transaction is all or nothing. */
  datatype Fault = NoFault | BeginFails | SqlFails | LedgerFails | CommitFails | CommitLosesReply

  datatype Outcome = Done | Failed(version: int) | Unreachable

  /** The scripts run against the database, in order. */
  type Schema = seq<string>

  ghost predicate Ascending(migrations: seq<Migration>) {
    && (forall i :: 0 <= i < |migrations| ==> migrations[i].version > 0)
    && (forall i, j :: 0 <= i < j < |migrations| ==> migrations[i].version < migrations[j].version)
  }

  function Versions(migrations: seq<Migration>): (r: seq<int>)
    ensures |r| == |migrations|
    ensures forall i :: 0 <= i < |r| ==> r[i] == migrations[i].version
  {
    seq(|migrations|, i requires 0 <= i < |migrations| => migrations[i].version)
  }

  function Scripts(migrations: seq<Migration>): (r: Schema)
    ensures |r| == |migrations|
    ensures forall i :: 0 <= i < |r| ==> r[i] == migrations[i].sql
  {
    seq(|migrations|, i requires 0 <= i < |migrations| => migrations[i].sql)
  }

  /** `SELECT MAX(version)`, 0 when there is no row. */
  function MaxVersion(ledger: seq<int>): int {
    if ledger == [] then 0
    else
      var rest := MaxVersion(ledger[..|ledger| - 1]);
      if ledger[|ledger| - 1] > rest then ledger[|ledger| - 1] else rest
  }

  lemma {:induction false} MaxOfAscending(migrations: seq<Migration>, n: nat)
    requires Ascending(migrations) && n <= |migrations|
    ensures MaxVersion(Versions(migrations[..n])) == if n == 0 then 0 else migrations[n - 1].version
  {
    if n > 0 {
      MaxOfAscending(migrations, n - 1);
      assert Versions(migrations[..n])[..n - 1] == Versions(migrations[..n - 1]);
    }
  }

  lemma OneApplied(migrations: seq<Migration>, i: nat)
    requires i < |migrations|
    ensures Versions(migrations[..i + 1]) == Versions(migrations[..i]) + [migrations[i].version]
    ensures Scripts(migrations[..i + 1]) == Scripts(migrations[..i]) + [migrations[i].sql]
  {
  }

  class Database {
    const migrations: seq<Migration>
    /** On disk: the scripts applied and the `schema_migrations` rows. */
    var schema: Schema
    var ledger: seq<int>
    /** In memory, for the life of a process. */
    var schemaReady: bool

    /** Exactly the first `n` migrations are applied, each once, and recorded. */
    ghost predicate AppliedUpTo(n: nat)
      reads this
    {
      && n <= |migrations|
      && ledger == Versions(migrations[..n])
      && schema == Scripts(migrations[..n])
    }

    /** The ledger is a prefix of the list, the schema its fold, and the gate is
        open only when nothing is missing. */
    ghost predicate Valid()
      reads this
    {
      && Ascending(migrations)
      && AppliedUpTo(|ledger|)
      && (schemaReady ==> |ledger| == |migrations|)
    }

    constructor (migrations: seq<Migration>)
      requires Ascending(migrations)
      ensures Valid() && ledger == [] && !schemaReady && this.migrations == migrations
    {
      this.migrations := migrations;
      schema, ledger, schemaReady := [], [], false;
      new;
      assert Versions(migrations[..0]) == [] && Scripts(migrations[..0]) == [];
    }

    /** A new process opens the same file. */
    method Restart()
      requires Valid()
      modifies this`schemaReady
      ensures Valid() && !schemaReady
    {
      schemaReady := false;
    }

    /** One migration in its own transaction. */
    method Apply(migration: Migration, fault: Fault) returns (ok: bool)
      modifies this`schema, this`ledger
      ensures ok <==> fault == NoFault
      ensures fault in {NoFault, CommitLosesReply} ==>
                schema == old(schema) + [migration.sql] && ledger == old(ledger) + [migration.version]
      ensures fault !in {NoFault, CommitLosesReply} ==> schema == old(schema) && ledger == old(ledger)
    {
      if fault == BeginFails {
        return false;
      }
      var schema', ledger' := schema, ledger;
      if fault == SqlFails {
        return false;
      }
      schema' := schema' + [migration.sql];
      if fault == LedgerFails {
        return false;
      }
      ledger' := ledger' + [migration.version];
      if fault == CommitFails {
        return false;
      }
      schema, ledger := schema', ledger';
      return fault == NoFault;
    }

    /** `run_migrations`. `reachable` is false when the connection or the ledger
        query fails; `faults[i]` is what befalls migration `i` if it is tried. */
    method RunMigrations(reachable: bool, faults: seq<Fault>) returns (outcome: Outcome)
      requires Valid() && |faults| == |migrations|
      modifies this
      ensures Valid()
      ensures old(ledger) <= ledger && old(schema) <= schema
      ensures outcome == Done <==>
                reachable && forall i :: |old(ledger)| <= i < |migrations| ==> faults[i] == NoFault
      ensures outcome == Done ==> schemaReady && |ledger| == |migrations|
      ensures outcome != Done ==> schemaReady == old(schemaReady)
      ensures outcome.Failed? ==>
                exists i :: |old(ledger)| <= i < |migrations| && faults[i] != NoFault
                  && outcome.version == migrations[i].version
                  && |ledger| == if faults[i] == CommitLosesReply then i + 1 else i
    {
      if !reachable {
        return Unreachable;
      }
      var current := MaxVersion(ledger);
      MaxOfAscending(migrations, |ledger|);
      ghost var before, schemaBefore := ledger, schema;
      for i := 0 to |migrations|
        invariant ledger == if i <= |before| then before else Versions(migrations[..i])
        invariant schema == if i <= |before| then schemaBefore else Scripts(migrations[..i])
        invariant schemaReady == old(schemaReady)
        invariant forall k :: |before| <= k < i ==> faults[k] == NoFault
      {
        if migrations[i].version <= current {
          continue;
        }
        assert i >= |before|;
        OneApplied(migrations, i);
        var ok := Apply(migrations[i], faults[i]);
        if !ok {
          return Failed(migrations[i].version);
        }
      }
      assert migrations[..|migrations|] == migrations;
      schemaReady := true;
      return Done;
    }
  }

  /** Any sequence of processes, each making one attempt. */
  method Lifetimes(db: Database, attempts: seq<(bool, seq<Fault>)>)
    requires db.Valid() && forall i :: 0 <= i < |attempts| ==> |attempts[i].1| == |db.migrations|
    modifies db
    ensures db.Valid()
    ensures (exists i :: 0 <= i < |attempts| && attempts[i].0 && forall f :: f in attempts[i].1 ==> f == NoFault) ==>
              db.ledger == Versions(db.migrations) && db.schema == Scripts(db.migrations)
  {
    for i := 0 to |attempts|
      invariant db.Valid()
      invariant (exists k :: 0 <= k < i && attempts[k].0 && forall f :: f in attempts[k].1 ==> f == NoFault) ==>
                  |db.ledger| == |db.migrations|
    {
      db.Restart();
      var faults := attempts[i].1;
      var outcome := db.RunMigrations(attempts[i].0, faults);
      assert forall j :: 0 <= j < |faults| ==> faults[j] in faults;
    }
    assert db.migrations[..|db.migrations|] == db.migrations;
  }
}
