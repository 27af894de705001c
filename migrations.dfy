/**
 * The schema migrations of db/migrations.go. The database is an object with two
 * parts that the migrations touch: the rows of the schema_migrations table (one
 * version number per row, in insertion order) and the schema itself, recorded as
 * the versions whose statements have been applied. SQLite is not run: whether each
 * statement fails is an oracle, and a transaction is a private copy of that state
 * that Commit writes back and Rollback drops.
 */
module Migrations {
  import opened Wrappers

  /** The statements of one migration, by what they do to the plays table. */
  datatype Script =
    | CreatePlays            // create table plays (id, fulfilled, title, artist, time)
    | AddAlbumLengthRebuild  // add album, playedFor and length, then rebuild the table
    | AddSource              // add the source column

  datatype Migration = Migration(version: int, up: Script)

  /** The migration list (db/migrations.go:12-57). */
  const Migrations: seq<Migration> := [Migration(1, CreatePlays), Migration(2, AddAlbumLengthRebuild), Migration(3, AddSource)]

  const LastVersion: int := 3

  /** Versions strictly increase along the list, and the last one is LastVersion. */
  lemma MigrationsAscending()
    ensures forall i, j :: 0 <= i < j < |Migrations| ==> Migrations[i].version < Migrations[j].version
    ensures Migrations[|Migrations| - 1].version == LastVersion
    ensures forall i :: 0 <= i < |Migrations| ==> 1 <= Migrations[i].version <= LastVersion
  {
  }

  /* ---------------- the current version ---------------- */

  function Max(rows: seq<int>): (r: int)
    requires rows != []
    ensures r in rows
    ensures forall x :: x in rows ==> x <= r
  {
    if |rows| == 1 then rows[0]
    else
      var m := Max(rows[1..]);
      assert forall x :: x in rows ==> x == rows[0] || x in rows[1..];
      if rows[0] > m then rows[0] else m
  }

  /** `select coalesce(max(version), 0) from schema_migrations`
      (db/migrations.go:59-64). */
  function CurrentVersion(rows: seq<int>): (r: int)
    ensures rows == [] ==> r == 0
    ensures rows != [] ==> r in rows && forall x :: x in rows ==> x <= r
  {
    if rows == [] then 0 else Max(rows)
  }

  /** The versions of `rows` are all at most `bound`. */
  lemma CurrentVersionAtMost(rows: seq<int>, bound: int)
    requires 0 <= bound
    requires forall x :: x in rows ==> x <= bound
    ensures CurrentVersion(rows) <= bound
  {
  }

  /* ---------------- the migrations that run ---------------- */

  /** The migrations above `current`, in list order. */
  function Pending(ms: seq<Migration>, current: int): (r: seq<Migration>)
    ensures forall m :: m in r <==> m in ms && m.version > current
    ensures |r| <= |ms|
  {
    if ms == [] then []
    else
      var init := Pending(ms[..|ms| - 1], current);
      assert ms == ms[..|ms| - 1] + [ms[|ms| - 1]];
      if ms[|ms| - 1].version <= current then init else init + [ms[|ms| - 1]]
  }

  function Versions(ms: seq<Migration>): (r: seq<int>)
    ensures |r| == |ms|
    ensures forall i :: 0 <= i < |ms| ==> r[i] == ms[i].version
  {
    if ms == [] then [] else Versions(ms[..|ms| - 1]) + [ms[|ms| - 1].version]
  }

  /** The two statements each migration runs in the transaction. */
  datatype Step = Up(script: Script) | Record(version: int)

  /** What the statements would do inside the transaction: the versions that ran
      in order, or the error of the first statement that failed. */
  function Execute(ms: seq<Migration>, current: int, stepError: Step -> Option<string>): Result<seq<int>, string> {
    if ms == [] then Ok([])
    else
      var m := ms[|ms| - 1];
      match Execute(ms[..|ms| - 1], current, stepError)
      case Err(e) => Err(e)
      case Ok(ran) =>
        if m.version <= current then Ok(ran)
        else if stepError(Up(m.up)).Some? then Err(stepError(Up(m.up)).value)
        else if stepError(Record(m.version)).Some? then Err(stepError(Record(m.version)).value)
        else Ok(ran + [m.version])
  }

  /** A pending migration none of whose statements fails. */
  predicate StepsSucceed(m: Migration, stepError: Step -> Option<string>) {
    stepError(Up(m.up)).None? && stepError(Record(m.version)).None?
  }

  /** The transaction succeeds exactly when no statement of a pending migration
      fails, and then it has run exactly the pending migrations, in order. */
  lemma {:induction false} ExecuteRunsPending(ms: seq<Migration>, current: int, stepError: Step -> Option<string>)
    ensures Execute(ms, current, stepError).Ok?
            <==> forall m :: m in ms && m.version > current ==> StepsSucceed(m, stepError)
    ensures Execute(ms, current, stepError).Ok? ==> Execute(ms, current, stepError).value == Versions(Pending(ms, current))
  {
    if ms != [] {
      var init := ms[..|ms| - 1];
      var m := ms[|ms| - 1];
      ExecuteRunsPending(init, current, stepError);
      assert ms == init + [m];
      if Execute(init, current, stepError).Ok? && m.version > current && !StepsSucceed(m, stepError) {
        assert m in ms;
      }
      if !Execute(init, current, stepError).Ok? {
        var x :| x in init && x.version > current && !StepsSucceed(x, stepError);
        assert x in ms;
      }
    }
  }

  /** With nothing above `current`, no statement runs and none can fail. */
  lemma {:induction false} NothingPending(ms: seq<Migration>, current: int, stepError: Step -> Option<string>)
    requires forall m :: m in ms ==> m.version <= current
    ensures Execute(ms, current, stepError) == Ok([])
  {
    if ms != [] {
      assert ms == ms[..|ms| - 1] + [ms[|ms| - 1]];
      NothingPending(ms[..|ms| - 1], current, stepError);
    }
  }

  /* ---------------- RunMigrations ---------------- */

  /** The failures SQLite may report, one per statement outside the transaction
      and one per statement inside it (`stepError`). */
  datatype Failures = Failures(
    createError: Option<string>,
    readError: Option<string>,
    beginError: Option<string>,
    stepError: Step -> Option<string>,
    commitError: Option<string>)

  datatype DbState = DbState(hasMigrationsTable: bool, versionRows: seq<int>, applied: seq<int>)

  /** The version RunMigrations compares against: a failed read leaves it 0
      (db/migrations.go:60, 78). */
  function StartVersion(s: DbState, f: Failures): int {
    if f.readError.Some? then 0 else CurrentVersion(s.versionRows)
  }

  /** What RunMigrations does to the database and what it returns. */
  function Migrate(s: DbState, f: Failures): (DbState, Option<string>) {
    if f.createError.Some? then (s, f.createError)
    else
      var created := s.(hasMigrationsTable := true);
      if f.beginError.Some? then (created, f.beginError)
      else
        match Execute(Migrations, StartVersion(s, f), f.stepError)
        case Err(e) => (created, Some(e))
        case Ok(ran) =>
          if f.commitError.Some? then (created, f.commitError)
          else (created.(versionRows := s.versionRows + ran, applied := s.applied + ran), None)
  }

  class Database {
    var hasMigrationsTable: bool
    var versionRows: seq<int>
    var applied: seq<int>

    constructor ()
      ensures State() == DbState(false, [], [])
    {
      hasMigrationsTable := false;
      versionRows := [];
      applied := [];
    }

    function State(): DbState
      reads this
    {
      DbState(hasMigrationsTable, versionRows, applied)
    }

    /** getCurrentVersion (db/migrations.go:59-64); a read error leaves v at 0. */
    method GetCurrentVersion(readError: Option<string>) returns (v: int, err: Option<string>)
      ensures err == readError
      ensures v == if readError.Some? then 0 else CurrentVersion(versionRows)
    {
      v := 0;
      err := readError;
      if readError.None? {
        v := CurrentVersion(versionRows);
      }
    }

    /** RunMigrations (db/migrations.go:67-102). */
    method RunMigrations(f: Failures) returns (err: Option<string>)
      modifies this
      ensures (State(), err) == Migrate(old(State()), f)
    {
      if f.createError.Some? {
        return f.createError;
      }
      hasMigrationsTable := true;
      var currentVersion, readErr := GetCurrentVersion(f.readError);
      if f.beginError.Some? {
        return f.beginError;
      }
      // the transaction's private copy of the two tables
      var txRows, txApplied := versionRows, applied;
      var ran: seq<int> := [];
      var i := 0;
      while i < |Migrations|
        invariant 0 <= i <= |Migrations|
        invariant Execute(Migrations[..i], currentVersion, f.stepError) == Ok(ran)
        invariant txRows == versionRows + ran && txApplied == applied + ran
        invariant hasMigrationsTable
        invariant versionRows == old(versionRows) && applied == old(applied)
      {
        var m := Migrations[i];
        assert Migrations[..i + 1][..i] == Migrations[..i];
        if m.version <= currentVersion {
          i := i + 1;
          continue;
        }
        var upError := f.stepError(Up(m.up));
        if upError.Some? {
          ExecuteStops(Migrations, i + 1, currentVersion, f.stepError);
          return upError;
        }
        txApplied := txApplied + [m.version];
        var recordError := f.stepError(Record(m.version));
        if recordError.Some? {
          ExecuteStops(Migrations, i + 1, currentVersion, f.stepError);
          return recordError;
        }
        txRows := txRows + [m.version];
        ran := ran + [m.version];
        i := i + 1;
      }
      assert Migrations[..i] == Migrations;
      if f.commitError.Some? {
        return f.commitError;
      }
      versionRows, applied := txRows, txApplied;
      return None;
    }
  }

  /** Once a prefix fails, so does every longer one, with the same error. */
  lemma {:induction false} ExecuteStops(ms: seq<Migration>, i: nat, current: int, stepError: Step -> Option<string>)
    requires i <= |ms|
    requires Execute(ms[..i], current, stepError).Err?
    ensures Execute(ms, current, stepError) == Execute(ms[..i], current, stepError)
    decreases |ms| - i
  {
    if i < |ms| {
      assert ms[..i + 1][..i] == ms[..i];
      ExecuteStops(ms, i + 1, current, stepError);
    } else {
      assert ms[..i] == ms;
    }
  }

  /* ---------------- what a run promises ---------------- */

  /** Any failure leaves both tables as they were: nothing of the run persists. */
  lemma FailureRollsBack(s: DbState, f: Failures)
    ensures Migrate(s, f).1.Some? ==>
              Migrate(s, f).0.versionRows == s.versionRows && Migrate(s, f).0.applied == s.applied
  {
  }

  /** A successful run applies and records exactly the migrations above the start
      version, in list order, each version once with its statements. */
  lemma SuccessRunsPending(s: DbState, f: Failures)
    requires Migrate(s, f).1.None?
    ensures var ran := Versions(Pending(Migrations, StartVersion(s, f)));
            && Migrate(s, f).0 == DbState(true, s.versionRows + ran, s.applied + ran)
            && forall m :: m in Migrations && m.version > StartVersion(s, f) ==> StepsSucceed(m, f.stepError)
  {
    var start := StartVersion(s, f);
    MigrateSucceeded(s, f);
    ExecuteRunsPending(Migrations, start, f.stepError);
  }

  /** A run that returns no error got past every step and committed what it ran. */
  lemma MigrateSucceeded(s: DbState, f: Failures)
    requires Migrate(s, f).1.None?
    ensures var e := Execute(Migrations, StartVersion(s, f), f.stepError);
            && e.Ok?
            && Migrate(s, f).0 == DbState(true, s.versionRows + e.value, s.applied + e.value)
  {
  }

  /** A run fails exactly when one of its statements does. */
  lemma SuccessIffNoFailure(s: DbState, f: Failures)
    ensures Migrate(s, f).1.None? <==>
              && f.createError.None? && f.beginError.None? && f.commitError.None?
              && forall m :: m in Migrations && m.version > StartVersion(s, f) ==> StepsSucceed(m, f.stepError)
  {
    ExecuteRunsPending(Migrations, StartVersion(s, f), f.stepError);
  }

  /** A database whose recorded versions all come from the migration list. */
  predicate Recorded(s: DbState) {
    forall x :: x in s.versionRows ==> 1 <= x <= LastVersion
  }

  /** After a successful run the current version is the last migration's. */
  lemma SuccessReachesLast(s: DbState, f: Failures)
    requires Recorded(s)
    requires Migrate(s, f).1.None?
    ensures CurrentVersion(Migrate(s, f).0.versionRows) == LastVersion
    ensures Recorded(Migrate(s, f).0)
  {
    MigrationsAscending();
    SuccessRunsPending(s, f);
    RowsReachLast(s.versionRows, StartVersion(s, f), Migrations);
  }

  /** For a migration list whose versions lie in 1..LastVersion and whose last
      one is LastVersion: recorded rows with the versions above `start` appended
      end at the last version, where `start` is the current version of the rows,
      or 0 when it could not be read. */
  lemma RowsReachLast(rows: seq<int>, start: int, ms: seq<Migration>)
    requires ms != [] && ms[|ms| - 1].version == LastVersion
    requires forall i :: 0 <= i < |ms| ==> 1 <= ms[i].version <= LastVersion
    requires forall x :: x in rows ==> 1 <= x <= LastVersion
    requires start == 0 || start == CurrentVersion(rows)
    ensures var all := rows + Versions(Pending(ms, start));
            && CurrentVersion(all) == LastVersion
            && forall x :: x in all ==> 1 <= x <= LastVersion
  {
    var ran := Versions(Pending(ms, start));
    PendingInRange(start, ms);
    if start < LastVersion {
      LastPending(start, ms);
    } else {
      assert start == CurrentVersion(rows) && rows != [];
    }
    CurrentVersionIs(rows + ran, LastVersion);
  }

  /** The versions that run come from the list. */
  lemma PendingInRange(start: int, ms: seq<Migration>)
    requires forall i :: 0 <= i < |ms| ==> 1 <= ms[i].version <= LastVersion
    ensures forall x :: x in Versions(Pending(ms, start)) ==> 1 <= x <= LastVersion
  {
    var p := Pending(ms, start);
    forall x | x in Versions(p)
      ensures 1 <= x <= LastVersion
    {
      var k :| 0 <= k < |p| && Versions(p)[k] == x;
      assert p[k] in ms;
    }
  }

  /** Below the last version, the last migration runs. */
  lemma LastPending(start: int, ms: seq<Migration>)
    requires ms != [] && ms[|ms| - 1].version == LastVersion && start < LastVersion
    ensures LastVersion in Versions(Pending(ms, start))
  {
    var p := Pending(ms, start);
    assert ms[|ms| - 1] in p;
    var k :| 0 <= k < |p| && p[k] == ms[|ms| - 1];
    assert Versions(p)[k] == LastVersion;
  }

  /** A row that no other row exceeds is the current version. */
  lemma CurrentVersionIs(rows: seq<int>, v: int)
    requires v in rows && forall x :: x in rows ==> x <= v
    ensures CurrentVersion(rows) == v
  {
  }

  /** A second run over an up-to-date database executes nothing and changes
      nothing but creating the (existing) migrations table. */
  lemma SecondRunIsNoOp(s: DbState, f: Failures, g: Failures)
    requires Recorded(s)
    requires Migrate(s, f).1.None?
    requires g.createError.None? && g.readError.None? && g.beginError.None? && g.commitError.None?
    ensures Migrate(Migrate(s, f).0, g) == (Migrate(s, f).0, None)
  {
    var t := Migrate(s, f).0;
    SuccessReachesLast(s, f);
    MigrationsAscending();
    NothingPending(Migrations, StartVersion(t, g), g.stepError);
    assert t.versionRows + [] == t.versionRows && t.applied + [] == t.applied;
  }

  /** A failed version read is not reported: the run goes on from version 0, and
      its outcome is that of a run over an empty schema_migrations table. */
  lemma ReadErrorIgnored(s: DbState, f: Failures)
    requires f.readError.Some?
    ensures StartVersion(s, f) == 0
    ensures Migrate(s, f).1 == Migrate(s.(versionRows := []), f.(readError := None)).1
    ensures f.createError.None? && f.beginError.None? && f.commitError.None?
            && (forall m :: m in Migrations ==> StepsSucceed(m, f.stepError))
            ==> Migrate(s, f).1.None?
  {
    SuccessIffNoFailure(s, f);
  }
}
