/** The schema migration runner: it reads the names recorded in the
    migrations table once, then walks the ordered migration list, running
    and recording each migration not yet recorded, and stops at the first
    failure with exit code 1 (0 when all is done). */
module Migrate {
  datatype Migration = Migration(name: string)

  /** The ordered migration list. */
  const MIGRATIONS: seq<Migration> := [
    Migration("001_create_auth_tokens"),
    Migration("002_create_config"),
    Migration("003_add_calendar_config")
  ]

  predicate DistinctNames(ms: seq<Migration>) {
    forall i, j :: 0 <= i < j < |ms| ==> ms[i].name != ms[j].name
  }

  /** The names of the migrations of `ms` not in `executed`, in list order:
      the ones a run will try. */
  function Pending(ms: seq<Migration>, executed: seq<string>): (r: seq<string>)
    ensures forall n :: n in r <==> n !in executed && exists m :: m in ms && m.name == n
    decreases |ms|
  {
    if ms == [] then []
    else
      assert forall m :: m in ms[1..] ==> m in ms;
      if ms[0].name in executed then Pending(ms[1..], executed)
      else [ms[0].name] + Pending(ms[1..], executed)
  }

  /** The migrations whose `up` was called, the table's names afterwards, and
      whether the run completed. */
  datatype RunResult = RunResult(ran: seq<string>, table: seq<string>, ok: bool)

  /** The loop over `ms` with `executed` read before it began, the table
      holding `table`, and `up` telling which migrations succeed. A name the
      table already holds makes the INSERT fail on the UNIQUE constraint. */
  function RunFrom(ms: seq<Migration>, executed: seq<string>, table: seq<string>, up: string -> bool): (r: RunResult)
    // the table only grows, by the names of the migrations that ran and were recorded
    ensures r.ok ==> r.table == table + r.ran
    ensures !r.ok ==> r.ran != [] && r.table == table + r.ran[..|r.ran| - 1]
    // the pending migrations run in list order: all of them when the run completes,
    // and up to the failing one, the last to run, when it stops
    ensures r.ok ==> r.ran == Pending(ms, executed)
    ensures !r.ok ==> |r.ran| <= |Pending(ms, executed)| && r.ran == Pending(ms, executed)[..|r.ran|]
    // a completed run leaves no migration unexecuted
    ensures r.ok ==> forall m :: m in ms ==> m.name in executed || m.name in r.ran
    decreases |ms|
  {
    if ms == [] then RunResult([], table, true)
    else
      var m := ms[0];
      if m.name in executed then RunFrom(ms[1..], executed, table, up)
      else if !up(m.name) || m.name in table then RunResult([m.name], table, false)
      else
        var rest := RunFrom(ms[1..], executed, table + [m.name], up);
        assert !rest.ok ==> ([m.name] + rest.ran)[..|rest.ran|] == [m.name] + rest.ran[..|rest.ran| - 1];
        assert !rest.ok ==> [m.name] + rest.ran == ([m.name] + Pending(ms[1..], executed))[..1 + |rest.ran|];
        RunResult([m.name] + rest.ran, rest.table, rest.ok)
  }

  /** The table, its rows' names in id order. */
  class MigrationsTable {
    var names: seq<string>

    constructor ()
      ensures names == []
    {
      names := [];
    }

    /** getExecutedMigrations. */
    method Executed() returns (r: seq<string>)
      ensures r == names
    {
      r := names;
    }

    /** recordMigration: the INSERT fails when the name is already recorded. */
    method Record(name: string) returns (ok: bool)
      modifies this
      ensures ok <==> name !in old(names)
      ensures names == if ok then old(names) + [name] else old(names)
    {
      if name in names {
        return false;
      }
      names := names + [name];
      ok := true;
    }
  }

  /** `RunFrom` with `done` already run in front of it. */
  function After(done: seq<string>, r: RunResult): RunResult {
    RunResult(done + r.ran, r.table, r.ok)
  }

  /** One turn of the loop, at position `i` of the list. */
  lemma RunStep(ms: seq<Migration>, i: nat, executed: seq<string>, table: seq<string>, up: string -> bool)
    requires i < |ms|
    ensures var m := ms[i]; var r := RunFrom(ms[i..], executed, table, up);
      && (m.name in executed ==> r == RunFrom(ms[i + 1..], executed, table, up))
      && (m.name !in executed && (!up(m.name) || m.name in table) ==> r == RunResult([m.name], table, false))
      && (m.name !in executed && up(m.name) && m.name !in table ==>
            r == After([m.name], RunFrom(ms[i + 1..], executed, table + [m.name], up)))
  {
    assert ms[i..][0] == ms[i];
    assert ms[i..][1..] == ms[i + 1..];
  }

  lemma AfterAfter(a: seq<string>, b: seq<string>, r: RunResult)
    ensures After(a, After(b, r)) == After(a + b, r)
  {
    assert a + (b + r.ran) == a + b + r.ran;
  }

  /** The loop of runMigrations over the list `ms`: the exit code and the
      migrations whose `up` ran. */
  method RunList(table: MigrationsTable, ms: seq<Migration>, up: string -> bool) returns (exitCode: int, ran: seq<string>)
    modifies table
    ensures var r := RunFrom(ms, old(table.names), old(table.names), up);
      && ran == r.ran && table.names == r.table
      && (exitCode == 0 <==> r.ok) && (exitCode == 0 || exitCode == 1)
  {
    var executed := table.Executed();
    ran := [];
    var i := 0;
    while i < |ms|
      invariant 0 <= i <= |ms|
      invariant RunFrom(ms, executed, executed, up) == After(ran, RunFrom(ms[i..], executed, table.names, up))
    {
      var m := ms[i];
      RunStep(ms, i, executed, table.names, up);
      if m.name !in executed {
        if !up(m.name) {
          ran := ran + [m.name];
          return 1, ran;
        }
        ghost var before := table.names;
        var recorded := table.Record(m.name);
        if !recorded {
          ran := ran + [m.name];
          return 1, ran;
        }
        AfterAfter(ran, [m.name], RunFrom(ms[i + 1..], executed, table.names, up));
        ran := ran + [m.name];
      }
      i := i + 1;
    }
    assert ran + [] == ran;
    exitCode := 0;
  }

  /** runMigrations over the migration list. */
  method RunMigrations(table: MigrationsTable, up: string -> bool) returns (exitCode: int, ran: seq<string>)
    modifies table
    ensures var r := RunFrom(MIGRATIONS, old(table.names), old(table.names), up);
      && ran == r.ran && table.names == r.table && (exitCode == 0 <==> r.ok)
  {
    exitCode, ran := RunList(table, MIGRATIONS, up);
  }

  /** With distinct names and a snapshot equal to the table, recording never
      hits the UNIQUE constraint: a run fails only when a migration's `up` fails. */
  lemma {:induction false} OnlyUpFails(ms: seq<Migration>, executed: seq<string>, table: seq<string>, up: string -> bool)
    requires DistinctNames(ms)
    requires forall m :: m in ms && m.name in table ==> m.name in executed
    ensures var r := RunFrom(ms, executed, table, up);
      !r.ok ==> !up(r.ran[|r.ran| - 1])
    decreases |ms|
  {
    if ms != [] {
      var m := ms[0];
      if m.name in executed {
        OnlyUpFails(ms[1..], executed, table, up);
      } else if up(m.name) && m.name !in table {
        forall m' | m' in ms[1..] && m'.name in table + [m.name] ensures m'.name in executed {
          var k :| 0 <= k < |ms[1..]| && ms[1..][k] == m';
          assert ms[k + 1] == m';
          assert m'.name != m.name;
        }
        OnlyUpFails(ms[1..], executed, table + [m.name], up);
      }
    }
  }

  /** A run of the migration list fails only at a migration whose `up` failed. */
  lemma MigrationFailureIsUpFailure(table: seq<string>, up: string -> bool)
    ensures var r := RunFrom(MIGRATIONS, table, table, up);
      !r.ok ==> !up(r.ran[|r.ran| - 1])
  {
    OnlyUpFails(MIGRATIONS, table, table, up);
  }

  /** Running again after a completed run executes nothing and changes nothing. */
  lemma SecondRunIsNoop(ms: seq<Migration>, table: seq<string>, up: string -> bool)
    requires RunFrom(ms, table, table, up).ok
    ensures var after := RunFrom(ms, table, table, up).table;
      RunFrom(ms, after, after, up) == RunResult([], after, true)
  {
    var after := RunFrom(ms, table, table, up).table;
    NothingPending(ms, after, up);
  }

  lemma {:induction false} NothingPending(ms: seq<Migration>, names: seq<string>, up: string -> bool)
    requires forall m :: m in ms ==> m.name in names
    ensures RunFrom(ms, names, names, up) == RunResult([], names, true)
    decreases |ms|
  {
    if ms != [] {
      assert ms[0] in ms;
      assert forall m :: m in ms[1..] ==> m in ms;
      NothingPending(ms[1..], names, up);
    }
  }

  /** The names of a migration list, in order. */
  function Names(ms: seq<Migration>): (r: seq<string>)
    ensures |r| == |ms| && forall i :: 0 <= i < |ms| ==> r[i] == ms[i].name
  {
    if ms == [] then [] else [ms[0].name] + Names(ms[1..])
  }

  /** With nothing executed yet, distinct names none of which the table holds,
      and every `up` succeeding, every migration runs, in list order, and is
      recorded. */
  lemma {:induction false} FreshRun(ms: seq<Migration>, table: seq<string>, up: string -> bool)
    requires DistinctNames(ms)
    requires forall m :: m in ms ==> up(m.name) && m.name !in table
    ensures RunFrom(ms, [], table, up) == RunResult(Names(ms), table + Names(ms), true)
    decreases |ms|
  {
    if ms == [] {
      assert table + [] == table;
    } else {
      var m := ms[0];
      forall m' | m' in ms[1..] ensures up(m'.name) && m'.name !in table + [m.name] {
        var k :| 0 <= k < |ms[1..]| && ms[1..][k] == m';
        assert ms[k + 1] == m';
      }
      FreshRun(ms[1..], table + [m.name], up);
      assert table + [m.name] + Names(ms[1..]) == table + Names(ms);
    }
  }

  /** On an empty database with every `up` succeeding, the three migrations
      run in order and are recorded. */
  lemma FreshDatabase()
    ensures RunFrom(MIGRATIONS, [], [], _ => true)
      == RunResult(["001_create_auth_tokens", "002_create_config", "003_add_calendar_config"],
                   ["001_create_auth_tokens", "002_create_config", "003_add_calendar_config"], true)
  {
    MigrationNames();
    FreshRun(MIGRATIONS, [], _ => true);
    assert [] + Names(MIGRATIONS) == Names(MIGRATIONS);
  }

  /** The list's names, distinct and in order. */
  lemma MigrationNames()
    ensures DistinctNames(MIGRATIONS)
    ensures Names(MIGRATIONS) == ["001_create_auth_tokens", "002_create_config", "003_add_calendar_config"]
  {
    assert MIGRATIONS[1..][1..] == [MIGRATIONS[2]];
  }
}
