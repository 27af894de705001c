/**
 * The play ledger of db/queries.go over an in-memory plays table. A row is a
 * record with the autoincremented id and the thirteen columns InsertIntoPlays
 * fills; a time is a number of seconds. The SQL statements are modelled by what
 * they do to the table, and the errors SQLite may report are oracles.
 */
module Queries {
  import opened Wrappers
  import opened Text

  datatype InsertParams = InsertParams(
    scrobbable: bool, fulfilled: bool,
    album: string, artist: string, title: string,
    duration: int, listenTime: int, wallTime: int, maxPosition: int, uniqueCoverage: int, seekCount: int,
    startTime: int, source: string)

  /** A row of plays: its id and the columns of the insert, in the same order. */
  datatype Row = Row(id: int, values: InsertParams)

  /** What GetUnfulfilledPlays reads of a row. */
  datatype Play = Play(id: int, album: string, artist: string, title: string, startTime: int)

  /** The arguments InsertIntoPlays binds to the thirteen placeholders, in order
      (db/queries.go:47-63), as the column values they become. */
  datatype Column = BoolValue(b: bool) | TextValue(t: string) | IntValue(n: int) | TimeValue(seconds: int)

  function InsertArgs(p: InsertParams): (r: seq<Column>)
    ensures |r| == 13
  {
    [BoolValue(p.scrobbable), BoolValue(p.fulfilled),
     TextValue(p.album), TextValue(p.artist), TextValue(p.title),
     IntValue(p.duration), IntValue(p.listenTime), IntValue(p.wallTime), IntValue(p.maxPosition),
     IntValue(p.uniqueCoverage), IntValue(p.seekCount),
     TimeValue(p.startTime), TextValue(p.source)]
  }

  /** The column list of the insert, which the arguments fill one to one. */
  const InsertColumns: seq<string> := ["scrobbable", "fulfilled", "album", "artist", "title",
    "duration", "listen_time", "wall_time", "max_position", "unique_coverage", "seek_count",
    "started_at", "source"]

  /** A row is built back from the bound arguments: each column receives its own
      parameter, so no two parameters share or swap a column. */
  function ParamsOf(args: seq<Column>): Option<InsertParams>
    requires |args| == 13
  {
    if args[0].BoolValue? && args[1].BoolValue? && args[2].TextValue? && args[3].TextValue? && args[4].TextValue?
       && args[5].IntValue? && args[6].IntValue? && args[7].IntValue? && args[8].IntValue? && args[9].IntValue?
       && args[10].IntValue? && args[11].TimeValue? && args[12].TextValue?
    then Some(InsertParams(args[0].b, args[1].b, args[2].t, args[3].t, args[4].t,
                           args[5].n, args[6].n, args[7].n, args[8].n, args[9].n, args[10].n,
                           args[11].seconds, args[12].t))
    else None
  }

  lemma InsertArgsRoundTrip(p: InsertParams)
    ensures |InsertColumns| == |InsertArgs(p)|
    ensures ParamsOf(InsertArgs(p)) == Some(p)
  {
  }

  /** `where fulfilled = false and scrobbable = true` (db/queries.go:68-70). */
  predicate Pending(r: Row) {
    !r.values.fulfilled && r.values.scrobbable
  }

  function PlayOf(r: Row): Play {
    Play(r.id, r.values.album, r.values.artist, r.values.title, r.values.startTime)
  }

  /** The rows the select returns, in table order. */
  function Unfulfilled(rows: seq<Row>): (r: seq<Row>)
    ensures |r| <= |rows|
  {
    if rows == [] then []
    else
      var init := Unfulfilled(rows[..|rows| - 1]);
      if Pending(rows[|rows| - 1]) then init + [rows[|rows| - 1]] else init
  }

  lemma {:induction false} UnfulfilledExactly(rows: seq<Row>)
    ensures forall r :: r in Unfulfilled(rows) <==> r in rows && !r.values.fulfilled && r.values.scrobbable
  {
    if rows != [] {
      var init := rows[..|rows| - 1];
      UnfulfilledExactly(init);
      assert rows == init + [rows[|rows| - 1]];
    }
  }

  function Plays(rows: seq<Row>): (r: seq<Play>)
    ensures |r| == |rows|
    ensures forall i :: 0 <= i < |rows| ==> r[i] == PlayOf(rows[i])
  {
    if rows == [] then [] else Plays(rows[..|rows| - 1]) + [PlayOf(rows[|rows| - 1])]
  }

  /** The ids of the plays, in order: the arguments of the update. */
  function Ids(plays: seq<Play>): (r: seq<int>)
    ensures |r| == |plays|
    ensures forall i :: 0 <= i < |plays| ==> r[i] == plays[i].id
  {
    if plays == [] then [] else Ids(plays[..|plays| - 1]) + [plays[|plays| - 1].id]
  }

  /** `update plays set fulfilled = true where id in (...)`. */
  function MarkFulfilled(rows: seq<Row>, ids: seq<int>): (r: seq<Row>)
    ensures |r| == |rows|
    ensures forall i :: 0 <= i < |rows| ==>
              r[i] == if rows[i].id in ids then rows[i].(values := rows[i].values.(fulfilled := true)) else rows[i]
  {
    seq(|rows|, i requires 0 <= i < |rows| =>
      if rows[i].id in ids then rows[i].(values := rows[i].values.(fulfilled := true)) else rows[i])
  }

  /** The row with the listed ids, and only those, are fulfilled afterwards;
      no other column and no other row changes. */
  lemma MarkFulfilledExactly(rows: seq<Row>, ids: seq<int>)
    ensures var r := MarkFulfilled(rows, ids);
            forall i :: 0 <= i < |rows| ==>
              && r[i].id == rows[i].id
              && (r[i].values.fulfilled <==> rows[i].values.fulfilled || rows[i].id in ids)
              && r[i].values == rows[i].values.(fulfilled := r[i].values.fulfilled)
  {
  }

  /** Repeating an update changes nothing more. */
  lemma MarkFulfilledIdempotent(rows: seq<Row>, ids: seq<int>)
    ensures MarkFulfilled(MarkFulfilled(rows, ids), ids) == MarkFulfilled(rows, ids)
  {
  }

  /** After marking the plays that were read, none of them is pending any more. */
  lemma {:induction false} MarkedNotPending(rows: seq<Row>)
    ensures var ids := Ids(Plays(Unfulfilled(rows)));
            Unfulfilled(MarkFulfilled(rows, ids)) == []
  {
    var ids := Ids(Plays(Unfulfilled(rows)));
    var after := MarkFulfilled(rows, ids);
    UnfulfilledExactly(rows);
    forall i | 0 <= i < |after|
      ensures !Pending(after[i])
    {
      if Pending(rows[i]) {
        assert rows[i] in Unfulfilled(rows);
        var k :| 0 <= k < |Unfulfilled(rows)| && Unfulfilled(rows)[k] == rows[i];
        assert ids[k] == rows[i].id;
      }
    }
    NonePending(after);
  }

  lemma {:induction false} NonePending(rows: seq<Row>)
    requires forall i :: 0 <= i < |rows| ==> !Pending(rows[i])
    ensures Unfulfilled(rows) == []
  {
    if rows != [] {
      NonePending(rows[..|rows| - 1]);
    }
  }

  /* ---------------- the placeholders of the update ---------------- */

  function Repeat(s: string, n: nat): (r: seq<string>)
    ensures |r| == n
    ensures forall i :: 0 <= i < n ==> r[i] == s
  {
    if n == 0 then [] else Repeat(s, n - 1) + [s]
  }

  /** The IN list: n "?" separated by commas. */
  function Placeholders(n: nat): string {
    Join(Repeat("?", n), ",")
  }

  function CountChar(s: string, c: char): nat {
    if s == [] then 0 else (if s[0] == c then 1 else 0) + CountChar(s[1..], c)
  }

  lemma {:induction false} CountCharAppend(a: string, b: string, c: char)
    ensures CountChar(a + b, c) == CountChar(a, c) + CountChar(b, c)
  {
    if a != [] {
      assert (a + b)[1..] == a[1..] + b;
      CountCharAppend(a[1..], b, c);
    } else {
      assert a + b == b;
    }
  }

  /** The list has one placeholder per play, one comma between two of them, and
      nothing else. */
  lemma {:induction false} PlaceholdersShape(n: nat)
    requires n > 0
    ensures |Placeholders(n)| == 2 * n - 1
    ensures CountChar(Placeholders(n), '?') == n
    ensures CountChar(Placeholders(n), ',') == n - 1
    ensures forall i :: 0 <= i < |Placeholders(n)| ==> Placeholders(n)[i] == (if i % 2 == 0 then '?' else ',')
  {
    var parts := Repeat("?", n);
    if n == 1 {
      assert Placeholders(1) == "?";
    } else {
      PlaceholdersShape(n - 1);
      assert parts[1..] == Repeat("?", n - 1);
      assert Placeholders(n) == "?" + "," + Placeholders(n - 1);
      CountCharAppend("?,", Placeholders(n - 1), '?');
      CountCharAppend("?,", Placeholders(n - 1), ',');
      assert ("?" + "," + Placeholders(n - 1)) == "?," + Placeholders(n - 1);
    }
  }

  /** The update statement for `list` (db/queries.go:96-98). */
  function UpdateQuery(list: string): string {
    "update plays set fulfilled = true where id in (" + list + ");"
  }

  /* ---------------- the table ---------------- */

  class PlaysTable {
    var rows: seq<Row>
    /** The next id autoincrement hands out. */
    var nextId: int

    /** Ids are distinct and below the next one. */
    predicate Valid()
      reads this
    {
      (forall i :: 0 <= i < |rows| ==> rows[i].id < nextId)
      && forall i, j :: 0 <= i < j < |rows| ==> rows[i].id != rows[j].id
    }

    constructor ()
      ensures rows == [] && nextId == 1 && Valid()
    {
      rows := [];
      nextId := 1;
    }

    /** InsertIntoPlays (db/queries.go:47-65): exactly one row more, holding the
        parameters, or no change when SQLite reports an error. */
    method InsertIntoPlays(params: InsertParams, execError: Option<string>) returns (err: Option<string>)
      requires Valid()
      modifies this
      ensures Valid()
      ensures err == execError
      ensures execError.Some? ==> rows == old(rows) && nextId == old(nextId)
      ensures execError.None? ==> rows == old(rows) + [Row(old(nextId), params)] && nextId == old(nextId) + 1
    {
      if execError.Some? {
        return execError;
      }
      var args := InsertArgs(params);
      InsertArgsRoundTrip(params);
      rows := rows + [Row(nextId, ParamsOf(args).value)];
      nextId := nextId + 1;
      return None;
    }

    /** GetUnfulfilledPlays (db/queries.go:72-94). `scanError(i)` is the error of
        scanning the i-th selected row, `rowsError` that of rows.Err. */
    method GetUnfulfilledPlays(queryError: Option<string>, scanError: nat -> Option<string>, rowsError: Option<string>)
      returns (plays: seq<Play>, err: Option<string>)
      ensures err.Some? ==> plays == []
      ensures err.None? <==>
                queryError.None? && rowsError.None? && forall i :: 0 <= i < |Unfulfilled(rows)| ==> scanError(i).None?
      ensures err.None? ==> plays == Plays(Unfulfilled(rows))
    {
      if queryError.Some? {
        return [], queryError;
      }
      var selected := Unfulfilled(rows);
      plays := [];
      var i := 0;
      while i < |selected|
        invariant 0 <= i <= |selected|
        invariant plays == Plays(selected[..i])
        invariant forall j :: 0 <= j < i ==> scanError(j).None?
      {
        if scanError(i).Some? {
          return [], scanError(i);
        }
        assert selected[..i + 1] == selected[..i] + [selected[i]];
        assert selected[..i + 1][..i] == selected[..i];
        plays := plays + [PlayOf(selected[i])];
        i := i + 1;
      }
      assert selected[..i] == selected;
      if rowsError.Some? {
        return [], rowsError;
      }
      return plays, None;
    }

    /** UpdateUnfulfilledPlays (db/queries.go:100-116): no statement for an empty
        list; otherwise one placeholder per play bound to its id. */
    method UpdateUnfulfilledPlays(plays: seq<Play>, execError: Option<string>)
      returns (query: string, args: seq<int>, err: Option<string>)
      requires Valid()
      modifies this
      ensures Valid()
      ensures plays == [] ==> err.None? && query == "" && args == [] && rows == old(rows)
      ensures plays != [] ==> query == UpdateQuery(Placeholders(|plays|)) && args == Ids(plays) && err == execError
      ensures plays != [] && execError.None? ==> rows == MarkFulfilled(old(rows), args)
      ensures plays != [] && execError.Some? ==> rows == old(rows)
      ensures nextId == old(nextId)
    {
      if |plays| == 0 {
        return "", [], None;
      }
      var placeholders := new string[|plays|];
      var argsArray := new int[|plays|];
      var i := 0;
      while i < |plays|
        invariant 0 <= i <= |plays|
        invariant forall j :: 0 <= j < i ==> placeholders[j] == "?" && argsArray[j] == plays[j].id
        invariant unchanged(this)
      {
        placeholders[i] := "?";
        argsArray[i] := plays[i].id;
        i := i + 1;
      }
      assert placeholders[..] == Repeat("?", |plays|);
      assert argsArray[..] == Ids(plays);
      query := UpdateQuery(Join(placeholders[..], ","));
      args := argsArray[..];
      err := execError;
      if execError.None? {
        MarkFulfilledKeepsIds(rows, args, nextId);
        rows := MarkFulfilled(rows, args);
      }
    }
  }

  /** Updating keeps the ids, so the table stays valid. */
  lemma MarkFulfilledKeepsIds(rows: seq<Row>, ids: seq<int>, nextId: int)
    requires (forall i :: 0 <= i < |rows| ==> rows[i].id < nextId)
    requires forall i, j :: 0 <= i < j < |rows| ==> rows[i].id != rows[j].id
    ensures var r := MarkFulfilled(rows, ids);
            && (forall i :: 0 <= i < |r| ==> r[i].id < nextId)
            && forall i, j :: 0 <= i < j < |r| ==> r[i].id != r[j].id
  {
  }
}
