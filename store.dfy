/**
 * `flush_db` and the `lecturas` table it writes. Each buffered reading becomes
 * a fixed six-column row (a missing field is NULL); all rows are upserted by
 * their `Tiempo` primary key (`INSERT OR REPLACE`) in one transaction, in
 * buffer order; rows whose `Tiempo` sorts below a cutoff are then deleted.
 * The table is a map from `Tiempo` to row; `Tiempo` is TEXT, so "below" is
 * SQLite's string order, `LexLess`.
 */
module Store {
  import opened Wrappers
  import opened Text
  import opened Parser

  /** A buffered reading: `{"Tiempo": ..., <sensor column>: <number>, ...}`. */
  datatype Reading = Reading(tiempo: string, fields: map<string, real>)

  /** A row of `lecturas`: `Tiempo` and the five nullable REAL columns, in table order. */
  datatype Row = Row(tiempo: string, tmp117Temp: Option<real>, bme680Temp: Option<real>,
                     humedad: Option<real>, presion: Option<real>, gasResistencia: Option<real>)

  /** The table, keyed by its primary key `Tiempo`. */
  type Table = map<string, Row>

  /** `tuple(d.get(c) for c in COLUMNAS)`. */
  function ToRow(d: Reading): Row {
    Row(d.tiempo, Get(d.fields, "TMP117_Temp"), Get(d.fields, "BME680_Temp"),
        Get(d.fields, "Humedad"), Get(d.fields, "Presion"), Get(d.fields, "Gas_Resistencia"))
  }

  /** The value of a sensor column of a row, by the column's name. */
  function Column(row: Row, c: string): Option<real> {
    if c == "TMP117_Temp" then row.tmp117Temp
    else if c == "BME680_Temp" then row.bme680Temp
    else if c == "Humedad" then row.humedad
    else if c == "Presion" then row.presion
    else if c == "Gas_Resistencia" then row.gasResistencia
    else None
  }

  /** The reading a row holds: its `Tiempo` and its non-NULL columns. */
  function FromRow(row: Row): Reading {
    Reading(row.tiempo, map c | c in SensorColumns && Column(row, c).Some? :: Column(row, c).value)
  }

  /** `registros`: the rows of a buffer, in buffer order. */
  function ToRows(buffer: seq<Reading>): seq<Row> {
    seq(|buffer|, i requires 0 <= i < |buffer| => ToRow(buffer[i]))
  }

  /** `INSERT OR REPLACE` of each row in turn: a left fold, the last row per `Tiempo` winning. */
  function UpsertAll(t: Table, rows: seq<Row>): Table {
    if rows == [] then t
    else
      var last := rows[|rows| - 1];
      UpsertAll(t, rows[..|rows| - 1])[last.tiempo := last]
  }

  /** `DELETE FROM lecturas WHERE Tiempo < cutoff`. */
  function Prune(t: Table, cutoff: string): Table {
    map k | k in t && !LexLess(k, cutoff) :: t[k]
  }

  /**
   * The table after `flush_db`: unchanged when the transaction raised (it is
   * rolled back); otherwise upserted, then pruned unless the DELETE failed.
   */
  function FlushResult(t: Table, buffer: seq<Reading>, cutoff: string, txFails: bool, pruneFails: bool): Table {
    if txFails then t
    else
      var upserted := UpsertAll(t, ToRows(buffer));
      if pruneFails then upserted else Prune(upserted, cutoff)
  }

  /** The number `flush_db` returns: `len(registros)`, or 0 when the transaction raised. */
  function FlushCount(buffer: seq<Reading>, txFails: bool): nat {
    if txFails then 0 else |buffer|
  }

  /** The `lecturas` table behind an open connection. */
  class Database {
    var rows: Table

    constructor (initial: Table)
      ensures rows == initial
    {
      rows := initial;
    }

    /** `SELECT COUNT(*) FROM lecturas`. */
    function RowCount(): nat
      reads this
    {
      |rows|
    }

    /**
     * `safe_execute(conn, "DELETE FROM lecturas WHERE Tiempo < ...")`: true and the
     * old rows gone, or, when the statement raises, false and nothing deleted.
     */
    method PruneOlderThan(cutoff: string, fails: bool) returns (ok: bool)
      modifies this
      ensures ok == !fails
      ensures rows == if ok then Prune(old(rows), cutoff) else old(rows)
    {
      if fails {
        return false;
      }
      var pending := rows.Keys;
      while pending != {}
        invariant pending <= old(rows).Keys
        invariant forall k :: k in rows <==> k in old(rows) && (k in pending || !LexLess(k, cutoff))
        invariant forall k :: k in rows ==> rows[k] == old(rows)[k]
        decreases pending
      {
        var k :| k in pending;
        if LexLess(k, cutoff) {
          rows := rows - {k};
        }
        pending := pending - {k};
      }
      assert rows == Prune(old(rows), cutoff);
      return true;
    }

    /**
     * `flush_db(conn, buffer)`. `txFails` says that the `INSERT OR REPLACE`
     * transaction raises `sqlite3.DatabaseError`; `pruneFails` that the DELETE does.
     */
    method Flush(buffer: seq<Reading>, cutoff: string, txFails: bool, pruneFails: bool) returns (written: nat)
      modifies this
      ensures written == FlushCount(buffer, txFails)
      ensures rows == FlushResult(old(rows), buffer, cutoff, txFails, pruneFails)
    {
      var registros := ToRows(buffer);
      // `with conn:` — the upserts go to a pending copy that is committed only if none raised.
      var pending := rows;
      for i := 0 to |registros|
        invariant pending == UpsertAll(rows, registros[..i])
      {
        assert registros[..i + 1][..i] == registros[..i];
        pending := pending[registros[i].tiempo := registros[i]];
      }
      assert registros[..|registros|] == registros;
      if txFails {
        return 0;
      }
      rows := pending;
      var _ := PruneOlderThan(cutoff, pruneFails);
      written := |registros|;
    }
  }

  // ----- properties of the row translation -----

  /** Each sensor column of the row is the reading's field, or NULL when the field is missing. */
  lemma ToRowColumns(d: Reading)
    ensures ToRow(d).tiempo == d.tiempo
    ensures forall i :: 0 <= i < |SensorColumns| ==> Column(ToRow(d), SensorColumns[i]) == Get(d.fields, SensorColumns[i])
  {
  }

  /** A reading whose keys are sensor columns survives the trip to a row and back. */
  lemma RowRoundTrip(d: Reading)
    requires forall c :: c in d.fields ==> c in SensorColumns
    ensures FromRow(ToRow(d)) == d
  {
    var back := FromRow(ToRow(d)).fields;
    forall c | c in SensorColumns ensures Column(ToRow(d), c) == Get(d.fields, c) {
    }
    assert back == d.fields;
  }

  /** A row survives the trip to a reading and back. */
  lemma RowFromRowRoundTrip(row: Row)
    ensures ToRow(FromRow(row)) == row
  {
  }

  // ----- properties of the upsert -----

  /** Upserting rows into a table overrides the table with the upserts alone. */
  lemma {:induction false} UpsertAllOverride(t: Table, rows: seq<Row>)
    ensures UpsertAll(t, rows) == t + UpsertAll(map[], rows)
  {
    if rows != [] {
      UpsertAllOverride(t, rows[..|rows| - 1]);
    }
  }

  /** The index of the last row with key `k`. */
  predicate LastWith(rows: seq<Row>, k: string, i: int) {
    0 <= i < |rows| && rows[i].tiempo == k && forall j :: i < j < |rows| ==> rows[j].tiempo != k
  }

  /**
   * After the upserts a key is present exactly when it was before or some row
   * has it; a key some row has holds the LAST such row; other keys keep their old row.
   */
  lemma {:induction false} UpsertAllLastWins(t: Table, rows: seq<Row>, k: string)
    ensures k in UpsertAll(t, rows) <==> k in t || exists i :: 0 <= i < |rows| && rows[i].tiempo == k
    ensures (forall i :: 0 <= i < |rows| ==> rows[i].tiempo != k) && k in t ==> UpsertAll(t, rows)[k] == t[k]
    ensures forall i :: LastWith(rows, k, i) ==> UpsertAll(t, rows)[k] == rows[i]
  {
    if rows != [] {
      var init := rows[..|rows| - 1];
      var n := |rows| - 1;
      UpsertAllLastWins(t, init, k);
      assert forall i :: 0 <= i < n ==> rows[i] == init[i];
      forall i | LastWith(rows, k, i) ensures UpsertAll(t, rows)[k] == rows[i] {
        if i < n {
          assert LastWith(init, k, i);
        }
      }
    }
  }

  /**
   * The upserts add at most one row each; when their keys are distinct and new
   * to the table they add exactly one row each.
   */
  lemma {:induction false} UpsertAllCount(t: Table, rows: seq<Row>)
    ensures |UpsertAll(t, rows)| <= |t| + |rows|
    ensures (forall i, j :: 0 <= i < j < |rows| ==> rows[i].tiempo != rows[j].tiempo) &&
            (forall i :: 0 <= i < |rows| ==> rows[i].tiempo !in t)
        ==> |UpsertAll(t, rows)| == |t| + |rows|
  {
    if rows != [] {
      var init := rows[..|rows| - 1];
      var last := rows[|rows| - 1];
      UpsertAllCount(t, init);
      var u := UpsertAll(t, init);
      if last.tiempo in u {
        assert u[last.tiempo := last].Keys == u.Keys;
      } else {
        assert u[last.tiempo := last].Keys == u.Keys + {last.tiempo};
      }
      if (forall i, j :: 0 <= i < j < |rows| ==> rows[i].tiempo != rows[j].tiempo) &&
         (forall i :: 0 <= i < |rows| ==> rows[i].tiempo !in t) {
        UpsertAllLastWins(t, init, last.tiempo);
        assert last.tiempo !in u;
      }
    }
  }

  // ----- properties of the prune and of a whole flush -----

  /** Deleting with the same cutoff twice deletes nothing more. */
  lemma PruneIdempotent(t: Table, cutoff: string)
    ensures Prune(Prune(t, cutoff), cutoff) == Prune(t, cutoff)
  {
  }

  /** Deleting from a table overridden by another deletes from each. */
  lemma PruneOverride(a: Table, b: Table, cutoff: string)
    ensures Prune(a + b, cutoff) == Prune(a, cutoff) + Prune(b, cutoff)
  {
  }

  /** After a later cutoff, an earlier one deletes nothing more. */
  lemma PruneLaterCutoff(t: Table, earlier: string, later: string)
    requires LexLess(earlier, later)
    ensures Prune(Prune(t, later), earlier) == Prune(t, later)
  {
    forall k | k in Prune(t, later) ensures !LexLess(k, earlier) {
      if LexLess(k, earlier) {
        LexLessTransitive(k, earlier, later);
      }
    }
  }

  /** Flushing the same buffer twice leaves the table as flushing it once. */
  lemma FlushIdempotent(t: Table, buffer: seq<Reading>, cutoff: string)
    ensures FlushResult(FlushResult(t, buffer, cutoff, false, false), buffer, cutoff, false, false)
         == FlushResult(t, buffer, cutoff, false, false)
  {
    var m := UpsertAll(map[], ToRows(buffer));
    var once := FlushResult(t, buffer, cutoff, false, false);
    UpsertAllOverride(t, ToRows(buffer));
    UpsertAllOverride(once, ToRows(buffer));
    PruneOverride(t, m, cutoff);
    PruneOverride(once, m, cutoff);
    assert once == Prune(t, cutoff) + Prune(m, cutoff);
    assert Prune(once, cutoff) == once;
  }

  /** Reading `i` is the last one in the buffer with its `Tiempo`. */
  predicate LastReading(buffer: seq<Reading>, i: int) {
    0 <= i < |buffer| && forall j :: i < j < |buffer| ==> buffer[j].tiempo != buffer[i].tiempo
  }

  /**
   * After a flush whose DELETE ran, no row is older than the cutoff, and every
   * buffered reading not older than the cutoff is stored as the row of the LAST
   * buffered reading with its `Tiempo`.
   */
  lemma FlushRetention(t: Table, buffer: seq<Reading>, cutoff: string)
    ensures forall k :: k in FlushResult(t, buffer, cutoff, false, false) ==> !LexLess(k, cutoff)
    ensures forall i :: LastReading(buffer, i) && !LexLess(buffer[i].tiempo, cutoff) ==>
      buffer[i].tiempo in FlushResult(t, buffer, cutoff, false, false) &&
      FlushResult(t, buffer, cutoff, false, false)[buffer[i].tiempo] == ToRow(buffer[i])
  {
    var rows := ToRows(buffer);
    forall i | LastReading(buffer, i) && !LexLess(buffer[i].tiempo, cutoff)
      ensures buffer[i].tiempo in FlushResult(t, buffer, cutoff, false, false) &&
              FlushResult(t, buffer, cutoff, false, false)[buffer[i].tiempo] == ToRow(buffer[i])
    {
      UpsertAllLastWins(t, rows, buffer[i].tiempo);
      assert LastWith(rows, buffer[i].tiempo, i);
    }
  }

  /**
   * `flush_db` reports `len(buffer)`, not the number of rows it adds: two
   * readings with the same `Tiempo` are reported as 2 but add one row.
   */
  lemma FlushCountsReadings(t: Table, a: Reading, b: Reading, cutoff: string)
    requires a.tiempo == b.tiempo && a.tiempo !in t
    ensures FlushCount([a, b], false) == 2
    ensures |UpsertAll(t, ToRows([a, b]))| == |t| + 1
  {
    assert ToRows([a, b]) == [ToRow(a), ToRow(b)];
    UpsertSameKey(t, ToRow(a), ToRow(b));
  }

  /** Two upserts with the same key, new to the table, add one row. */
  lemma UpsertSameKey(t: Table, r1: Row, r2: Row)
    requires r1.tiempo == r2.tiempo && r1.tiempo !in t
    ensures |UpsertAll(t, [r1, r2])| == |t| + 1
  {
    assert [r1, r2][..1] == [r1];
    assert [r1][..0] == [];
    assert UpsertAll(t, []) == t;
    assert UpsertAll(t, [r1]) == t[r1.tiempo := r1];
    assert UpsertAll(t, [r1, r2]) == t[r1.tiempo := r1][r2.tiempo := r2];
    assert t[r1.tiempo := r1][r2.tiempo := r2] == t[r1.tiempo := r2];
    assert t[r1.tiempo := r2].Keys == t.Keys + {r1.tiempo};
  }

  /**
   * A buffer whose readings carry distinct `Tiempo` values, none already
   * stored, adds exactly one row per reading.
   */
  lemma FlushInsertsDistinct(t: Table, buffer: seq<Reading>)
    requires forall i, j :: 0 <= i < j < |buffer| ==> buffer[i].tiempo != buffer[j].tiempo
    requires forall i :: 0 <= i < |buffer| ==> buffer[i].tiempo !in t
    ensures |UpsertAll(t, ToRows(buffer))| == |t| + |buffer|
  {
    var rows := ToRows(buffer);
    assert forall i :: 0 <= i < |rows| ==> rows[i].tiempo == buffer[i].tiempo;
    UpsertAllCount(t, rows);
  }

  /** A reading whose `Tiempo` is already stored overwrites that row: the row count is unchanged and the row holds the new values. */
  lemma FlushOverwrites(t: Table, d: Reading)
    requires d.tiempo in t
    ensures |UpsertAll(t, ToRows([d]))| == |t|
    ensures UpsertAll(t, ToRows([d]))[d.tiempo] == ToRow(d)
  {
    var rows := ToRows([d]);
    assert rows == [ToRow(d)];
    assert rows[..0] == [];
    assert UpsertAll(t, rows) == t[d.tiempo := ToRow(d)];
    assert t[d.tiempo := ToRow(d)].Keys == t.Keys;
  }

  /** Flushing one reading, not older than the cutoff, into an empty table reports 1 and leaves one row. */
  lemma FlushOneReading(d: Reading, cutoff: string)
    requires !LexLess(d.tiempo, cutoff)
    ensures FlushCount([d], false) == 1
    ensures FlushResult(map[], [d], cutoff, false, false) == map[d.tiempo := ToRow(d)]
  {
    var rows := ToRows([d]);
    assert rows == [ToRow(d)];
    assert rows[..0] == [];
    assert UpsertAll(map[], rows) == map[d.tiempo := ToRow(d)];
  }
}
