/**
 * The acquisition loop of `main()`: one turn of `while True` reads a line from
 * the board; a header line is followed by six sensor lines that become one
 * buffered reading; once the flush deadline has passed and the buffer is not
 * empty the buffer is written to the database, and on success the running
 * total grows, the last reading is notified, the buffer is emptied and a new
 * deadline is drawn 300 to 600 seconds ahead.
 *
 * Everything a turn learns from the outside is a `Tick`: whether the port is
 * open, what each `readline()` gives, the clock, the UTC timestamp string, the
 * pruning cutoff, whether the database statements raise, the random delay and
 * the turns of the retry loop `conectar_serial()` runs when the turn reconnects.
 */
module Acquisition {
  import opened Wrappers
  import opened Text
  import opened Parser
  import opened Store
  import opened Serial

  /** The line the board sends before each block. */
  function Marker(): string {
    "------ Lecturas ------"
  }
  /** Lines read after a header. */
  const BlockSize: nat := 6
  /** Bounds of `random.randint(MIN_ESCRITURA_DB, MAX_ESCRITURA_DB)`, in seconds. */
  const MinFlushDelay: int := 300
  const MaxFlushDelay: int := 600

  /** What one `readline()` gives: the decoded text, or a `SerialException`. */
  datatype ReadResult = Lost | Line(text: string)

  /** What one turn of the loop observes. */
  datatype Tick = Tick(isOpen: bool, first: ReadResult, block: seq<ReadResult>, tiempo: string,
                       now: real, cutoff: string, txFails: bool, pruneFails: bool, delay: int,
                       reconnect: seq<Attempt>)

  /**
   * A turn reads at most six block lines, the delay is one `randint` can draw,
   * and a reconnection returns: some turn of its retry loop connects.
   */
  predicate ValidTick(t: Tick) {
    |t.block| == BlockSize && MinFlushDelay <= t.delay <= MaxFlushDelay && FirstSuccess(t.reconnect).Some?
  }

  /** Every turn of a run is valid. */
  predicate ValidTicks(ticks: seq<Tick>) {
    forall i :: 0 <= i < |ticks| ==> ValidTick(ticks[i])
  }

  /** The loop's variables and the table: `buffer`, `contador_total`, `proximo_flush_db`, `lecturas`, the notified readings and `ser`. */
  datatype LoopState = LoopState(buffer: seq<Reading>, counter: nat, deadline: real, rows: Table,
                                 notified: seq<Reading>, port: Connection)

  /** `"------ Lecturas ------" in line and line`. */
  predicate IsHeader(line: string) {
    Contains(line, Marker()) && line != ""
  }

  /** The stripped block lines, in order, or `None` when a read raised. */
  function ReadBlock(results: seq<ReadResult>): Option<seq<string>> {
    if results == [] then Some([])
    else
      var last := results[|results| - 1];
      match ReadBlock(results[..|results| - 1])
      case None => None
      case Some(lines) => if last.Lost? then None else Some(lines + [Strip(last.text)])
  }

  /** `any(k in datos for k in COLUMNAS if k != "Tiempo")`. */
  predicate HasSensorField(d: Reading) {
    exists i :: 0 <= i < |SensorColumns| && SensorColumns[i] in d.fields
  }

  /** The buffer after a complete block: the reading is appended when it holds a sensor field. */
  function Ingest(buffer: seq<Reading>, tiempo: string, lines: seq<string>): seq<Reading> {
    var d := Reading(tiempo, ParseBlock(lines));
    if HasSensorField(d) then buffer + [d] else buffer
  }

  /**
   * The state on reaching the flush check (`ahora = time.time()`), or `None`
   * when the turn ends earlier with `continue` after a reconnection.
   */
  function Reach(s: LoopState, t: Tick): Option<LoopState> {
    if !t.isOpen || t.first.Lost? then None
    else if IsHeader(Strip(t.first.text)) then
      match ReadBlock(t.block)
      case None => None
      case Some(lines) => Some(s.(buffer := Ingest(s.buffer, t.tiempo, lines)))
    else Some(s)
  }

  /** The flush check at the end of a turn. */
  function FlushCheck(s: LoopState, t: Tick): LoopState {
    if t.now >= s.deadline && s.buffer != [] then
      var escritos := FlushCount(s.buffer, t.txFails);
      var rows := FlushResult(s.rows, s.buffer, t.cutoff, t.txFails, t.pruneFails);
      if escritos != 0 then
        s.(buffer := [], counter := s.counter + escritos, notified := s.notified + [s.buffer[|s.buffer| - 1]],
           deadline := t.now + t.delay as real, rows := rows)
      else s.(rows := rows)
    else s
  }

  /** One turn of the loop. */
  function StepSpec(s: LoopState, t: Tick): LoopState
    requires ValidTick(t)
  {
    match Reach(s, t)
    case None => s.(port := Established(t.reconnect))
    case Some(m) => FlushCheck(m, t)
  }

  /** Several turns, in order. */
  function Run(s: LoopState, ticks: seq<Tick>): LoopState
    requires ValidTicks(ticks)
  {
    if ticks == [] then s else StepSpec(Run(s, ticks[..|ticks| - 1]), ticks[|ticks| - 1])
  }

  /** The state before the first turn: an empty buffer, the table's row count and a deadline 300 to 600 seconds after the start. */
  function Initial(rows: Table, port: Connection, start: real, delay: int): (s: LoopState)
    requires MinFlushDelay <= delay <= MaxFlushDelay
    ensures s.buffer == [] && s.counter == |rows| && s.rows == rows && s.notified == []
    ensures start + 300.0 <= s.deadline <= start + 600.0
  {
    LoopState([], |rows|, start + delay as real, rows, [], port)
  }

  /** The six block reads of a header (`for _ in range(6)`), stopping at the first that raises. */
  method ReadSensorLines(results: seq<ReadResult>) returns (lines: Option<seq<string>>)
    ensures lines == ReadBlock(results)
  {
    var acc: seq<string> := [];
    for i := 0 to |results|
      invariant ReadBlock(results[..i]) == Some(acc)
    {
      assert results[..i + 1][..i] == results[..i];
      if results[i].Lost? {
        LostStaysLost(results, i + 1);
        return None;
      }
      acc := acc + [Strip(results[i].text)];
    }
    assert results[..|results|] == results;
    return Some(acc);
  }

  /** The running loop of `main()` over a database. */
  class Acquisition {
    const db: Database
    var buffer: seq<Reading>
    var contador: nat
    var proximoFlush: real
    var notified: seq<Reading>
    var port: Connection

    /** The loop's variables together with the table. */
    function State(): LoopState
      reads this, db
    {
      LoopState(buffer, contador, proximoFlush, db.rows, notified, port)
    }

    /**
     * The set-up before `while True`: `conectar_serial()` over the turns
     * `attempts`, then the loop's variables, started at `start` with the drawn `delay`.
     */
    constructor (db: Database, attempts: seq<Attempt>, start: real, delay: int)
      requires FirstSuccess(attempts).Some?
      requires MinFlushDelay <= delay <= MaxFlushDelay
      ensures this.db == db
      ensures State() == Initial(db.rows, Established(attempts), start, delay)
    {
      var conn, _ := ConnectSerial(attempts);
      this.db := db;
      buffer := [];
      contador := db.RowCount();
      proximoFlush := start + delay as real;
      notified := [];
      port := conn.value;
    }

    /**
     * The reading part of a turn, up to `ahora = time.time()`: false when the
     * turn ends with `continue` after reconnecting.
     */
    method ReadTurn(t: Tick) returns (reached: bool)
      requires ValidTick(t)
      modifies this
      ensures reached <==> Reach(old(State()), t).Some?
      ensures reached ==> State() == Reach(old(State()), t).value
      ensures !reached ==> State() == old(State()).(port := Established(t.reconnect))
    {
      if !t.isOpen || t.first.Lost? {
        Reconnect(t.reconnect);
        return false;
      }
      var line := Strip(t.first.text);
      if IsHeader(line) {
        var sensorLines := ReadSensorLines(t.block);
        if sensorLines.None? {
          Reconnect(t.reconnect);
          return false;
        }
        var datos := ParseSensorBlock(sensorLines.value);
        var d := Reading(t.tiempo, datos);
        if HasSensorField(d) {
          buffer := buffer + [d];
        }
      }
      return true;
    }

    /** `ser = conectar_serial()` after the port was found closed or a read raised. */
    method Reconnect(attempts: seq<Attempt>)
      requires FirstSuccess(attempts).Some?
      modifies this
      ensures State() == old(State()).(port := Established(attempts))
    {
      var conn, _ := ConnectSerial(attempts);
      port := conn.value;
    }

    /** The flush check that ends a turn. */
    method FlushIfDue(t: Tick)
      modifies this, db
      ensures State() == FlushCheck(old(State()), t)
    {
      if t.now >= proximoFlush && buffer != [] {
        var escritos := db.Flush(buffer, t.cutoff, t.txFails, t.pruneFails);
        if escritos != 0 {
          contador := contador + escritos;
          notified := notified + [buffer[|buffer| - 1]];
          buffer := [];
          proximoFlush := t.now + t.delay as real;
        }
      }
    }

    /** One turn of `while True`. */
    method Step(t: Tick)
      requires ValidTick(t)
      modifies this, db
      ensures State() == StepSpec(old(State()), t)
    {
      var reached := ReadTurn(t);
      if reached {
        FlushIfDue(t);
      }
    }
  }

  // ----- properties of a turn -----

  /** A read that raised makes every longer run of reads raise. */
  lemma {:induction false} LostStaysLost(results: seq<ReadResult>, k: nat)
    requires k <= |results| && ReadBlock(results[..k]) == None
    ensures ReadBlock(results) == None
  {
    if k < |results| {
      var n := |results| - 1;
      assert results[..n][..k] == results[..k];
      LostStaysLost(results[..n], k);
    } else {
      assert results[..k] == results;
    }
  }

  /**
   * The block reads yield lines exactly when none raised; then they are the
   * stripped texts, in order.
   */
  lemma {:induction false} ReadBlockLines(results: seq<ReadResult>)
    ensures ReadBlock(results).Some? <==> forall i :: 0 <= i < |results| ==> results[i].Line?
    ensures ReadBlock(results).Some? ==>
      |ReadBlock(results).value| == |results| &&
      forall i :: 0 <= i < |results| ==> ReadBlock(results).value[i] == Strip(results[i].text)
  {
    if results != [] {
      var n := |results| - 1;
      ReadBlockLines(results[..n]);
      assert forall i :: 0 <= i < n ==> results[..n][i] == results[i];
    }
  }

  /** Every buffered reading holds a sensor field, and its keys are sensor columns. */
  predicate BufferOk(buffer: seq<Reading>) {
    forall i :: 0 <= i < |buffer| ==>
      HasSensorField(buffer[i]) && forall c :: c in buffer[i].fields ==> c in SensorColumns
  }

  /** Readings counted so far: the rows reported written plus the readings still buffered. */
  function Accounted(s: LoopState): nat {
    s.counter + |s.buffer|
  }

  /**
   * A complete block is buffered exactly when one of its lines parses, and the
   * buffered reading is the block's parse stamped with the turn's `Tiempo`.
   */
  lemma IngestSpec(buffer: seq<Reading>, tiempo: string, lines: seq<string>)
    ensures (exists i :: 0 <= i < |lines| && ParseLine(lines[i]).Some?) ==>
      Ingest(buffer, tiempo, lines) == buffer + [Reading(tiempo, ParseBlock(lines))]
    ensures (forall i :: 0 <= i < |lines| ==> ParseLine(lines[i]).None?) ==> Ingest(buffer, tiempo, lines) == buffer
    ensures BufferOk(buffer) ==> BufferOk(Ingest(buffer, tiempo, lines))
  {
    var d := Reading(tiempo, ParseBlock(lines));
    ParseBlockEmpty(lines);
    ParseBlockKeys(lines);
    if ParseBlock(lines) != map[] {
      var c :| c in ParseBlock(lines);
      var j :| 0 <= j < |SensorColumns| && SensorColumns[j] == c;
      assert HasSensorField(d);
    }
  }

  /**
   * Reaching the flush check only ever appends one reading to the buffer: the
   * other variables are as they were, and the buffer invariant is kept.
   */
  lemma ReachAppends(s: LoopState, t: Tick)
    requires Reach(s, t).Some?
    ensures Reach(s, t).value == s.(buffer := Reach(s, t).value.buffer)
    ensures |s.buffer| <= |Reach(s, t).value.buffer| <= |s.buffer| + 1
    ensures Reach(s, t).value.buffer[..|s.buffer|] == s.buffer
    ensures BufferOk(s.buffer) ==> BufferOk(Reach(s, t).value.buffer)
  {
    if IsHeader(Strip(t.first.text)) {
      IngestSpec(s.buffer, t.tiempo, ReadBlock(t.block).value);
    }
  }

  /**
   * A turn reconnects and changes nothing else when the port is closed, when the
   * first read raises, or when a read of a header's block raises.
   */
  lemma StepReconnects(s: LoopState, t: Tick)
    requires ValidTick(t)
    requires !t.isOpen || t.first.Lost? ||
             (IsHeader(Strip(t.first.text)) && exists i :: 0 <= i < |t.block| && t.block[i].Lost?)
    ensures StepSpec(s, t) == s.(port := Established(t.reconnect))
    ensures StepSpec(s, t).port.baud == 115200 && StepSpec(s, t).port.timeout == 2
  {
    ReadBlockLines(t.block);
  }

  /** Nothing is written, counted or notified before the deadline, or with an empty buffer. */
  lemma NoFlushUntilDue(s: LoopState, t: Tick)
    requires ValidTick(t) && Reach(s, t).Some?
    requires t.now < s.deadline || Reach(s, t).value.buffer == []
    ensures StepSpec(s, t) == Reach(s, t).value
    ensures StepSpec(s, t).rows == s.rows && StepSpec(s, t).counter == s.counter
    ensures StepSpec(s, t).notified == s.notified && StepSpec(s, t).deadline == s.deadline
  {
    ReachAppends(s, t);
  }

  /**
   * A due flush whose transaction commits: the total grows by the number of
   * buffered readings, the last of them is notified, the buffer is emptied, the
   * next deadline is 300 to 600 seconds away, and the table holds every buffered
   * reading not older than the cutoff and, when the DELETE ran, nothing older.
   */
  lemma FlushSucceeds(s: LoopState, t: Tick)
    requires ValidTick(t) && Reach(s, t).Some?
    requires t.now >= s.deadline && Reach(s, t).value.buffer != [] && !t.txFails
    ensures var m := Reach(s, t).value; var s' := StepSpec(s, t);
      s'.counter == s.counter + |m.buffer| &&
      s'.buffer == [] &&
      s'.notified == s.notified + [m.buffer[|m.buffer| - 1]] &&
      t.now + 300.0 <= s'.deadline <= t.now + 600.0 &&
      s'.rows == FlushResult(s.rows, m.buffer, t.cutoff, false, t.pruneFails)
    ensures var m := Reach(s, t).value; var s' := StepSpec(s, t);
      !t.pruneFails ==>
        (forall k :: k in s'.rows ==> !LexLess(k, t.cutoff)) &&
        forall i :: LastReading(m.buffer, i) && !LexLess(m.buffer[i].tiempo, t.cutoff) ==>
          m.buffer[i].tiempo in s'.rows && s'.rows[m.buffer[i].tiempo] == ToRow(m.buffer[i])
  {
    ReachAppends(s, t);
    FlushRetention(s.rows, Reach(s, t).value.buffer, t.cutoff);
  }

  /**
   * A due flush whose transaction raises changes nothing: the buffer is kept
   * (with this turn's reading), the table is rolled back and the deadline stays
   * passed, so a later turn retries.
   */
  lemma FlushFails(s: LoopState, t: Tick)
    requires ValidTick(t) && Reach(s, t).Some? && t.txFails
    ensures StepSpec(s, t) == Reach(s, t).value
    ensures StepSpec(s, t).rows == s.rows && StepSpec(s, t).counter == s.counter && StepSpec(s, t).deadline == s.deadline
  {
    ReachAppends(s, t);
  }

  /**
   * After a due flush that failed, the next turn that reaches the flush check
   * at a later time flushes again, and with a committing transaction empties
   * the buffer into the total.
   */
  lemma RetryAfterFailure(s: LoopState, t: Tick, t2: Tick)
    requires ValidTick(t) && ValidTick(t2)
    requires Reach(s, t).Some? && t.now >= s.deadline && Reach(s, t).value.buffer != [] && t.txFails
    requires Reach(StepSpec(s, t), t2).Some? && t2.now >= t.now && !t2.txFails
    ensures StepSpec(StepSpec(s, t), t2).buffer == []
    ensures StepSpec(StepSpec(s, t), t2).counter == s.counter + |Reach(StepSpec(s, t), t2).value.buffer|
  {
    var s1 := StepSpec(s, t);
    FlushFails(s, t);
    ReachAppends(s1, t2);
  }

  /** The flush deadline moves only at a committed flush that was due, and then 300 to 600 seconds ahead. */
  lemma DeadlineMoves(s: LoopState, t: Tick)
    requires ValidTick(t)
    ensures StepSpec(s, t).deadline == s.deadline ||
            (s.deadline <= t.now && t.now + 300.0 <= StepSpec(s, t).deadline <= t.now + 600.0)
  {
    if Reach(s, t).Some? {
      ReachAppends(s, t);
    }
  }

  /**
   * One turn: the buffer invariant is kept, the total never decreases, the
   * notified readings only grow, and every reading is accounted for: the total
   * plus the buffer grows by exactly the readings the turn buffered.
   */
  lemma StepInvariants(s: LoopState, t: Tick)
    requires ValidTick(t)
    ensures BufferOk(s.buffer) ==> BufferOk(StepSpec(s, t).buffer)
    ensures StepSpec(s, t).counter >= s.counter
    ensures |StepSpec(s, t).notified| >= |s.notified| && StepSpec(s, t).notified[..|s.notified|] == s.notified
    ensures Accounted(StepSpec(s, t)) ==
      Accounted(s) + (if Reach(s, t).Some? then |Reach(s, t).value.buffer| - |s.buffer| else 0)
  {
    if Reach(s, t).Some? {
      ReachAppends(s, t);
      var m := Reach(s, t).value;
      if t.now >= m.deadline && m.buffer != [] {
        assert StepSpec(s, t).notified[..|s.notified|] == s.notified;
      }
    }
  }

  /**
   * Any run of turns from a state whose buffer is well formed: the buffer stays
   * well formed, the total never decreases, the notified readings only grow, and
   * no reading is lost from the account (at most one is added per turn).
   */
  lemma {:induction false} RunInvariants(s: LoopState, ticks: seq<Tick>)
    requires ValidTicks(ticks) && BufferOk(s.buffer)
    ensures BufferOk(Run(s, ticks).buffer)
    ensures Run(s, ticks).counter >= s.counter
    ensures |Run(s, ticks).notified| >= |s.notified| && Run(s, ticks).notified[..|s.notified|] == s.notified
    ensures Accounted(s) <= Accounted(Run(s, ticks)) <= Accounted(s) + |ticks|
  {
    if ticks != [] {
      var n := |ticks| - 1;
      var before := Run(s, ticks[..n]);
      RunInvariants(s, ticks[..n]);
      StepInvariants(before, ticks[n]);
      if Reach(before, ticks[n]).Some? {
        ReachAppends(before, ticks[n]);
      }
      assert Run(s, ticks).notified[..|before.notified|] == before.notified;
      assert before.notified[..|s.notified|] == s.notified;
    }
  }

  // ----- the recorded flow -----

  /** The board's header line, once stripped, is a header. */
  lemma MarkerIsHeader()
    ensures IsHeader(Strip(Marker()))
  {
    StripPlain(Marker());
    ContainsSelf(Marker());
  }

  /** The reads that give `lines`, one line each. */
  function Reads(lines: seq<string>): seq<ReadResult> {
    seq(|lines|, i requires 0 <= i < |lines| => Line(lines[i]))
  }

  /** Every line is its own `strip()`. */
  predicate AllStripped(lines: seq<string>) {
    forall i :: 0 <= i < |lines| ==> Strip(lines[i]) == lines[i]
  }

  /** A turn that reads the header and then lines that are already stripped reaches the flush check with those lines ingested. */
  lemma HeaderTurn(s: LoopState, t: Tick, lines: seq<string>)
    requires t.isOpen && t.first == Line(Marker()) && t.block == Reads(lines) && AllStripped(lines)
    ensures Reach(s, t) == Some(s.(buffer := Ingest(s.buffer, t.tiempo, lines)))
  {
    MarkerIsHeader();
    ReadBlockLines(t.block);
    assert ReadBlock(t.block).value == lines;
  }

  /** The lines of a board block are their own `strip()`. */
  lemma BoardBlockStripped(tokens: seq<string>)
    requires |tokens| == 5
    ensures AllStripped(BoardBlock(tokens))
  {
    SensorLineStripped("TMP117 Temp", tokens[0], "C");
    SensorLineStripped("BME680 Temp", tokens[1], "C");
    SensorLineStripped("Humedad", tokens[2], "%");
    SensorLineStripped("Presion", tokens[3], "hPa");
    SensorLineStripped("Gas Resistencia", tokens[4], "kOhm");
    StripPlain("");
  }

  /**
   * The recorded full flow: the header and the block `20.0 / 21.0 / 50 / 1000 /
   * 200` read into an empty buffer and flushed into an empty table. The reading
   * is written as the only row, reported as one, notified, and the buffer emptied.
   */
  lemma FullFlowTurn(s: LoopState, t: Tick, tokens: seq<string>, values: seq<real>)
    requires tokens == ["20.0", "21.0", "50", "1000", "200"]
    requires values == [20.0, 21.0, 50.0, 1000.0, 200.0]
    requires s.buffer == [] && s.rows == map[]
    requires ValidTick(t) && t.isOpen && t.first == Line(Marker()) && t.block == Reads(BoardBlock(tokens))
    requires t.now >= s.deadline && !t.txFails && !t.pruneFails && !LexLess(t.tiempo, t.cutoff)
    ensures var d := Reading(t.tiempo, map["TMP117_Temp" := 20.0, "BME680_Temp" := 21.0, "Humedad" := 50.0,
                                            "Presion" := 1000.0, "Gas_Resistencia" := 200.0]);
      StepSpec(s, t) == s.(buffer := [], counter := s.counter + 1, notified := s.notified + [d],
                           deadline := t.now + t.delay as real, rows := map[t.tiempo := ToRow(d)])
  {
    var fields := map["TMP117_Temp" := 20.0, "BME680_Temp" := 21.0, "Humedad" := 50.0,
                      "Presion" := 1000.0, "Gas_Resistencia" := 200.0];
    BoardBlockStripped(tokens);
    FullFlowBlock(tokens, values);
    assert "TMP117_Temp" in fields;
    BlockTurn(s, t, BoardBlock(tokens), fields);
    FirstTurn(s, t, Reading(t.tiempo, fields));
  }

  /** Flushing a single reading into an empty table leaves it as the only row. */
  lemma FirstTurn(s: LoopState, t: Tick, d: Reading)
    requires s.buffer == [] && s.rows == map[] && d.tiempo == t.tiempo && !LexLess(t.tiempo, t.cutoff) && ValidTick(t)
    requires StepSpec(s, t) == s.(buffer := [], counter := s.counter + |s.buffer| + 1, notified := s.notified + [d],
                                  deadline := t.now + t.delay as real,
                                  rows := FlushResult(s.rows, s.buffer + [d], t.cutoff, false, false))
    ensures StepSpec(s, t) == s.(buffer := [], counter := s.counter + 1, notified := s.notified + [d],
                                 deadline := t.now + t.delay as real, rows := map[t.tiempo := ToRow(d)])
  {
    FlushOneReading(d, t.cutoff);
    assert s.buffer + [d] == [d];
  }

  /**
   * A turn that reads the header and an already stripped block parsing to a
   * non-empty map, with the flush due and the database working: the reading is
   * written, counted and notified, and the buffer emptied.
   */
  lemma BlockTurn(s: LoopState, t: Tick, lines: seq<string>, fields: map<string, real>)
    requires ValidTick(t) && t.isOpen && t.first == Line(Marker()) && t.block == Reads(lines) && AllStripped(lines)
    requires ParseBlock(lines) == fields && fields != map[]
    requires t.now >= s.deadline && !t.txFails && !t.pruneFails && !LexLess(t.tiempo, t.cutoff)
    ensures var d := Reading(t.tiempo, fields);
      StepSpec(s, t) == s.(buffer := [], counter := s.counter + |s.buffer| + 1, notified := s.notified + [d],
                           deadline := t.now + t.delay as real,
                           rows := FlushResult(s.rows, s.buffer + [d], t.cutoff, false, false)) &&
      t.tiempo in StepSpec(s, t).rows && StepSpec(s, t).rows[t.tiempo] == ToRow(d)
  {
    var d := Reading(t.tiempo, fields);
    BlockReach(s, t, lines, fields);
    BlockFlush(s, t, d);
    FlushRetention(s.rows, s.buffer + [d], t.cutoff);
    assert LastReading(s.buffer + [d], |s.buffer|);
  }

  /** A turn that appends `d` and finds the flush due and the transaction committing writes the whole buffer. */
  lemma BlockFlush(s: LoopState, t: Tick, d: Reading)
    requires ValidTick(t) && Reach(s, t) == Some(s.(buffer := s.buffer + [d]))
    requires t.now >= s.deadline && !t.txFails && !t.pruneFails
    ensures StepSpec(s, t) == s.(buffer := [], counter := s.counter + |s.buffer| + 1, notified := s.notified + [d],
                                 deadline := t.now + t.delay as real,
                                 rows := FlushResult(s.rows, s.buffer + [d], t.cutoff, false, false))
  {
    var m := s.(buffer := s.buffer + [d]);
    StepReached(s, t);
    DueFlush(m, t);
    assert m.buffer[|m.buffer| - 1] == d;
  }

  /** A header and an already stripped block that parses reach the flush check with the reading appended. */
  lemma BlockReach(s: LoopState, t: Tick, lines: seq<string>, fields: map<string, real>)
    requires t.isOpen && t.first == Line(Marker()) && t.block == Reads(lines) && AllStripped(lines)
    requires ParseBlock(lines) == fields && fields != map[]
    ensures Reach(s, t) == Some(s.(buffer := s.buffer + [Reading(t.tiempo, fields)]))
  {
    HeaderTurn(s, t, lines);
    ParseBlockEmpty(lines);
    IngestSpec(s.buffer, t.tiempo, lines);
  }

  /** A turn that reaches the flush check ends with it. */
  lemma StepReached(s: LoopState, t: Tick)
    requires ValidTick(t) && Reach(s, t).Some?
    ensures StepSpec(s, t) == FlushCheck(Reach(s, t).value, t)
  {
  }

  /** A due flush of a non-empty buffer whose transaction commits. */
  lemma DueFlush(m: LoopState, t: Tick)
    requires t.now >= m.deadline && m.buffer != [] && !t.txFails
    ensures FlushCheck(m, t) == m.(buffer := [], counter := m.counter + |m.buffer|,
                                   notified := m.notified + [m.buffer[|m.buffer| - 1]],
                                   deadline := t.now + t.delay as real,
                                   rows := FlushResult(m.rows, m.buffer, t.cutoff, false, t.pruneFails))
  {
  }
}
