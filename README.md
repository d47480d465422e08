# sensor_app acquisition core, in Dafny

`server.py` of sensor_app reads blocks of sensor lines from an Arduino over a
serial port, turns each block into a timestamped reading, buffers the readings
and, every five to ten minutes, writes the buffer to the SQLite table
`lecturas` (one row per `Tiempo`, upserted), prunes rows older than a week and
notifies the last reading. This project models that pipeline and proves what it
promises.

| file | module | models |
|---|---|---|
| `wrappers.dfy` | `Wrappers` | `Option`, and `dict.get` on a map |
| `text.dfy` | `Text` | `str.strip()`, `split(" ")[0]`, `split(":", 1)`, the substring test `p in s`, SQLite's BINARY order on TEXT |
| `numbers.dfy` | `Numbers` | `float(token)` on the decimal grammar (sign, digits, one point) |
| `parser.dfy` | `Parser` | `parse_sensor_block`: a fold of the lines into a map, and the loop that computes it |
| `store.dfy` | `Store` | `flush_db` and `safe_execute`: rows, upsert, prune, and a `Database` class whose table the methods change in place |
| `serial.dfy` | `Serial` | `detectar_puerto_arduino` and the retry loop of `conectar_serial` |
| `acquisition.dfy` | `Acquisition` | the loop of `main()`: buffer, `contador_total`, `proximo_flush_db`, the notified readings, the connection |

Everything a turn of the loop learns from outside is an input (`Tick`): whether
the port is open, each `readline()` (text, or a `SerialException`), the clock,
the UTC `Tiempo` string, the pruning cutoff `datetime('now','-7 days')`,
whether the upsert transaction or the DELETE raises, the `randint` delay and the
connection `conectar_serial()` returns. `Acquisition.StepSpec` is one turn as a
function of the state and the tick. The class `Acquisition.Acquisition` holds
the loop's variables and the `Database`, and its `Step` method is proved to move
its state exactly as `StepSpec` says. The lemmas about `StepSpec` and `Run` then
state what the loop guarantees.

The running total `contador_total` counts the readings that `flush_db` reports
written (`len(buffer)`), not the rows in the table. Two readings with the same
`Tiempo` count twice but leave one row (`Store.FlushCountsReadings`), and pruned
rows are never subtracted. The model keeps this behaviour.

## Model

| member | source | states |
|---|---|---|
| Text.StripStartSpec | server.py:115 | leading-whitespace removal keeps a suffix, removes only whitespace, and leaves no whitespace at the front |
| Text.StripEndSpec | server.py:115 | trailing-whitespace removal keeps a prefix, removes only whitespace, and leaves no whitespace at the end |
| Text.StripPlain | server.py:288 | a line that neither starts nor ends with whitespace is its own `strip()` |
| Text.FirstToken | server.py:115 | `split(" ")[0]` is a prefix with no space, followed by a space or the end of the text |
| Text.IndexOf | server.py:112 | the first position of a character: absent exactly when the character is not in the text, else the first occurrence |
| Text.SplitFirstRoundTrip | server.py:112-114 | `split(":", 1)` fails exactly when there is no `:`; otherwise key + `:` + rest rebuilds the line and the key holds no `:` |
| Text.SplitAt | server.py:114 | splitting `key + ":" + rest` on its first `:` gives back key and rest when the key has no `:` |
| Text.ContainsChars | server.py:120-128 | when `p in s`, every character of `p` occurs in `s` |
| Text.LexLessTransitive | server.py:155 | `Tiempo < cutoff` on TEXT is transitive |
| Numbers.ParseDecimal | server.py:116-119 | `float(val)` succeeds only on a non-empty token made of digits, signs and points |
| Numbers.DigitsRoundTrip | server.py:117 | reading back the decimal digits of a natural number gives the number |
| Numbers.ParseDecimalRoundTrip | server.py:117 | `float(str(n)) == n` and `float("-" + str(n)) == -n` for every natural `n` |
| Numbers.DecimalToken | server.py:116-119 | the tokens `<whole>.<frac>`, `+<whole>.<frac>` and `-<whole>.<frac>` are the number `whole + frac / 10^len(frac)`, itself and negated |
| Numbers.Signed | server.py:117 | a leading `+` keeps the value of an unsigned token and a leading `-` negates it |
| Numbers.BelowZero | server.py:116-119 | a below-zero reading such as `-3.5` is read as -3.5 |
| Numbers.ParseDecimalRejects | server.py:116-119 | an empty token, or one starting with something other than a sign, digit or point, raises `ValueError` |
| Parser.FirstRule | server.py:120-129 | reference definition of the tag tests: the column of the first rule whose pattern occurs in the key, or none when no pattern occurs |
| Parser.ColumnForIsFirstRule | server.py:120-129 | the `if`/`elif` chain tries TMP117 Temp, BME680 Temp, Humedad, Presion/Presión, Gas Resistencia in that order, first match wins |
| Parser.SixRules | server.py:120-129 | trying six rules in order is the chain of six tests |
| Parser.ColumnForIsSensorColumn | server.py:120-129 | a matched tag always names one of the five sensor columns |
| Parser.ParseSensorBlock | server.py:108-130 | the loop over the lines returns exactly the fold `ParseBlock` of their contributions |
| Parser.ParseLineSkips | server.py:111-129 | a line is skipped when it has no `:`, when its token is not a number, or when its key matches no tag; otherwise it fills the tag's column with the number |
| Parser.SplitAtLabel | server.py:114 | the key of `key + ":" + rest` is `key` and the value text is `rest`, when the key has no `:` |
| Parser.ParseLineColumn | server.py:120-129 | a recognised line fills a sensor column |
| Parser.CollectConcat | server.py:111-129 | folding two runs of contributions is the first map overridden by the second |
| Parser.CollectLastWins | server.py:111-129 | a column is set exactly when some contribution sets it, and holds the value of the last such contribution |
| Parser.CollectEmpty | server.py:110-130 | the fold is empty exactly when every contribution is a skip |
| Parser.ParseBlockKeys | server.py:110-130 | the parse of a block only has the five sensor columns as keys |
| Parser.ParseBlockConcat | server.py:111-130 | parsing two runs of lines is the first map overridden by the second |
| Parser.ParseBlockLastWins | server.py:111-129 | a column is filled exactly when some line fills it, with the value of the last line that does |
| Parser.ParseBlockEmpty | server.py:110-130 | the parse of a block is empty exactly when every line is skipped |
| Parser.TaggedLine | server.py:114-129 | `<key>: <token> <unit>` with a tagged key and a numeric token without whitespace fills the tag's column with the token's number |
| Parser.WellFormedLine | server.py:114-129 | `<key>: <n> <unit>` with a tagged key fills the tag's column with `n` |
| Parser.ValueToken | server.py:115 | the token read from ` <token> <unit>` is the token, when it holds no whitespace |
| Parser.StripEndKeepsPrefix | server.py:115 | right-stripping `d + tail` keeps `d` whole when `d` ends in a visible character |
| Parser.FirstTokenOf | server.py:115 | the first token of a text that starts with a space-free `d` followed by a space or the end is `d` |
| Parser.ParseNoise | tests/test_parser.py:33-35 | `["foo", "bar"]` and the empty block both parse to the empty map |
| Parser.NumeralToken | server.py:115-117 | a token `float()` accepts is non-empty and holds no whitespace, so it survives `split(" ")[0]` |
| Parser.BoardBlockParses | server.py:108-130 | the board's six-line block (five tagged lines and an empty one) parses to the five columns holding the five tokens' numbers |
| Parser.RecordedBlock | tests/test_parser.py:14-30 | the recorded six-line block parses to the five expected values |
| Parser.FullFlowBlock | tests/test_integration.py:90-99 | the full-flow block `20.0 / 21.0 / 50 / 1000 / 200` parses to those five values |
| Parser.SixLines | server.py:111-129 | the parse of six lines is the fold of the six line parses |
| Parser.SensorLineStripped | server.py:288 | a sensor line starting and ending with visible characters is its own `strip()` |
| Store.ToRowColumns | server.py:148 | each column of a row is the reading's field, or NULL when the field is missing |
| Store.RowRoundTrip | server.py:148 | a reading whose keys are sensor columns is recovered from its row |
| Store.RowFromRowRoundTrip | server.py:148 | a row is recovered from the reading it holds |
| Store.UpsertAllOverride | server.py:150-151 | upserting rows into a table is the table overridden by the upserts alone |
| Store.UpsertAllLastWins | server.py:151 | after `INSERT OR REPLACE` of the rows in order, a key is present exactly when it was or some row has it, and holds the last such row; other rows are untouched |
| Store.UpsertAllCount | server.py:151 | the upserts add at most one row each, and exactly one each when their keys are distinct and new |
| Store.UpsertSameKey | server.py:151 | two upserts with the same new key add one row |
| Store.PruneIdempotent | server.py:155 | deleting with the same cutoff twice deletes nothing more |
| Store.PruneOverride | server.py:155 | deleting from a table overridden by another deletes from each |
| Store.PruneLaterCutoff | server.py:155 | after a later cutoff, an earlier one deletes nothing more |
| Store.FlushIdempotent | server.py:146-157 | flushing the same buffer twice leaves the table as flushing it once |
| Store.FlushRetention | server.py:146-157 | after a flush whose DELETE ran, no row is older than the cutoff and each buffered reading not older than it is stored as its `Tiempo`'s last reading |
| Store.FlushCountsReadings | server.py:148-157 | `flush_db` reports `len(buffer)`: two readings with one `Tiempo` are reported as 2 but add one row |
| Store.FlushInsertsDistinct | server.py:148-151 | readings with distinct, new `Tiempo` values add exactly one row each |
| Store.FlushOverwrites | server.py:151 | a reading whose `Tiempo` is stored replaces that row; the row count is unchanged |
| Store.FlushOneReading | tests/test_db.py:20-39 | one reading, not older than the cutoff, flushed into an empty table: reported as 1 and stored as the only row |
| Store.Database.PruneOlderThan | server.py:133-143 | `safe_execute` of the DELETE returns true and prunes, or, when the statement raises, returns false and deletes nothing |
| Store.Database.Flush | server.py:146-157 | returns `len(buffer)`, or 0 when the transaction raises; the table becomes the upserted and pruned table, rolled back on a raise, not pruned when the DELETE fails |
| Serial.FirstArduino | server.py:163-168 | the device of the first port with vid 0x2341 and pid 0x1002, or none when no port has them |
| Serial.DetectArduino | server.py:163-168 | the scan over the ports returns the first board's device, or none |
| Serial.FirstSuccess | server.py:171-184 | the first turn of the retry loop that finds a named board and opens it, with every earlier turn failing |
| Serial.FirstSuccessAt | server.py:171-184 | a turn that connects after turns that do not is the first success |
| Serial.ConnectSerial | server.py:171-184 | returns a connection exactly when some turn connects: the board's device at 115200 baud with timeout 2, from the first such turn, after five seconds of sleep per earlier turn |
| Serial.NoPortsNoBoard | tests/test_serial.py:32-34 | with no ports listed no board is detected |
| Serial.Established | server.py:171-184 | the connection a successful retry loop opens is an Arduino port's device, at 115200 baud with timeout 2 |
| Serial.ReconnectAfterOpenFailure | tests/test_integration.py:67-85 | a board whose first open raises and second succeeds yields the second handle |
| Acquisition.Initial | server.py:252-257 | the loop starts with an empty buffer, the table's row count, and a deadline 300 to 600 seconds after the start |
| Acquisition.Acquisition.constructor | server.py:249-257 | the set-up before the loop opens the connection `conectar_serial()` establishes and is the initial state |
| Acquisition.Acquisition.Reconnect | server.py:263-273 | a reconnection replaces the port by the connection `conectar_serial()` establishes and changes nothing else |
| Acquisition.ReadSensorLines | server.py:286-295 | the six block reads yield the stripped lines exactly as `ReadBlock` says, or nothing once a read raises |
| Acquisition.LostStaysLost | server.py:286-295 | once a block read raises, the block is lost whatever follows |
| Acquisition.ReadBlockLines | server.py:286-298 | the block is read exactly when no read raised, and then holds the stripped texts in order |
| Acquisition.Acquisition.ReadTurn | server.py:263-302 | the reading part of a turn moves the state as `Reach` says, or only replaces the connection when the turn restarts |
| Acquisition.Acquisition.FlushIfDue | server.py:304-320 | the flush check moves the state as `FlushCheck` says |
| Acquisition.Acquisition.Step | server.py:262-322 | one turn of `while True` moves the state as `StepSpec` says |
| Acquisition.IngestSpec | server.py:300-302 | a complete block is buffered exactly when one of its lines parses, stamped with the turn's `Tiempo`, and buffered readings always hold a sensor field and only sensor columns |
| Acquisition.ReachAppends | server.py:263-302 | reaching the flush check appends at most one reading and changes nothing else |
| Acquisition.StepReconnects | server.py:263-298 | a closed port, a first read that raises, or a block read that raises only replaces the connection, by the one `conectar_serial()` establishes at 115200 baud and timeout 2: the block is discarded and the flush check skipped |
| Acquisition.NoFlushUntilDue | server.py:306 | before the deadline, or with an empty buffer, nothing is written, counted or notified and the deadline stays |
| Acquisition.FlushSucceeds | server.py:306-320 | a due flush that commits adds the buffer's length to the total, notifies the last reading, empties the buffer, sets the deadline 300 to 600 seconds ahead, and, when the DELETE ran, stores under each `Tiempo` not older than the cutoff the last buffered reading with that `Tiempo` |
| Acquisition.FlushFails | server.py:309-311 | a flush whose transaction raises leaves the table, the total, the deadline and the buffer as they were |
| Acquisition.RetryAfterFailure | server.py:304-320 | after a failed due flush, the next turn that reaches the check at a later time flushes again and empties the buffer into the total |
| Acquisition.DeadlineMoves | server.py:318-320 | the deadline moves only at a committed flush that was due, to 300 to 600 seconds after the current time |
| Acquisition.StepInvariants | server.py:262-322 | one turn keeps the buffer invariant, never lowers the total, only appends to the notified readings, and the total plus the buffer grows by exactly the readings buffered |
| Acquisition.RunInvariants | server.py:262-322 | over any run of turns the buffer stays well formed, the total never decreases, notified readings are only appended, and no buffered reading is lost from the account |
| Acquisition.MarkerIsHeader | server.py:276 | the board's header line is recognised as a header |
| Acquisition.HeaderTurn | server.py:276-302 | a header followed by six stripped lines reaches the flush check with those lines ingested |
| Acquisition.BoardBlockStripped | server.py:288 | the board's six lines are their own `strip()` |
| Acquisition.BlockReach | server.py:276-302 | a header and a stripped block that parses reach the flush check with the reading appended |
| Acquisition.BlockFlush | server.py:304-320 | a turn that appends a reading and finds the flush due and committing ends with the buffer written, counted, the reading notified, the buffer empty and the deadline moved |
| Acquisition.BlockTurn | server.py:276-320 | a header and a block that parses, with the flush due and the database working, end in exactly the state after the flush, with the reading stored under its `Tiempo` |
| Acquisition.FirstTurn | server.py:306-320 | flushing a single reading into an empty table leaves it as the only row, counted once |
| Acquisition.FullFlowTurn | tests/test_integration.py:88-130 | the header and the full-flow block `20.0 / 21.0 / 50 / 1000 / 200`, flushed into an empty table: the reading is the only row, counted once, notified, and the buffer emptied |

## Left out

- Notification (`enviar_notificacion`, server.py:194-243): the HTTP POST, the message formatting and the time-zone rendering are not modelled; a notification is the reading appended to `notified`.
- Environment loading, the fatal exit on missing credentials, and logging (server.py:33-77): process set-up with no bearing on the pipeline.
- `conectar_db` (server.py:83-102): the pragmas and the DDL are not modelled; the table is a map keyed by its primary key `Tiempo`, starting from whatever it holds.
- Clocks, time zones, `random.randint` and `time.sleep`: the current time, the UTC `Tiempo` string, the cutoff `datetime('now','-7 days')` and the delay are inputs. The delay is constrained to 300..600.
- Serial driver I/O: bytes, `decode(errors="ignore")`, `reset_input_buffer()` and the timeout switch between 1 and 2 seconds (server.py:283, 296) are not modelled; a read is decoded text or a raised `SerialException`.
- `wal_checkpoint`, imported by the tests, is not part of this model: `server.py` does not define it.
- The `KeyboardInterrupt`/`finally` clean-up (server.py:324-331) and the one-second sleep per turn are not modelled.
- Numbers.ParseDecimal: models `float()` only on signed decimals (`12`, `-1.5`, `.5`, `3.`); Python also accepts exponents, `inf`, `nan`, underscores between digits, surrounding non-space whitespace and non-ASCII decimal digits (Arabic-Indic, full-width and the other Unicode `Nd` digits), which the model rejects, and the value is an exact real rather than an IEEE double.
- Acquisition.ValidTick: a turn whose `conectar_serial()` never returns (no board ever found or opened) blocks the loop forever; the model only admits turns whose reconnection attempts end in a connection, so such a turn is not modelled.
- Serial.ConnectSerial: the source retries forever; the model runs over a finite list of turns and returns nothing when none of them connects, where the source would still be retrying.
- Store.Database.Flush: the failures of the upsert transaction and of the DELETE are inputs rather than the SQLite errors that raise them; a failure part-way through the upserts rolls back all of them, as `with conn:` does. The final `conn.commit()` (server.py:156) is outside any `try`: if it raises, the exception leaves `flush_db` and ends `main()`, which catches only `KeyboardInterrupt`; the model has no such input and always returns `len(buffer)` once the transaction commits.
- The connection's handle identity is a number taken from the attempt that opened it; `is_open` is an input of each turn rather than a field the model closes, and `ser.close()` is not modelled.
