# Forza dashboard telemetry listener, in Dafny

This project models the telemetry pipeline of the Forza dashboard server
(`app/main.py`): the UDP listener that reads the game's "Data Out" datagrams,
decodes fixed-offset little-endian fields, saves a lap record when a new best
lap appears, and sends a snapshot to every connected websocket client.

- `wire.dfy` (module `Wire`): bytes, little-endian integers, and the five
  `struct.unpack_from` formats the listener uses (`<B`, `<b`, `<h`, `<i`, `<f`).
  A read that would run past the end of the buffer is `struct.error`.
- `floats.dfy` (`Floats`): a `<f` field kept as its raw binary32 word. The
  listener's logic depends on three things about a float: its Python
  truthiness, `==`/`!=`, and whether `round` raises on it (it does on NaN and
  on infinity). All three are decided by the bit pattern: NaN equals nothing,
  +0.0 equals -0.0, and a word is finite unless its exponent bits are all set.
- `telemetry.dfy` (`Telemetry`): `Decode` makes the thirteen reads in the order
  the listener makes them. `Encode` writes a reading back at the same offsets.
- `cars.dfy` (`Cars`): `buscar_carro` and `corridaStatus`.
- `message.dfy` (`Message`): the throttle and brake percentages, and the
  snapshot handed to `json.dumps`.
- `bestlap.dfy` (`BestLap`): the one-variable de-duplication policy on
  `bestlapOLD`.
- `lapstore.dfy` (`LapStore`): the `SessoesJogo` table as an append-only
  sequence. Its unique constraint is on `(Tempo_volta, Nome_carro)`.
- `registry.dfy` (`Registry`): `list.remove` on the client list, and the
  broadcast loop.
- `listener.dfy` (`Listener`): `Process`, a pure function, gives one loop
  iteration's effect on the whole state. The class `UdpListener` holds that
  state and changes it in place. Its `Step`, `Run`, `Connect`, `Disconnect`
  and `SaveLap` methods are proved to match `Process`, `RunAll`, list append,
  `RemoveFirst` and `Insert`.

Four points of the code's behaviour that the model keeps as written:

- A datagram of 228 to 308 bytes passes the runt check (`len(data) < 228`)
  but cannot be decoded. The furthest read is `steer` at offset 308, so
  `struct.error` drops the packet. Decoding succeeds exactly when the
  datagram has at least 309 bytes.
- A `send_text` that raises does not only skip that client. Its exception is
  not `struct.error`, so it escapes the `while True` loop, and the listening
  task ends. The model records this as `running` becoming false. After that,
  every datagram gives `Stopped`. Clients before the failing one have already
  received the message; clients after it have not.
- `bestlapOLD` is a single value for all cars, not one per car.
- A NaN or infinite fuel word makes `round(fuel / 1 * 100)` raise
  `ValueError` or `OverflowError` while the message is built. That is not
  `struct.error` either, so the task ends there. The lap has already been
  saved and `bestlapOLD` updated, and no client receives anything. The model
  records this as the outcome `MessageFailed`, with `running` becoming false.

## Model

| member | source | states |
|---|---|---|
| Wire.UnpackFrom | app/main.py:170-183 | a read succeeds exactly when offset plus the format's size fits in the buffer, and its value lies in the format's range |
| Wire.UnpackPack | app/main.py:170-183 | bytes packed in a format read back, at any offset, as the value packed |
| Wire.PackUnpack | app/main.py:170-183 | packing a value that was read gives back exactly the bytes it was read from |
| Telemetry.Decode | app/main.py:168-184 | decoding succeeds exactly when the datagram has at least 309 bytes, and every integer field is then in its format's range |
| Telemetry.DecodeEncode | app/main.py:170-183 | writing any well-formed reading at the documented offsets into any buffer of 309 or more bytes, then decoding, gives the reading back |
| Telemetry.EncodeDecode | app/main.py:170-183 | writing a decoded reading back over its own datagram leaves every byte as it was |
| Cars.CarName | app/main.py:105-127 | the name is never empty; each of the thirteen listed ids gets its listed name, and every other id gets "Carro Desconhecido" |
| Cars.UnknownIffUnlisted | app/main.py:105-127 | the sentinel is returned exactly for the ids the table does not list |
| Cars.RaceStatus | app/main.py:132-138 | the race is on exactly when isRaceOn is nonzero |
| Message.Percent | app/main.py:204-205 | the result lies in 0..100 and is within one half of 20*raw/51 |
| Message.PercentIsNearest | app/main.py:204-205 | no other integer is that close to 20*raw/51, so the result is the value that round() gives |
| Message.PercentEnds | app/main.py:204-205 | raw 0 gives 0 and raw 255 gives 100 |
| Message.PercentMonotone | app/main.py:204-205 | a larger raw byte never gives a smaller percentage |
| Message.MakeSnapshot | app/main.py:200-214 | a message is built exactly when the fuel word is finite (`round` raises on NaN and infinity); it then holds Percent of throttle and of brake, both in 0..100, and carries gear, steer, race position, lap number, car name, race status and the rpm, speed, boost, best-lap and fuel words unchanged |
| Floats.EqualNonzero | app/main.py:195 | against a nonzero best lap, Python float equality (the predicate `Floats.Equal`) is bit-pattern equality, with NaN excluded |
| Floats.EqualEquivalence | app/main.py:195 | float `==` (`Floats.Equal`) is symmetric and transitive, and reflexive exactly off NaN |
| Floats.Classification | app/main.py:211 | a word is finite exactly when it is neither infinite nor NaN, and no word is both |
| BestLap.Remember | app/main.py:187-197 | the remembered best lap is either a nonzero value or the one remembered before |
| BestLap.RememberEligible | app/main.py:187-197 | after any eligible reading, saved or not, the remembered value is that reading's best lap |
| BestLap.Blocks | app/main.py:194-197 | definition: the number of maximal runs of consecutive `==`-equal best laps, the reference that SaveAttemptsCountBlocks compares the save count with; its own contract is only the bound 1..length for a nonempty sequence |
| BestLap.ThreeBlocks | app/main.py:194-197 | the best laps 10.5, 10.5, 9.8, 9.8, 9.8, 9.799 form three blocks |
| LapStore.Insert | app/models.py:56-58 | a record whose (lap time, car) key is already present is refused and the table is left unchanged; otherwise the record is appended. Existing rows never change, key uniqueness is preserved, and afterwards the key is present (for a non-NaN lap time) |
| LapStore.InsertTwice | app/models.py:56-58 | inserting the same record a second time is refused as a duplicate |
| Registry.RemoveFirst | app/main.py:69 | removing a present client drops its first occurrence and keeps the others in order; an absent client leaves the list unchanged |
| Registry.RemoveFirstCount | app/main.py:69 | removing a present client takes exactly one copy of it out of the list |
| Registry.Reached | app/main.py:217-218 | the clients reached are a prefix of the list, none of them failing; the client right after that prefix, if any, is failing |
| Registry.FirstFailure | app/main.py:217-220 | there is a failed client exactly when some listed client fails; that client is failing and is the one right after the clients reached |
| Registry.Deliveries | app/main.py:217-218 | there is one delivery per reached client, in order, each with the same message |
| Registry.Broadcast | app/main.py:216-218 | the loop sends the message to the clients in list order and stops at the first failing send, reporting that client |
| Listener.Process | app/main.py:155-221 | an iteration never changes the client list; it gets past decoding (to a sent message or a failed one) exactly when the task is running and the datagram has at least 309 bytes |
| Listener.StoppedInert | app/main.py:155-221 | once the task has ended (after a failing send or a failed message), a datagram leaves the state unchanged and gives Stopped |
| Listener.RuntIgnored | app/main.py:159-162 | a datagram shorter than 228 bytes leaves the remembered best lap, the table and the clients unchanged, and nothing is sent |
| Listener.ShortFrameDropped | app/main.py:168-184 | a datagram of 228 to 308 bytes fails to decode and changes nothing |
| Listener.SaveDecision | app/main.py:187-197 | the save test (`BestLap.ShouldSave`, lines 186 and 194): a decoded datagram is saved exactly when its best lap and lap number are nonzero and its best lap is not equal to the remembered one (always, while nothing is remembered). Afterwards the remembered value is its best lap if it was eligible, and unchanged otherwise. A save is the insert of (car name, best lap, lap number) and its result; without one the table is unchanged |
| Listener.ProcessKeepsInv | app/main.py:90-102 | table keys stay unique, existing rows stay unchanged, and only nonzero best laps are remembered |
| Listener.BroadcastOrder | app/main.py:199-221 | a message is sent exactly when the fuel word is finite, and it is MakeSnapshot of the reading; it goes unchanged to the clients in list order up to the first failing send, exactly the deliveries to the reached clients, and the failure reported is FirstFailure, the first failing client; the task survives exactly when the fuel word is finite and no client fails |
| Listener.CleanStep | app/main.py:186-218 | an eligible datagram with a finite fuel word and no failing client is sent in full, keeps the task running, is remembered, and is saved exactly when nothing was remembered or the remembered lap is not equal to it |
| Listener.GarbageThenValid | app/main.py:155-221 | after a runt or undecodable datagram, the next valid datagram is processed as if it had come first |
| Listener.RunAll | app/main.py:155-221 | definition: Process applied to each datagram in turn, with that datagram's own set of failing clients; its contract only fixes the outcome count and the client list |
| Listener.SaveAttemptsCountBlocks | app/main.py:150-221 | from a fresh start, over eligible datagrams with finite fuel words whose sends all succeed, the number of save attempts equals the number of blocks of consecutive equal best laps; the task keeps running and remembers the last best lap |
| Listener.UdpListener.constructor | app/main.py:150 | the task starts with no remembered best lap, over the table the database already holds, with no clients |
| Listener.UdpListener.Connect | app/main.py:61 | the client is appended at the end; nothing else changes |
| Listener.UdpListener.Disconnect | app/main.py:67-69 | the first occurrence of the client is removed; found is false exactly when Python would raise ValueError |
| Listener.UdpListener.SaveLap | app/main.py:90-102 | the table becomes the result of the insert; a refused insert is reported, never raised |
| Listener.UdpListener.Step | app/main.py:155-221 | the new state and the outcome are exactly those of Process |
| Listener.UdpListener.Run | app/main.py:155-221 | the final state and the outcomes are exactly those of RunAll, with one set of failing clients per datagram |

## Left out

- Socket creation, bind and its failure, `recvfrom`, and the
  `BlockingIOError`/`asyncio.sleep` polling (app/main.py:146-166) are left
  out. They are operating-system I/O and scheduling. A datagram is a
  parameter of `Step`.
- The websocket keep-alive loop (app/main.py:63-66) is left out. It only
  waits. Its effects on the client list are `Connect` and `Disconnect`.
- Concurrency is left out. Each broadcast walks the client list as it stood
  when the datagram arrived. In Python, `for client in clients` walks the
  live list. A client appended during an `await client.send_text` is reached
  by that same broadcast. A client removed during it shifts the later
  clients one place forward: if it was at or before the client being sent
  to, the loop skips the client right after that one; if it came later, only
  the removed client is missed. The model captures neither.
- Message.MakeSnapshot: the float-derived values (km/h speed, boost / 14.504,
  the best lap rounded to 2 decimals, the fuel percentage) are not computed.
  The message carries the raw binary32 words they come from, because IEEE-754
  arithmetic is not modelled.
- Message.Percent: the integer result is proved for the exact quotient
  20*raw/51. Python computes raw/255*100 in double precision. Its error is far
  smaller than 1/102, the smallest distance from 20*raw/51 to a half-integer,
  so the result is the same. That argument about doubles is not proved.
- JSON serialisation (`json.dumps`) is left out. The message is the
  `Snapshot` value itself.
- Which clients fail to receive is a parameter: one set per datagram
  (`failing[i]` in `RunAll` and `Run`). It stands for whatever makes
  `send_text` raise.
- SQLAlchemy sessions, the engine, `get_db` and the `/historico` best-per-car
  query are left out. Only the append and the unique constraint are
  modelled. A database error other than the unique constraint is not
  modelled; `salvarDB` would log it the same way.
- The browser opening at startup, authentication, the HTML routes, schemas
  and the JavaScript files are left out. They are not part of the telemetry
  pipeline.
