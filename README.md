# ClockServer model

A Dafny model of the clock server in clockkit (`ClockKit/ClockServer.cpp`).
The server answers time probes from clients and keeps diagnostic
bookkeeping about them. A received datagram is first checked by three
guards: a valid clock reading, a valid receive status and the fixed packet
length. Every REQUEST that passes the guards gets an immediate REPLY
stamped with the server's clock reading. Every ACKNOWLEDGE that passes them
hands the client's measured offset and round-trip time to `updateEntry`.
When `log_` is set, that function keeps the latest sample per client
address in `ackData_`; when it is not set, the function does nothing. At
most every 500 ms it purges samples older than 1.5 s and recomputes
`offsetMax`. `offsetMax` is the largest of 0 and every surviving sample's
`|offset| + rtt/2`, or the `usecInvalid` sentinel if any of them is
invalid. An empty table therefore gives 0. A KILL packet that passes the
guards ends the loop.

Files and modules:

- `clock_time.dfy`, module `ClockTime`: microsecond timestamps and durations
  with their invalid sentinels as tags, the 500 ms and 1500 ms constants,
  and C++'s truncating division by two.
- `sync_table.dfy`, module `SyncTable`: the entry table and what
  `updateEntry` does to it. `Record` is the pure specification of the
  bookkeeping update. `Purge` models the `erase_if` filter. `OffsetMaxOf` is
  an order-independent definition of the aggregate. `ComputeOffsetMax` is the
  aggregate loop with its early `break`.
- `clock_server.dfy`, module `ClockKit`: decoded packets and received events.
  `Dispatch` is the pure specification of one loop iteration and `Serve`
  folds it over a sequence of events. The class `ClockServer` holds the
  fields the source mutates (`log_`, `ackData_`, `tRecalculated_`) and a
  `Serving`/`Stopped` phase. Its methods `UpdateEntry`, `Step` and `Run` are
  proved against `Record`, `Dispatch` and `Serve`.

Time is integer microseconds, so `500ms` is 500000 and `1500ms` is 1500000.
The socket is replaced by a sequence of `Event`s. Each event holds what
`socket.recv` returned (byte count, status, sender address, decoded packet)
and the clock reading taken right after it. What the loop would send or
print becomes an `Outcome` value: the reply and its destination, the
`offsetMax` report, or which guard skipped the event.

## Model

| member | source | states |
|---|---|---|
| ClockTime.Abs | ClockKit/ClockServer.cpp:120 | the magnitude of the offset: non-negative and equal to the offset or its negation |
| ClockTime.HalfTowardZero | ClockKit/ClockServer.cpp:120 | `rtt / 2` on int64 truncates toward zero: twice the result's magnitude is within one of the argument's magnitude, and the sign is kept |
| SyncTable.Purge | ClockKit/ClockServer.cpp:104-109 | the purge keeps exactly the entries whose time is not before `now - 1500ms`, with their values unchanged |
| SyncTable.OffsetMaxOf | ClockKit/ClockServer.cpp:111-121 | offsetMax is usecInvalid iff some entry has an invalid offset or rtt; otherwise it is at least 0, at least every entry's `abs(offset) + rtt/2`, and equal to 0 or one of those candidates |
| SyncTable.OffsetMaxUnique | ClockKit/ClockServer.cpp:111-121 | those conditions determine offsetMax uniquely, so the map's iteration order does not matter |
| SyncTable.InvalidDominates | ClockKit/ClockServer.cpp:112-118 | one entry with an invalid offset or rtt makes offsetMax usecInvalid whatever the other entries hold |
| SyncTable.OffsetMaxExample | ClockKit/ClockServer.cpp:112-121 | entries {offset 100, rtt 40} and {offset -300, rtt 20} give offsetMax 310 |
| SyncTable.ComputeOffsetMax | ClockKit/ClockServer.cpp:111-121 | the aggregate loop with its early break returns exactly offsetMax as characterised above |
| SyncTable.Record | ClockKit/ClockServer.cpp:79-109 | with `log_` false nothing changes; otherwise the sender's entry becomes `Entry(now, offset, rtt)` and no other entry changes value; within 500 ms of the last recompute the keys grow only by the sender and `tRecalculated_` is kept; otherwise `tRecalculated_` becomes `now`, no surviving entry is older than `now - 1500ms`, and every entry at least that recent is kept |
| SyncTable.LatestWins | ClockKit/ClockServer.cpp:98 | two updates for one address leave only the second sample |
| SyncTable.AtMostOneRecompute | ClockKit/ClockServer.cpp:100-102 | of two updates less than 500 ms apart, at most one purges and recomputes |
| ClockKit.Dispatch | ClockKit/ClockServer.cpp:33-73 | an invalid clock reading is reported first and changes nothing; a bad status or wrong length changes nothing and sends no reply; a REQUEST yields one REPLY to the sender with server reply time `now` and the other fields of the request, leaving the state unchanged; an ACKNOWLEDGE applies `Record` and reports its offsetMax; only a KILL stops the server; any other type is ignored |
| ClockKit.Serve | ClockKit/ClockServer.cpp:31-74 | the loop ends Stopped iff some event is an accepted KILL; while Serving, every event yields one outcome |
| ClockKit.NothingAfterKill | ClockKit/ClockServer.cpp:69-70 | events after the first accepted KILL are never processed; the KILL's outcome is the last one and the server is Stopped |
| ClockKit.RejectedKeepServing | ClockKit/ClockServer.cpp:34-47 | a run of events that each fail a guard leaves the table, `tRecalculated_` and the Serving phase unchanged |
| ClockKit.ClockServer.constructor | ClockKit/ClockServer.cpp:12-18 | a new server is Serving with an empty table, logging off and `tRecalculated_` set to the clock's reading |
| ClockKit.ClockServer.UpdateEntry | ClockKit/ClockServer.cpp:79-123 | updates the fields exactly as `Record` says and returns the recomputed offsetMax, or nothing when throttled or not logging |
| ClockKit.ClockServer.Step | ClockKit/ClockServer.cpp:33-73 | one loop iteration changes the fields and returns the outcome exactly as `Dispatch` says |
| ClockKit.ClockServer.Run | ClockKit/ClockServer.cpp:22-75 | processing events in order, returning at the first KILL, yields exactly the final state and outcomes of `Serve` |

## Left out

- Socket setup, `recv` and `send` (ClockKit/ClockServer.cpp:24-27, 33, 58-62) are network I/O. Received data is an `Event` and the reply is an output value. Send failures are only logged by the source, so they do not affect the state.
- The REPLY's destination is the sender's address string, the same key the table uses (ClockKit/ClockServer.cpp:48, 67). The source sends it to the full `peer` endpoint, which also carries the port (ClockKit/ClockServer.cpp:58). The port is not modelled.
- The endless `for(;;)` becomes a finite sequence of events. `Run` also returns when the events run out.
- Packet encoding and decoding (`packet.write`, `ClockPacket(buffer)`) are not part of this model. `ClockPacket.h` is not part of this model either. The packet is an already-decoded record, and `rtt()` is one of its fields.
- `PACKET_LENGTH` comes from `ClockPacket.h`, so its value is unknown here. The server takes it as a constructor parameter.
- The `cout`/`cerr` text and `StringFromTp` only format diagnostics. The outcome of each iteration and the offsetMax value are returned instead.
- `UsecFromDur` converts a duration to int64 microseconds, and the offsetMax arithmetic at ClockKit/ClockServer.cpp:120 runs on those numbers. Durations here are already integer microseconds (`Dur(usec)`), so the conversion is the identity. If `dur` is finer than a microsecond, the truncation in that conversion is not modelled.
- Nothing in ClockServer.cpp sets `log_` after construction, and `ClockServer.h` is not part of this model. `log` is a public field that clients assign.
- ClockKit.ClockServer.constructor: takes the clock's first reading as an integer. The meaning of an invalid reading there (`tRecalculated_ == tpInvalid`) depends on the numeric value of `tpInvalid`, which is defined in a header outside this model.
- SyncTable.ComputeOffsetMax: does not model int64 overflow in `abs(offset) + rtt/2`. Integers here are unbounded, and `abs` of the most negative int64 is left out.
- ClockKit/clockkit.cpp is not part of this model. It is a thin C API that forwards to a `PhaseLockedClock` (a class outside this model) and maps exceptions to fallback values.
- ClockKit/PerformanceCounter.cpp is not part of this model. It is a Windows platform clock that uses floating point.
