# Restaurant receptionist and state log

This project models two sequential parts of the restaurant simulation.

**The receptionist** has a life cycle. It initialises its private ledger with every group "to arrive". It then serves exactly `2 * nGroups` requests. Each request is taken from the shared request slot after the receptionist sets its status to WAIT_REQUEST and logs the state.

- A table request (`provideTableOrWaitingRoom`) logs status ASSIGNTABLE. It then gives the group the lowest-numbered table that no group holds (`decideTableOrWait`). If every table is held, the group is recorded as waiting and `groupsWaiting` goes up.
- A bill request (`receivePayment`) logs status RECVPAY. The group is marked done and its table is released. The lowest-numbered waiting group, if any, takes that table (`decideNextGroup`), and the table's "vacated" semaphore is signalled.

The shared `assignedTable` array, the ledger `groupRecord` and the two semaphore arrays are Dafny arrays in the class `Reception.Receptionist`. A `semUp` is an increment of a counter in `waitForTable` (per group) or `tableDone` (per table). Every method is proved against the value-level state machine of module `Allocation`. That module states:
- the invariant both operations keep: the ledger agrees with the tables, no table is held twice, `groupsWaiting` counts the waiting groups, and each group was told "table ready" once per seating;
- what each request does, with the "nothing else changes" frame;
- that the `2 * nGroups` loop leaves every group done.

**The state log** (`src/logging.c`) is modelled in module `Logging`:
- `saveState`'s fixed-width line: status fields `%3d`, a blank, `%4d` per group, `%5d` waiting count, then `%4d` or `%4s` of `.` per table, then a newline;
- `printHeader`'s matching column titles;
- `createLog`'s title;
- `openLog`'s rule that a missing or empty file name means standard output.

The line and the header are built field by field by methods shaped like the C loops. Each is proved equal to a declarative layout, which is in turn proved column by column. Module `Format` models printf's `%d`, `%Nd`, `%Ns` and `%0Nd`. It also proves that `%d` can be read back.

Two details are modelled as the code has them:
- `decideTableOrWait` scans the compile-time `NUMTABLES` tables, not a run-time `nTables`. Here it is `Config.numTables`, a constant of the configuration.
- `decideNextGroup` returns -1 whenever `groupsWaiting` is 0, whatever the ledger says. When `groupsWaiting` is not 0 but no group is recorded as waiting, its result variable is left unset; this is modelled as an arbitrary value. So its answer is defined when `groupsWaiting` is 0 or some group waits. The model's precondition is that `groupsWaiting` counts the waiting groups, which the invariant keeps and which covers both cases.

`NUMTABLES`, `MAXGROUPS` and the status codes WAIT_REQUEST, ASSIGNTABLE and RECVPAY live in a header that is not part of this model. They are the fields of `Allocation.Config`.

## Model

| member | source | states |
|---|---|---|
| `Allocation.LowestFreeFrom` | src/semSharedMemReceptionist.c:162-166 | from table `t` on, the result is -1 exactly when every table below NUMTABLES is held by one of the first `nGroups` groups; otherwise it is a free table, and every lower table is held |
| `Allocation.LowestFreeTable` | src/semSharedMemReceptionist.c:158-167 | `decideTableOrWait`'s answer: the search for a free table started at table 0, so it is the lowest table below NUMTABLES that none of the first `nGroups` groups holds, or -1 when all are held |
| `Reception.Receptionist.DecideTableOrWait` | src/semSharedMemReceptionist.c:158-167 | the nested scan returns the lowest table in `[0, NUMTABLES)` that no group holds, or -1; argument `n` plays no part |
| `Allocation.LowestWaitingFrom` | src/semSharedMemReceptionist.c:183-188 | the result is -1 exactly when no group from `k` on waits; otherwise it is a waiting group and no lower group waits |
| `Allocation.NextGroup` | src/semSharedMemReceptionist.c:177-191 | `decideNextGroup`'s answer: -1 when `groupsWaiting` is 0, whatever the ledger says; otherwise the lowest group recorded as waiting |
| `Reception.Receptionist.DecideNextGroup` | src/semSharedMemReceptionist.c:177-191 | with `groupsWaiting` equal to the number of waiting groups: -1 when none waits, otherwise the lowest waiting group, although the C variable starts uninitialised |
| `Allocation.LowestWaitingSame` | src/semSharedMemReceptionist.c:331-336 | marking the paying (non-waiting) group done before the search does not change which group is chosen |
| `Allocation.LowestWaitingAgree` | src/semSharedMemReceptionist.c:183-188 | two ledgers that agree on who waits give the same lowest waiting group |
| `Reception.Receptionist.WaitForGroup` | src/semSharedMemReceptionist.c:202-261 | status becomes WAIT_REQUEST, the state is logged, the request in the slot is returned unchanged, nothing else changes |
| `Reception.Receptionist.SaveState` | src/semSharedMemReceptionist.c:215 | the full state is appended to the log as exactly one formatted line; no other field changes |
| `Reception.Receptionist.ProvideTableOrWaitingRoom` | src/semSharedMemReceptionist.c:272-305 | the new state is the table-request step of the state machine applied to the old state |
| `Reception.Receptionist.SeatOrQueue` | src/semSharedMemReceptionist.c:285-297 | the group takes the decided table; at -1 it waits and `groupsWaiting` rises, otherwise it is seated and its semaphore gets one `up` |
| `Allocation.Inv` | src/semSharedMemReceptionist.c:285-345 | the invariant of the receptionist's state: every group's ledger entry agrees with its table (a real table exactly when at table, -1 otherwise), no real table is held by two groups, `groupsWaiting` is the number of waiting groups, while anyone waits every table is held, each group had one table-ready `up` per seating, and the vacated `up`s add up to the groups done |
| `Allocation.Start` | src/semSharedMemReceptionist.c:53 | the receptionist's starting state: the static ledger all TOARRIVE, no group holding a table (-1), nobody waiting, no `up` on any semaphore and no line saved; the statuses are parameters |
| `Allocation.LedgerInit` | src/semSharedMemReceptionist.c:117-121 | the ledger loop: entries below `nGroups` become TOARRIVE and the rest of the ledger keeps its value; nothing else changes |
| `Allocation.Announce` | src/semSharedMemReceptionist.c:282-283 | the receptionist's status becomes the given code and the whole state is saved as one more line; nothing else changes |
| `Allocation.AwaitRequest` | src/semSharedMemReceptionist.c:214-215 | `waitForGroup`'s critical section: status WAIT_REQUEST, then one saved line |
| `Allocation.Seat` | src/semSharedMemReceptionist.c:285-297 | the decided table is stored for group `n`; on -1 the group is recorded WAIT and `groupsWaiting` grows by one, otherwise it is recorded ATTABLE and its table-ready semaphore gets one `up` |
| `Allocation.Vacate` | src/semSharedMemReceptionist.c:328-334 | RECVPAY and a saved line, then group `n` is recorded DONE and its table entry becomes -1 |
| `Allocation.Admit` | src/semSharedMemReceptionist.c:338-345 | group `m` gets table `v` and one `up` on its table-ready semaphore, `groupsWaiting` falls by one and `m` is recorded ATTABLE |
| `Allocation.FreeTable` | src/semSharedMemReceptionist.c:358-362 | table `v`'s vacated semaphore gets exactly one `up`; nothing else changes |
| `Allocation.Reseat` | src/semSharedMemReceptionist.c:336-362 | the next group decided by `NextGroup` is admitted to table `v` when there is one, and in both cases table `v`'s vacated semaphore gets one `up` |
| `Allocation.TableRequest` | src/semSharedMemReceptionist.c:282-297 | a table request for group `n`: status ASSIGNTABLE and a log line, then the group is given the lowest free table, or queued when that is -1 |
| `Allocation.Payment` | src/semSharedMemReceptionist.c:328-362 | a bill from group `n`: status RECVPAY and a log line, the group done and its table released, then the next group decided, handed the table if there is one, and the table's vacated `up` |
| `Allocation.Dispatch` | src/semSharedMemReceptionist.c:128-136 | the switch of `main`: a table request goes to the table step, a bill to the payment step, any other code leaves the state as it is |
| `Allocation.Step` | src/semSharedMemReceptionist.c:127-136 | one loop iteration: `waitForGroup`'s status change and log line, then the dispatch of the request |
| `Allocation.TableRequestOutcome` | src/semSharedMemReceptionist.c:282-297 | status ASSIGNTABLE; the table is -1 iff every table is held, in which case the group waits, `groupsWaiting` rises by one and nobody is signalled; otherwise it is the lowest free table, the group is at table and its semaphore gets exactly one `up`; no other group's table or ledger entry changes |
| `Allocation.TableRequestKeepsInv` | src/semSharedMemReceptionist.c:285-289 | a table request from a group that has not arrived keeps table uniqueness, ledger consistency, the waiting count and the signal counts |
| `Allocation.SeatKeepsInv` | src/semSharedMemReceptionist.c:285-297 | seating at the lowest free table, or queueing when there is none, keeps the invariant |
| `Reception.Receptionist.SettleBill` | src/semSharedMemReceptionist.c:328-334 | status RECVPAY and logged; the group is done, holds no table, and its old table is returned; the waiting count stays exact |
| `Reception.Receptionist.HandOver` | src/semSharedMemReceptionist.c:338-345 | the chosen group takes the vacated table, is signalled once, stops waiting, and `groupsWaiting` falls by one |
| `Reception.Receptionist.SignalVacated` | src/semSharedMemReceptionist.c:358-362 | the vacated table's semaphore gets exactly one `up`, nothing else changes |
| `Reception.Receptionist.ReceivePayment` | src/semSharedMemReceptionist.c:317-365 | the new state is the payment step of the state machine applied to the old state |
| `Allocation.PaymentSettles` | src/semSharedMemReceptionist.c:328-334 | after a bill request the paying group is done, holds no table, and its table's semaphore gets exactly one `up` |
| `Allocation.PaymentHandsOver` | src/semSharedMemReceptionist.c:336-346 | with nobody waiting, only the paying group's entries change; otherwise the lowest waiting group (never the payer) gets the vacated table, is at table and signalled once, and `groupsWaiting` falls by one; nothing else changes |
| `Allocation.ReseatOutcome` | src/semSharedMemReceptionist.c:336-362 | the second half of a payment: the vacated table is signalled once in every case and handed to the lowest waiting group if there is one |
| `Allocation.PaymentKeepsInv` | src/semSharedMemReceptionist.c:328-362 | a bill from a seated group keeps table uniqueness, ledger consistency, the waiting count and the signal counts |
| `Allocation.AnnounceKeepsInv` | src/semSharedMemReceptionist.c:214-215 | setting the status and logging keep the invariant and leave tables, ledger and semaphores as they were |
| `Allocation.CountUpdate` | src/semSharedMemReceptionist.c:287-288 | changing one ledger entry changes the count of a phase by exactly the entries that enter or leave it |
| `Reception.Receptionist.constructor` | src/semSharedMemReceptionist.c:53 | the receptionist before its life cycle: the static ledger is zero, that is every entry TOARRIVE; the shared state has no table assigned, nobody waiting, no semaphore `up` and an empty log; its arrays are newly allocated, so the life cycle may update them |
| `Allocation.StartInv` | src/semSharedMemReceptionist.c:117-121 | the starting state (no tables assigned, nobody waiting, all to arrive, no signals) satisfies the invariant |
| `Allocation.LedgerInitOfStart` | src/semSharedMemReceptionist.c:117-121 | initialising the ledger of a freshly started receptionist changes nothing |
| `Reception.Receptionist.InitLedger` | src/semSharedMemReceptionist.c:117-121 | the first `nGroups` ledger entries become TOARRIVE, nothing else changes |
| `Allocation.StepKeepsInv` | src/semSharedMemReceptionist.c:126-137 | one loop iteration (wait for a request, dispatch it) keeps the invariant |
| `Allocation.ServeUnfold` | src/semSharedMemReceptionist.c:126-137 | serving a list is serving its first request, then the rest, and the rest is still serviceable |
| `Allocation.Serve` | src/semSharedMemReceptionist.c:124-138 | serving any admissible list of requests ends in a state satisfying the invariant |
| `Reception.Receptionist.HandleRequest` | src/semSharedMemReceptionist.c:127-136 | one iteration of the loop: the request is awaited, then table and bill requests go to their operations and others are ignored |
| `Reception.Receptionist.ServeRequests` | src/semSharedMemReceptionist.c:124-138 | the counting loop handles the requests in order; the final state is the state machine run over them |
| `Reception.Receptionist.Run` | src/semSharedMemReceptionist.c:116-138 | after the ledger initialisation and `2 * nGroups` table and bill requests, every group is done with no table, was told "table ready" exactly once, and nobody waits |
| `Reception.TwoGroupsLifecycle` | src/semSharedMemReceptionist.c:116-138 | the whole process for two groups and one table, from the static ledger through the life cycle: both groups end done with no table, each was told "table ready" once, and nobody waits |
| `Allocation.StepProgress` | src/semSharedMemReceptionist.c:126-137 | every table or bill request adds exactly one to the groups' total progress (0 before arriving, 1 waiting or seated, 2 done); a waiting group being seated does not count |
| `Allocation.ServeProgress` | src/semSharedMemReceptionist.c:124-138 | a list of table and bill requests advances the total progress by its length |
| `Allocation.AllServed` | src/semSharedMemReceptionist.c:124-138 | `2 * nGroups` such requests from the all-to-arrive ledger leave every group done, with no table, told once; nobody waits; the vacated semaphores had `nGroups` `up`s in all |
| `Allocation.TwoGroupsOneTable` | src/semSharedMemReceptionist.c:272-365 | two groups, one table: group 0 is seated, group 1 waits, group 0's payment hands table 0 to group 1, group 1's payment frees it |
| `Allocation.ScenarioSeating` | src/semSharedMemReceptionist.c:285-297 | the seating half of that scenario |
| `Allocation.ScenarioPayments` | src/semSharedMemReceptionist.c:331-362 | the payment half of that scenario |
| `Allocation.ScenarioAdmissible` | src/semSharedMemReceptionist.c:128-136 | in that scenario every request comes from a group in the phase its kind needs when its turn comes: TOARRIVE for a table request, ATTABLE for a bill |
| `Logging.OpenLog` | src/logging.c:29-48 | the target is standard output exactly when the name is missing or empty; otherwise it is the named file |
| `Logging.Streams.CreateLog` | src/logging.c:97-109 | the target is truncated (a file) or appended to (standard output) with the title lines and the header; no other stream changes |
| `Logging.Streams.SaveState` | src/logging.c:126-155 | the target's text grows by exactly one state line at its end; no other stream changes |
| `Logging.TitleLines` | src/logging.c:105 | `%31c` of a blank, the title text and `\n\n` |
| `Logging.TitleLayout` | src/logging.c:105 | the title is 31 blanks, "Restaurant - Description of the internal state", a newline, and a blank line |
| `Logging.FormatLine` | src/logging.c:132-152 | the state line: chef, waiter and receptionist status in `%3d`, a blank, each group's status in `%4d`, the waiting count in `%5d`, each group's table in `%4d` or `%4s` of `.` for -1, and a newline |
| `Logging.TableCell` | src/logging.c:144-148 | a group's table cell: `%4d` of the table when it is not -1, `%4s` of `.` when it is |
| `Logging.Text` | src/logging.c:65-67 | printf's `%Ns`: the string right-aligned with blanks in `N` columns; also used for the `gWT` title (line 74) and the table dot (line 147) |
| `Logging.FormatHeader` | src/logging.c:63-81 | the header: `%3s` of CH, WT and RC, a blank, `" G%02d"` per group, `%5s` of gWT, `" T%02d"` per group, and a newline |
| `Logging.WriteState` | src/logging.c:132-152 | the line written field by field equals the declarative layout |
| `Logging.WriteGroupCells` | src/logging.c:137-139 | the loop appends every group's `%4d` status in ascending order |
| `Logging.WriteTableCells` | src/logging.c:143-149 | the loop appends every group's `%4d` table, or `%4s` of `.` for -1, in ascending order |
| `Logging.WriteHeader` | src/logging.c:63-81 | the header written title by title equals the declarative header |
| `Logging.WriteLabels` | src/logging.c:70-78 | the loop appends `" G%02d"` (or `" T%02d"`) for every group in ascending order |
| `Logging.TableCellIsDot` | src/logging.c:144-148 | a table cell reads `"   ."` if and only if the group holds no table (-1) |
| `Logging.CellWidths` | src/logging.c:132-148 | when the values fit, the status block is 10 columns, each group and table cell 4, the waiting count 5 |
| `Logging.LineColumns` | src/logging.c:132-152 | group `g`'s status sits at columns `10+4g..14+4g` and its table cell at `15+4n+4g..19+4n+4g`; the line is `16+8n` long |
| `Logging.HeaderColumns` | src/logging.c:63-81 | group `g`'s titles sit at the same columns as its cells, in a header of length `16+8n` |
| `Logging.HeaderMatchesLine` | src/logging.c:65-80 | with fitting values and at most 100 groups, the header and every state line have the same length |
| `Logging.OneLinePerState` | src/logging.c:132-152 | a state line ends with its only newline |
| `Logging.LinesOfSnoc` | src/logging.c:126-155 | saving one more state keeps the log in step with the saved states: the new state's line is added after the earlier ones, which stay as they were |
| `Logging.LinesOfRender` | src/logging.c:126-155 | the lines kept for the saved states, written one after the other, are the rendering of those states |
| `Logging.RenderLines` | src/logging.c:126-155 | a log that saved `k` states holds exactly `k` lines |
| `Format.IntToString` | src/logging.c:132 | printf's `%d`: a minus sign for a negative number, then the decimal digits without leading zeros; never empty |
| `Format.PadLeft` | src/logging.c:132-147 | right alignment in a field of width `w`: fill characters in front up to `w` columns; a wider value is not cut |
| `Format.Field` | src/logging.c:132-145 | printf's `%wd`: `%d` right-aligned with blanks in width `w` |
| `Format.ZeroPadded` | src/logging.c:71 | printf's `%0wd`: `%d` right-aligned with zeros in width `w` |
| `Format.PadLeftContent` | src/logging.c:132-147 | a padded field is fill characters followed by the value unchanged |
| `Format.IntToStringShape` | src/logging.c:132-145 | `%d` writes a minus sign exactly for negative numbers, then digits |
| `Format.IntRoundTrip` | src/logging.c:132-145 | what `%d` writes reads back as the number written |
| `Format.CellColumns` | src/logging.c:132-152 | in a 10-column prefix, `n` four-column cells, a 5-column field, `n` cells and a newline, cell `g` of each half sits at its computed columns |

## Left out

- Semaphores, the mutex and blocking: each operation is one critical section and runs atomically. A `semUp` on `waitForTable` or `tableDone` is an increment of a counter.
- The request handshake of `waitForGroup` (`receptionistReq`, `receptionistRequestPossible`): it is ordering between processes. The request a group left in the slot is a parameter.
- The protocol of the group processes is a precondition: a table request comes from a group that has not arrived, and a bill from a seated group (`Allocation.Serviceable`, `Allocation.Admissible`). The chef, waiter and group processes are not part of this model.
- Reception.Receptionist.ReceivePayment: requires the paying group to hold a real table, to be not waiting, and the waiting count to be exact. The C code indexes `tableDone` with the vacated table and relies on the count in `decideNextGroup`.
- Shared-memory attachment, `perror` and `exit` failure paths, argument parsing, `freopen` of stderr and `srandom`: process setup and I/O.
- File handles: `fopen`, `fclose`, `fflush` and the stderr diagnostic of `openLog` are not modelled. A log is the text written to it, in `Logging.Streams`. The receptionist keeps the lines it wrote.
- The chef's and waiter's status and the groups' statuses are written by other processes between the receptionist's critical sections, for instance while `waitForGroup` blocks. The model never changes them, so every line the modelled receptionist saves holds them at their starting values.
- Integer width: statuses, table numbers and counters are unbounded integers. The counts stay within `nGroups` and the table numbers below NUMTABLES, so 32-bit overflow does not arise for them.
- printf with values wider than their column: fields are never cut. The column lemmas require every value to fit (`Logging.LineFits`) and at most 100 groups, so `%02d` stays two digits.
