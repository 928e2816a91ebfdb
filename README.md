# Replicated print-farm catalog: a Dafny model

The repository keeps a catalog of 3D printers, filament spools and print jobs in
three id-keyed maps. A raft log replicates the catalog: every replica applies the
same commands in the same order. The repository holds three versions of the
state machine that mutates the catalog. They cannot be compiled together: two of
them declare the same names in one Go package. This project models each version as
its own module, over shared entity datatypes:

- **The validating store** (`internal/store/raft_store.go`). `StoreSpec` holds one
  function per call, from the catalog before to the catalog after plus the
  returned `error`. `Store.RaftStore` is the object with its three map fields,
  and each of its methods is proved against the matching function. `StoreProps`
  holds lemmas over sequences of add and status-update calls: referential consistency, jobs that only
  move forward, spool weights, and two concrete runs.
- **The status graph** (`internal/models/printer_job.go`). `Models` holds the
  records and `PrintJob.IsValidStatusTransition`.
- **The raft FSM of `internal/raft/fsm.go`**. `FsmSpec.Apply` handles four
  lower-case command tags, each an unchecked upsert. Anything it cannot decode
  is reported as an error. `Fsm.RaftFSM` is the object.
- **The raft FSM of `internal/raft/raftnode.go`**. `NodeSpec.Apply` handles three
  upper-case tags, each an unchecked upsert. Everything else is dropped with a
  nil response. `Node.RaftStore` is the object, with its list-all reads.
- **`Versions`** relates the three versions. For the three add commands, both raft
  versions store every printer, spool and job the store accepts exactly as the
  store does. `fsm.go` also accepts what the store rejects: a printer with an id
  already present (`FsmSpec.DuplicatePrinterOverwrites`), any job that fails the
  store's admission checks (`Versions.FsmAcceptsWhatStoreRejects`), and, through
  `update_print_job`, a status move the graph forbids
  (`FsmSpec.UpdateIgnoresStatusGraph`). Status updates do not agree. For a move to
  Done that the store accepts, `fsm.go` leaves the spools alone. `raftnode.go` has
  no status-update command and drops one. The two raft versions share no
  command tag.

`Catalog` holds what the versions share. It holds the catalog value and the
list-all loop (`Collect`), specified by the multiset of a map's values. It also
holds the decoded shapes of log entries and snapshots, and snapshot restore.
JSON is abstracted: a log entry is either a `{type, payload}` envelope, whose
payload holds one record or is malformed, or data that does not decode. A
snapshot is either the three maps or data that does not decode.

In these places the store does less than a validating catalog might be expected to; the model follows the code:

- The store keeps a submitted job's status as it is. It does not force `Queued`:
  the HTTP gateway does that. See `StoreProps.SubmittedDoneJobIsFrozen`.
- The store never checks `0 <= remaining <= total` on a spool.
- Completing a job lowers its spool's remaining weight with no clamp and no
  rejection. Two jobs admitted against one spool can drive it negative
  (`StoreProps.OverdrawScenario`: -400 g). A negative print weight, which no
  check rejects, puts weight back on the spool (`StoreProps.NegativeWeightRefills`).
- The raft versions validate nothing. `raftnode.go` has no status-update command
  at all.

## Model

| member | source | states |
|---|---|---|
| `Models.PrintJob.IsValidStatusTransition` | internal/models/printer_job.go:36-47 | a move is valid exactly when (current, target) is one of the four edges Queued→Running, Running→Done, Queued→Cancelled, Running→Cancelled |
| `Models.RunningOnlyFromQueued` | internal/models/printer_job.go:38-39 | target Running is valid iff the job is Queued |
| `Models.DoneOnlyFromRunning` | internal/models/printer_job.go:40-41 | target Done is valid iff the job is Running |
| `Models.CancelledOnlyFromLive` | internal/models/printer_job.go:42-43 | target Cancelled is valid iff the job is Queued or Running |
| `Models.NoOtherTargets` | internal/models/printer_job.go:44-45 | Queued and any unrecognised status string are never valid targets |
| `Models.TerminalAndIrreflexive` | internal/models/printer_job.go:36-47 | Done and Cancelled have no valid successor; no status is a valid move to itself |
| `Models.TransitionRaisesRank` | internal/models/printer_job.go:36-47 | every valid move strictly raises the status rank (Queued < Running < terminal), so the graph is acyclic |
| `Models.AtMostTwoMoves` | internal/models/printer_job.go:36-47 | no chain of three valid moves exists |
| `Catalog.ValuesOfCount` | internal/store/raft_store.go:43-47 | the listed values hold each value once per key that stores it |
| `Catalog.ValuesOfShape` | internal/store/raft_store.go:43-47 | a map's listed values number exactly its size and are exactly its values |
| `Catalog.Collect` | internal/raft/raftnode.go:146-155 | the `for range` loop returns one element per key (as a multiset, the map's values) and its length is the map's size |
| `Catalog.RestoreSnapshot` | internal/raft/fsm.go:96-117 | undecodable snapshot data is an error with the catalog untouched; otherwise all three maps become exactly the snapshot's |
| `Catalog.RestoreEncoded` | internal/raft/raftnode.go:92-125 | restoring a snapshot taken of a catalog gives back that catalog, whatever was held before |
| `StoreSpec.AddPrinter` | internal/store/raft_store.go:27-37 | fails iff the id is present, then with the duplicate-id error and no change; otherwise adds exactly that key and leaves spools and jobs untouched |
| `StoreSpec.AddFilament` | internal/store/raft_store.go:50-60 | fails iff the id is present, with no change; otherwise adds the spool verbatim, whatever its weights, and touches nothing else |
| `StoreSpec.AddPrintJob` | internal/store/raft_store.go:73-99 | succeeds iff printer and spool exist, print weight ≤ remaining weight and the id is new; a failure changes nothing; success adds only that job |
| `StoreSpec.UpdatePrintJobStatus` | internal/store/raft_store.go:112-148 | succeeds iff the job exists, the move is valid by `IsValidStatusTransition` and, for Done, the spool exists; a failure changes nothing; success changes only that job's status and, on Done, only its spool's remaining weight, lowered by exactly the print weight |
| `StoreSpec.Deserialize` | internal/store/raft_store.go:168-187 | undecodable data is an error with no change; otherwise all three maps become exactly the snapshot's |
| `Store.RaftStore.constructor` | internal/store/raft_store.go:19-25 | a new store holds three empty maps |
| `Store.RaftStore.AddPrinter` | internal/store/raft_store.go:27-37 | the new maps and the error are those of `StoreSpec.AddPrinter` on the old maps |
| `Store.RaftStore.GetPrinters` | internal/store/raft_store.go:39-48 | one printer per key: the multiset of the printer map's values, as many as the map's size |
| `Store.RaftStore.AddFilament` | internal/store/raft_store.go:50-60 | the new maps and the error are those of `StoreSpec.AddFilament` |
| `Store.RaftStore.GetFilaments` | internal/store/raft_store.go:62-71 | one spool per key: the multiset of the spool map's values, as many as the map's size |
| `Store.RaftStore.AddPrintJob` | internal/store/raft_store.go:73-99 | the new maps and the error are those of `StoreSpec.AddPrintJob` |
| `Store.RaftStore.GetPrintJobs` | internal/store/raft_store.go:101-110 | one job per key: the multiset of the job map's values, as many as the map's size |
| `Store.RaftStore.UpdatePrintJobStatus` | internal/store/raft_store.go:112-148 | the new maps and the error are those of `StoreSpec.UpdatePrintJobStatus` |
| `Store.RaftStore.Serialize` | internal/store/raft_store.go:151-166 | the snapshot decodes back to exactly the current three maps |
| `Store.RaftStore.Deserialize` | internal/store/raft_store.go:168-187 | the new maps and the error are those of `StoreSpec.Deserialize` |
| `StoreProps.AddPrintJobChecksInOrder` | internal/store/raft_store.go:77-95 | the error is the first failing check, in the order printer, spool, weight, duplicate id |
| `StoreProps.PerformKeepsConsistent` | internal/store/raft_store.go:77-97 | every call keeps entries stored under their own ids and keeps every job pointing at a stored printer and spool |
| `StoreProps.ReplayKeepsConsistent` | internal/store/raft_store.go:27-148 | any sequence of add and status-update calls keeps that consistency |
| `StoreProps.ConsistentFindsSpool` | internal/store/raft_store.go:133-136 | in a consistent catalog the "filament for job not found" error cannot occur, so a status update succeeds iff the job exists and the move is valid |
| `StoreProps.ReachableFindsSpool` | internal/store/raft_store.go:133-136 | from a new store, no sequence of `AddPrinter`, `AddFilament`, `AddPrintJob` and `UpdatePrintJobStatus` calls reaches the "filament for job not found" error |
| `StoreProps.DeserializeReachesMissingSpool` | internal/store/raft_store.go:168-187 | `Deserialize` loads a snapshot without checking it: a Running job whose spool is absent loads, the catalog is no longer consistent, and completing the job fails with "filament for job not found" |
| `StoreProps.UpdatePrintJobStatusErrors` | internal/store/raft_store.go:116-143 | the error of a failing status update is, in order: job not found, invalid status for a target other than Running/Done/Cancelled, invalid transition for a move the graph forbids, and filament for job not found for a Done move whose spool is absent |
| `StoreProps.PerformAdvancesJobs` | internal/store/raft_store.go:122-146 | no call removes a job; a call changes at most a job's status, never lowers its rank and never changes a job that is not Queued or Running |
| `StoreProps.ReplayAdvancesJobs` | internal/store/raft_store.go:112-148 | the same holds across any sequence of add and status-update calls: Done and Cancelled jobs persist unchanged |
| `StoreProps.SubmittedDoneJobIsFrozen` | internal/store/raft_store.go:97 | a job admitted already Done is kept verbatim whatever follows, so its weight never comes off its spool |
| `StoreProps.PerformSpoolWeights` | internal/store/raft_store.go:132-137 | no call removes a spool; a spool changes only in remaining weight, and only on a move to Done of a job on it, by exactly that job's print weight |
| `StoreProps.ReplayNeverRefills` | internal/store/raft_store.go:132-137 | when no print weight is negative, no spool's remaining weight ever rises over any sequence of add and status-update calls |
| `StoreProps.NegativeWeightRefills` | internal/store/raft_store.go:132-137 | completing a job with a negative print weight succeeds and raises its spool's remaining weight |
| `StoreProps.SnapshotRoundTrip` | internal/store/raft_store.go:151-187 | deserializing a serialized catalog restores it exactly, whatever the store held before |
| `StoreProps.CompletedJobScenario` | internal/store/raft_store.go:112-148 | a 400 g job on a 1000 g spool runs and completes, leaving 600 g; moving it back to Running fails and the spool keeps 600 g |
| `StoreProps.OverdrawScenario` | internal/store/raft_store.go:88-137 | two 700 g jobs admitted against one 1000 g spool both pass the weight check; completing both leaves -400 g |
| `FsmSpec.Apply` | internal/raft/fsm.go:44-83 | undecodable data, an unknown tag or a payload of the wrong shape is an error with no change; otherwise the decoded record is upserted by id into its tag's map only |
| `FsmSpec.ApplyAllKeepsKeys` | internal/raft/fsm.go:53-80 | no sequence of entries removes a key from any map |
| `FsmSpec.DuplicatePrinterOverwrites` | internal/raft/fsm.go:54-59 | `add_printer` with a present id succeeds and replaces the printer, with no duplicate check |
| `FsmSpec.DanglingJobAccepted` | internal/raft/fsm.go:66-71 | `add_print_job` accepts a job whose printer and spool are unknown, keeping the submitted status |
| `FsmSpec.UpdateIgnoresStatusGraph` | internal/raft/fsm.go:72-77 | `update_print_job` moves a Done job back to Queued and leaves spools untouched |
| `Fsm.RaftFSM.constructor` | internal/raft/fsm.go:36-42 | a new FSM holds three empty maps |
| `Fsm.RaftFSM.Apply` | internal/raft/fsm.go:44-83 | the new maps and the response are those of `FsmSpec.Apply` |
| `Fsm.RaftFSM.Snapshot` | internal/raft/fsm.go:85-94 | the snapshot decodes back to exactly the current three maps |
| `Fsm.RaftFSM.Restore` | internal/raft/fsm.go:96-117 | the new maps and the error are those of `Catalog.RestoreSnapshot` |
| `NodeSpec.Apply` | internal/raft/raftnode.go:45-82 | the response is nil on every path; only a decodable entry with one of the three tags and a fitting payload changes anything, upserting that record into its own map only |
| `NodeSpec.IneffectiveLogIsNoOp` | internal/raft/raftnode.go:45-82 | a log with no decodable entry carrying a known tag and a fitting payload leaves the catalog unchanged |
| `NodeSpec.ApplyAllKeepsKeys` | internal/raft/raftnode.go:55-81 | no sequence of entries removes a key from any map |
| `NodeSpec.UnknownTagsIgnored` | internal/raft/raftnode.go:55-81 | any other tag, a status update included, gets nil and changes nothing |
| `Node.RaftStore.constructor` | internal/raft/raftnode.go:36-42 | a new store holds three empty maps |
| `Node.RaftStore.Apply` | internal/raft/raftnode.go:45-82 | the new maps and the response are those of `NodeSpec.Apply` |
| `Node.RaftStore.Snapshot` | internal/raft/raftnode.go:92-108 | the snapshot decodes back to exactly the current three maps |
| `Node.RaftStore.Restore` | internal/raft/raftnode.go:111-125 | the new maps and the error are those of `Catalog.RestoreSnapshot` |
| `Node.RaftStore.GetPrinters` | internal/raft/raftnode.go:146-155 | one printer per key: the multiset of the printer map's values, as many as the map's size |
| `Node.RaftStore.GetFilaments` | internal/raft/raftnode.go:158-167 | one spool per key: the multiset of the spool map's values, as many as the map's size |
| `Node.RaftStore.GetPrintJobs` | internal/raft/raftnode.go:170-179 | one job per key: the multiset of the job map's values, as many as the map's size |
| `Versions.FsmAgreesOnNewPrinter` | internal/raft/fsm.go:54-59 | a printer the store accepts is stored identically by `add_printer` |
| `Versions.FsmAgreesOnNewFilament` | internal/raft/fsm.go:60-65 | a spool the store accepts is stored identically by `add_filament` |
| `Versions.FsmAgreesOnAdmittedJob` | internal/raft/fsm.go:66-71 | a job the store admits is stored identically by `add_print_job` |
| `Versions.FsmAcceptsWhatStoreRejects` | internal/raft/fsm.go:66-71 | every job the store rejects is accepted by `add_print_job` and stored under its id |
| `Versions.FsmUpdateSkipsDecrement` | internal/raft/fsm.go:72-77 | a move the store accepts, sent as `update_print_job` with the full stored record and its new status as payload, gives the same printers and jobs but leaves spools untouched, so a Done move with non-zero weight disagrees with the store |
| `Versions.NodeMatchesFsmOnAdds` | internal/raft/raftnode.go:56-78 | the three add commands change the catalog as fsm.go's do under its own tags |
| `Versions.TagsDisjoint` | internal/raft/raftnode.go:15-19 | the two raft versions share no tag: fsm.go rejects raftnode.go's tags as unknown, and raftnode.go drops fsm.go's |
| `Versions.NodeSilentWhereFsmFails` | internal/raft/raftnode.go:45-82 | wherever fsm.go reports an error for an entry without one of raftnode.go's tags, raftnode.go reports nil and changes nothing |

## Left out

- The JSON byte layout and `encoding/json`. Decoding is abstract: a payload holds one record kind or is malformed. Go would also decode a record of another kind into the expected struct by matching field names, leaving the other fields at their zero values. The model treats a payload of the wrong kind as undecodable.
- JSON `null` inside data. A snapshot that omits a map, or holds `null`, decodes in Go to a nil map or a nil entry. A later insert into a nil map panics, and so does a later dereference of a nil entry. The model's snapshot always carries three maps of records.
- `Serialize`, `Snapshot` and `Persist`: `json.Marshal` of these records cannot fail, so the model has no error path there. The raft sink (`Persist`, `Cancel`, `Release`) is not part of this model.
- Pointer aliasing. Go stores and returns `*Printer`, `*Filament` and `*PrintJob` pointers, so a caller can mutate a stored record after `Add*` or `Get*`. Records are values here.
- Fsm.RaftFSM.Snapshot: fsm.go's snapshot captures the live maps, not copies, so `Persist` may see later writes. The model takes the snapshot at the moment of the call.
- `sync.RWMutex` locking. Each operation is modelled as atomic, one at a time.
- Map iteration order in the `Get*` loops. It is unspecified, so results are compared as multisets. raftnode.go returns a nil slice for an empty map, and raft_store.go returns an empty one. Both are the empty sequence here.
- 64-bit wrap-around of Go `int` weights. They are unbounded integers here.
- `FilamentType` is an enum of the four named types. Go accepts any string there, and the core never reads the field.
- Log delivery, leader election and the `raft.Log` wrapper are left out. So are the HTTP gateway (`internal/api`), the process wiring (`node3/main.go`) and `fmt.Println` logging.
