/**
 * What the validating store of internal/store/raft_store.go guarantees over
 * sequences of calls: referential consistency, jobs that only move forward
 * along the status graph, spools that lose weight only when a job is done,
 * and the overdraw that the unguarded decrement allows.
 */
module StoreProps {
  import opened Wrappers
  import opened Models
  import opened Catalog
  import opened StoreSpec

  /**
   * One of the store's add and status-update calls. `Deserialize`, which
   * replaces all three maps with whatever a snapshot holds, is not one of
   * them: see `DeserializeReachesMissingSpool`.
   */
  datatype Call =
    | AddPrinterCall(printer: Printer)
    | AddFilamentCall(filament: Filament)
    | AddPrintJobCall(job: PrintJob)
    | UpdateStatusCall(jobId: string, newStatus: PrintJobStatus)

  function Perform(c: Catalog, call: Call): Step {
    match call
    case AddPrinterCall(p) => AddPrinter(c, p)
    case AddFilamentCall(f) => AddFilament(c, f)
    case AddPrintJobCall(j) => AddPrintJob(c, j)
    case UpdateStatusCall(id, s) => UpdatePrintJobStatus(c, id, s)
  }

  /** The catalog after making `calls` one after another, rejected ones included. */
  function Replay(c: Catalog, calls: seq<Call>): Catalog
    decreases |calls|
  {
    if calls == [] then c else Replay(Perform(c, calls[0]).catalog, calls[1..])
  }

  /**
   * AddPrintJob reports the first check that fails, in the order: printer,
   * spool, remaining weight, duplicate id.
   */
  lemma AddPrintJobChecksInOrder(c: Catalog, job: PrintJob)
    ensures job.printerId !in c.printers ==>
      AddPrintJob(c, job).outcome == Fail(PrinterMissing(job.printerId))
    ensures job.printerId in c.printers && job.filamentId !in c.filaments ==>
      AddPrintJob(c, job).outcome == Fail(FilamentMissing(job.filamentId))
    ensures job.printerId in c.printers && job.filamentId in c.filaments ==>
      var available := c.filaments[job.filamentId].remainingWeightInGrams;
      && (job.printWeightInGrams > available ==>
            AddPrintJob(c, job).outcome == Fail(InsufficientFilament(job.printWeightInGrams, available)))
      && (job.printWeightInGrams <= available && job.id in c.printJobs ==>
            AddPrintJob(c, job).outcome == Fail(PrintJobExists(job.id)))
  {
  }

  // ---------------------------------------------------------------------
  // Referential consistency
  // ---------------------------------------------------------------------

  /** Every entry is stored under its own id. */
  ghost predicate IdsMatchKeys(c: Catalog) {
    && (forall k :: k in c.printers ==> c.printers[k].id == k)
    && (forall k :: k in c.filaments ==> c.filaments[k].id == k)
    && (forall k :: k in c.printJobs ==> c.printJobs[k].id == k)
  }

  /** Every job names a printer and a spool that are in the catalog. */
  ghost predicate JobsReferenceCatalog(c: Catalog) {
    forall k :: k in c.printJobs ==> c.printJobs[k].printerId in c.printers && c.printJobs[k].filamentId in c.filaments
  }

  ghost predicate Consistent(c: Catalog) {
    IdsMatchKeys(c) && JobsReferenceCatalog(c)
  }

  lemma PerformKeepsConsistent(c: Catalog, call: Call)
    requires Consistent(c)
    ensures Consistent(Perform(c, call).catalog)
  {
    var after := Perform(c, call).catalog;
    assert after.printers.Keys >= c.printers.Keys && after.filaments.Keys >= c.filaments.Keys;
    match call
    case AddPrintJobCall(j) =>
    case UpdateStatusCall(id, s) =>
    case _ =>
  }

  lemma {:induction false} ReplayKeepsConsistent(c: Catalog, calls: seq<Call>)
    requires Consistent(c)
    ensures Consistent(Replay(c, calls))
    decreases |calls|
  {
    if calls != [] {
      PerformKeepsConsistent(c, calls[0]);
      ReplayKeepsConsistent(Perform(c, calls[0]).catalog, calls[1..]);
    }
  }

  /** In a consistent catalog the "filament for job not found" error cannot occur. */
  lemma ConsistentFindsSpool(c: Catalog, jobId: string, newStatus: PrintJobStatus)
    requires Consistent(c)
    ensures UpdatePrintJobStatus(c, jobId, newStatus).outcome != Fail(FilamentForJobNotFound(jobId))
    ensures UpdatePrintJobStatus(c, jobId, newStatus).outcome.Pass? <==>
      jobId in c.printJobs && c.printJobs[jobId].IsValidStatusTransition(newStatus)
  {
  }

  /**
   * Starting from a new store, no sequence of add and status-update calls
   * ever reaches "filament for job not found".
   */
  lemma ReachableFindsSpool(calls: seq<Call>, jobId: string, newStatus: PrintJobStatus)
    ensures UpdatePrintJobStatus(Replay(Empty, calls), jobId, newStatus).outcome != Fail(FilamentForJobNotFound(jobId))
  {
    ReplayKeepsConsistent(Empty, calls);
    ConsistentFindsSpool(Replay(Empty, calls), jobId, newStatus);
  }

  /**
   * `Deserialize` checks nothing about the snapshot it loads: a Running job
   * whose spool is not in the snapshot loads, and completing it then fails
   * with "filament for job not found".
   */
  lemma DeserializeReachesMissingSpool()
    ensures var loaded := Deserialize(Empty, SnapshotJson(map[], map[], map["J" := PrintJob("J", "P", "F", "", 5, Running)]));
      && loaded.outcome.Pass?
      && !Consistent(loaded.catalog)
      && UpdatePrintJobStatus(loaded.catalog, "J", Done).outcome == Fail(FilamentForJobNotFound("J"))
  {
    var loaded := Deserialize(Empty, SnapshotJson(map[], map[], map["J" := PrintJob("J", "P", "F", "", 5, Running)]));
    assert "J" in loaded.catalog.printJobs && loaded.catalog.printJobs["J"].filamentId !in loaded.catalog.filaments;
  }

  /**
   * UpdatePrintJobStatus reports, in order: an unknown job, a target outside
   * the three it handles, a move the status graph forbids, and for `Done`
   * a spool that is not in the catalog.
   */
  lemma UpdatePrintJobStatusErrors(c: Catalog, jobId: string, newStatus: PrintJobStatus)
    ensures jobId !in c.printJobs ==>
      UpdatePrintJobStatus(c, jobId, newStatus).outcome == Fail(PrintJobNotFound(jobId))
    ensures jobId in c.printJobs && newStatus !in {Running, Done, Cancelled} ==>
      UpdatePrintJobStatus(c, jobId, newStatus).outcome == Fail(InvalidStatus(newStatus))
    ensures jobId in c.printJobs && newStatus in {Running, Done, Cancelled}
            && !c.printJobs[jobId].IsValidStatusTransition(newStatus) ==>
      UpdatePrintJobStatus(c, jobId, newStatus).outcome == Fail(InvalidTransition(newStatus))
    ensures jobId in c.printJobs && newStatus == Done && c.printJobs[jobId].status == Running
            && c.printJobs[jobId].filamentId !in c.filaments ==>
      UpdatePrintJobStatus(c, jobId, newStatus).outcome == Fail(FilamentForJobNotFound(jobId))
  {
  }

  // ---------------------------------------------------------------------
  // Jobs only move forward
  // ---------------------------------------------------------------------

  predicate IsLive(s: PrintJobStatus) {
    s == Queued || s == Running
  }

  /**
   * `after` is `before` with, at most, a later status: only the status may
   * differ, its rank never drops, and a job that is not live never changes.
   */
  ghost predicate Advanced(before: PrintJob, after: PrintJob) {
    && after == before.(status := after.status)
    && Rank(before.status) <= Rank(after.status)
    && (!IsLive(before.status) ==> after == before)
  }

  ghost predicate JobsAdvanced(before: Catalog, after: Catalog) {
    forall id :: id in before.printJobs ==> id in after.printJobs && Advanced(before.printJobs[id], after.printJobs[id])
  }

  lemma PerformAdvancesJobs(c: Catalog, call: Call)
    ensures JobsAdvanced(c, Perform(c, call).catalog)
  {
    match call
    case UpdateStatusCall(id, s) =>
      var r := UpdatePrintJobStatus(c, id, s);
      if r.outcome.Pass? {
        TransitionRaisesRank(c.printJobs[id], s);
      }
    case _ =>
  }

  lemma {:induction false} ReplayAdvancesJobs(c: Catalog, calls: seq<Call>)
    ensures JobsAdvanced(c, Replay(c, calls))
    decreases |calls|
  {
    if calls != [] {
      var next := Perform(c, calls[0]).catalog;
      PerformAdvancesJobs(c, calls[0]);
      ReplayAdvancesJobs(next, calls[1..]);
      var last := Replay(c, calls);
      forall id | id in c.printJobs
        ensures id in last.printJobs && Advanced(c.printJobs[id], last.printJobs[id])
      {
        assert id in next.printJobs;
      }
    }
  }

  /**
   * The store keeps a submitted status as it is: a job admitted already
   * `Done` stays in the catalog unchanged whatever calls follow, so its
   * weight never comes off its spool.
   */
  lemma SubmittedDoneJobIsFrozen(c: Catalog, job: PrintJob, calls: seq<Call>)
    requires Admissible(c, job) && job.status == Done
    ensures var last := Replay(AddPrintJob(c, job).catalog, calls);
      job.id in last.printJobs && last.printJobs[job.id] == job
  {
    var admitted := AddPrintJob(c, job).catalog;
    ReplayAdvancesJobs(admitted, calls);
    assert job.id in admitted.printJobs;
  }

  // ---------------------------------------------------------------------
  // Spool weights
  // ---------------------------------------------------------------------

  /** A spool's record changes only in its remaining weight, and only when a job on it reaches `Done`. */
  lemma PerformSpoolWeights(c: Catalog, call: Call, fid: string)
    requires fid in c.filaments
    ensures var after := Perform(c, call).catalog;
      && fid in after.filaments
      && after.filaments[fid] == c.filaments[fid].(remainingWeightInGrams := after.filaments[fid].remainingWeightInGrams)
      && (after.filaments[fid] != c.filaments[fid] ==>
            && call.UpdateStatusCall? && call.newStatus == Done
            && call.jobId in c.printJobs
            && c.printJobs[call.jobId].filamentId == fid
            && after.filaments[fid].remainingWeightInGrams ==
                 c.filaments[fid].remainingWeightInGrams - c.printJobs[call.jobId].printWeightInGrams)
  {
  }

  ghost predicate WeightsNonNegative(c: Catalog) {
    forall id :: id in c.printJobs ==> c.printJobs[id].printWeightInGrams >= 0
  }

  ghost predicate CallsAddNonNegative(calls: seq<Call>) {
    forall i :: 0 <= i < |calls| && calls[i].AddPrintJobCall? ==> calls[i].job.printWeightInGrams >= 0
  }

  /** When no job has a negative print weight, no spool ever gains weight. */
  lemma {:induction false} ReplayNeverRefills(c: Catalog, calls: seq<Call>, fid: string)
    requires fid in c.filaments
    requires WeightsNonNegative(c) && CallsAddNonNegative(calls)
    ensures var last := Replay(c, calls);
      fid in last.filaments && last.filaments[fid].remainingWeightInGrams <= c.filaments[fid].remainingWeightInGrams
    decreases |calls|
  {
    if calls != [] {
      var next := Perform(c, calls[0]).catalog;
      PerformSpoolWeights(c, calls[0], fid);
      assert WeightsNonNegative(next) by {
        assert calls[0].AddPrintJobCall? ==> calls[0].job.printWeightInGrams >= 0;
      }
      assert CallsAddNonNegative(calls[1..]) by {
        forall i | 0 <= i < |calls[1..]| && calls[1..][i].AddPrintJobCall?
          ensures calls[1..][i].job.printWeightInGrams >= 0
        {
          assert calls[1..][i] == calls[i + 1];
        }
      }
      ReplayNeverRefills(next, calls[1..], fid);
    }
  }

  /** A job admitted with a negative print weight puts weight back on its spool when it is done. */
  lemma NegativeWeightRefills(c: Catalog, jobId: string)
    requires jobId in c.printJobs && c.printJobs[jobId].status == Running
    requires c.printJobs[jobId].filamentId in c.filaments
    requires c.printJobs[jobId].printWeightInGrams < 0
    ensures var fid := c.printJobs[jobId].filamentId;
      var after := UpdatePrintJobStatus(c, jobId, Done);
      after.outcome.Pass? &&
      after.catalog.filaments[fid].remainingWeightInGrams > c.filaments[fid].remainingWeightInGrams
  {
  }

  /** Loading a snapshot taken from `c` gives back `c`, whatever the store held before. */
  lemma SnapshotRoundTrip(c: Catalog, previous: Catalog)
    ensures Deserialize(previous, Encode(c)) == Step(c, Pass)
  {
  }

  // ---------------------------------------------------------------------
  // Two concrete runs
  // ---------------------------------------------------------------------

  const P1 := Printer("P1", "Prusa", "MK4")
  const F1 := Filament("F1", PLA, "black", 1000, 1000)

  function JobOn(id: string, grams: int): PrintJob {
    PrintJob(id, "P1", "F1", id + ".gcode", grams, Queued)
  }

  /**
   * One 400 g job on a fresh 1000 g spool: it runs and completes, leaving
   * 600 g; moving it back to Running is then rejected and the spool keeps 600 g.
   */
  lemma CompletedJobScenario()
    ensures var c0 := AddPrintJob(AddFilament(AddPrinter(Empty, P1).catalog, F1).catalog, JobOn("J1", 400));
      var c1 := UpdatePrintJobStatus(c0.catalog, "J1", Running);
      var c2 := UpdatePrintJobStatus(c1.catalog, "J1", Done);
      var c3 := UpdatePrintJobStatus(c2.catalog, "J1", Running);
      && c0.outcome.Pass? && c1.outcome.Pass? && c2.outcome.Pass?
      && c2.catalog.filaments["F1"].remainingWeightInGrams == 600
      && c3.outcome == Fail(InvalidTransition(Running))
      && c3.catalog.filaments["F1"].remainingWeightInGrams == 600
  {
    var c0 := AddPrintJob(AddFilament(AddPrinter(Empty, P1).catalog, F1).catalog, JobOn("J1", 400));
    assert c0.catalog.printJobs["J1"].status == Queued;
  }

  /**
   * Two 700 g jobs admitted against the same 1000 g spool before either is
   * done both pass the weight check; completing both leaves -400 g.
   */
  lemma OverdrawScenario()
    ensures var calls := [
        AddPrinterCall(P1), AddFilamentCall(F1),
        AddPrintJobCall(JobOn("J1", 700)), AddPrintJobCall(JobOn("J2", 700)),
        UpdateStatusCall("J1", Running), UpdateStatusCall("J1", Done),
        UpdateStatusCall("J2", Running), UpdateStatusCall("J2", Done)];
      var last := Replay(Empty, calls);
      "F1" in last.filaments && last.filaments["F1"].remainingWeightInGrams == -400
  {
    var calls := [
        AddPrinterCall(P1), AddFilamentCall(F1),
        AddPrintJobCall(JobOn("J1", 700)), AddPrintJobCall(JobOn("J2", 700)),
        UpdateStatusCall("J1", Running), UpdateStatusCall("J1", Done),
        UpdateStatusCall("J2", Running), UpdateStatusCall("J2", Done)];
    var c1 := Perform(Empty, calls[0]).catalog;
    var c2 := Perform(c1, calls[1]).catalog;
    var c3 := Perform(c2, calls[2]).catalog;
    var c4 := Perform(c3, calls[3]).catalog;
    var c5 := Perform(c4, calls[4]).catalog;
    var c6 := Perform(c5, calls[5]).catalog;
    var c7 := Perform(c6, calls[6]).catalog;
    var c8 := Perform(c7, calls[7]).catalog;
    assert c4.printJobs["J1"] == JobOn("J1", 700) && c4.printJobs["J2"] == JobOn("J2", 700);
    assert c6.filaments["F1"].remainingWeightInGrams == 300;
    assert c8.filaments["F1"].remainingWeightInGrams == -400;
    assert Replay(c8, calls[8..]) == c8;
    assert Replay(c7, calls[7..]) == c8;
    assert Replay(c6, calls[6..]) == c8;
    assert Replay(c5, calls[5..]) == c8;
    assert Replay(c4, calls[4..]) == c8;
    assert Replay(c3, calls[3..]) == c8;
    assert Replay(c2, calls[2..]) == c8;
    assert Replay(c1, calls[1..]) == c8;
  }
}
