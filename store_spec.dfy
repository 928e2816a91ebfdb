/**
 * The validating catalog of internal/store/raft_store.go, one call at a time,
 * as functions from the catalog before the call to the catalog after it and
 * the `error` the call returns. Every rejected call leaves the catalog as it was.
 */
module StoreSpec {
  import opened Wrappers
  import opened Models
  import opened Catalog

  /** The errors `fmt.Errorf` builds in raft_store.go, one constructor per message. */
  datatype StoreError =
    | PrinterExists(id: string)
    | FilamentExists(id: string)
    | PrinterMissing(id: string)
    | FilamentMissing(id: string)
    | InsufficientFilament(requested: int, available: int)
    | PrintJobExists(id: string)
    | PrintJobNotFound(id: string)
    | InvalidTransition(target: PrintJobStatus)
    | FilamentForJobNotFound(jobId: string)
    | InvalidStatus(status: PrintJobStatus)
    | SnapshotUnmarshalError

  datatype Step = Step(catalog: Catalog, outcome: Outcome<StoreError>)

  /** `after` is `before` with one new key `k` holding `v`; every old entry is kept. */
  ghost predicate AddsOnly<V>(before: map<string, V>, after: map<string, V>, k: string, v: V) {
    && k !in before
    && after.Keys == before.Keys + {k}
    && after[k] == v
    && forall j :: j in before ==> after[j] == before[j]
  }

  /** Only job `id` changes, and only its status, which becomes `s`. */
  ghost predicate OnlyStatusChanged(before: map<string, PrintJob>, after: map<string, PrintJob>, id: string, s: PrintJobStatus) {
    && id in before
    && after.Keys == before.Keys
    && after[id] == before[id].(status := s)
    && forall j :: j in before && j != id ==> after[j] == before[j]
  }

  /** Only spool `fid` changes, and only its remaining weight, which drops by `grams`. */
  ghost predicate OnlyRemainingLowered(before: map<string, Filament>, after: map<string, Filament>, fid: string, grams: int) {
    && fid in before
    && after.Keys == before.Keys
    && after[fid] == before[fid].(remainingWeightInGrams := before[fid].remainingWeightInGrams - grams)
    && forall j :: j in before && j != fid ==> after[j] == before[j]
  }

  /** Adds a printer unless its id is taken (raft_store.go AddPrinter). */
  function AddPrinter(c: Catalog, printer: Printer): (r: Step)
    ensures r.outcome.Pass? <==> printer.id !in c.printers
    ensures r.outcome.Fail? ==> r.catalog == c && r.outcome.error == PrinterExists(printer.id)
    ensures r.outcome.Pass? ==>
      && AddsOnly(c.printers, r.catalog.printers, printer.id, printer)
      && r.catalog.filaments == c.filaments
      && r.catalog.printJobs == c.printJobs
  {
    if printer.id in c.printers then Step(c, Fail(PrinterExists(printer.id)))
    else Step(c.(printers := c.printers[printer.id := printer]), Pass)
  }

  /** Adds a spool unless its id is taken; its weights are stored as given (raft_store.go AddFilament). */
  function AddFilament(c: Catalog, filament: Filament): (r: Step)
    ensures r.outcome.Pass? <==> filament.id !in c.filaments
    ensures r.outcome.Fail? ==> r.catalog == c && r.outcome.error == FilamentExists(filament.id)
    ensures r.outcome.Pass? ==>
      && AddsOnly(c.filaments, r.catalog.filaments, filament.id, filament)
      && r.catalog.printers == c.printers
      && r.catalog.printJobs == c.printJobs
  {
    if filament.id in c.filaments then Step(c, Fail(FilamentExists(filament.id)))
    else Step(c.(filaments := c.filaments[filament.id := filament]), Pass)
  }

  /** Whether a print job passes all four admission checks of AddPrintJob. */
  ghost predicate Admissible(c: Catalog, job: PrintJob) {
    && job.printerId in c.printers
    && job.filamentId in c.filaments
    && job.printWeightInGrams <= c.filaments[job.filamentId].remainingWeightInGrams
    && job.id !in c.printJobs
  }

  /**
   * Adds a print job, verbatim and with whatever status it carries, after
   * checking in order: printer exists, spool exists, the spool's remaining
   * weight covers the job, the job id is new (raft_store.go AddPrintJob).
   */
  function AddPrintJob(c: Catalog, job: PrintJob): (r: Step)
    ensures r.outcome.Pass? <==> Admissible(c, job)
    ensures r.outcome.Fail? ==> r.catalog == c
    ensures r.outcome.Pass? ==>
      && AddsOnly(c.printJobs, r.catalog.printJobs, job.id, job)
      && r.catalog.printers == c.printers
      && r.catalog.filaments == c.filaments
  {
    if job.printerId !in c.printers then Step(c, Fail(PrinterMissing(job.printerId)))
    else if job.filamentId !in c.filaments then Step(c, Fail(FilamentMissing(job.filamentId)))
    else if job.printWeightInGrams > c.filaments[job.filamentId].remainingWeightInGrams then
      Step(c, Fail(InsufficientFilament(job.printWeightInGrams, c.filaments[job.filamentId].remainingWeightInGrams)))
    else if job.id in c.printJobs then Step(c, Fail(PrintJobExists(job.id)))
    else Step(c.(printJobs := c.printJobs[job.id := job]), Pass)
  }

  /**
   * Moves job `jobId` to `newStatus` along the status graph; reaching `Done`
   * takes the job's print weight off its spool, with no lower bound
   * (raft_store.go UpdatePrintJobStatus).
   */
  function UpdatePrintJobStatus(c: Catalog, jobId: string, newStatus: PrintJobStatus): (r: Step)
    ensures r.outcome.Pass? <==>
      && jobId in c.printJobs
      && c.printJobs[jobId].IsValidStatusTransition(newStatus)
      && (newStatus == Done ==> c.printJobs[jobId].filamentId in c.filaments)
    ensures r.outcome.Fail? ==> r.catalog == c
    ensures r.outcome.Pass? ==>
      && r.catalog.printers == c.printers
      && OnlyStatusChanged(c.printJobs, r.catalog.printJobs, jobId, newStatus)
      && (newStatus != Done ==> r.catalog.filaments == c.filaments)
      && (newStatus == Done ==>
            OnlyRemainingLowered(c.filaments, r.catalog.filaments,
                                 c.printJobs[jobId].filamentId, c.printJobs[jobId].printWeightInGrams))
  {
    if jobId !in c.printJobs then Step(c, Fail(PrintJobNotFound(jobId)))
    else
      var job := c.printJobs[jobId];
      var advanced := c.(printJobs := c.printJobs[jobId := job.(status := newStatus)]);
      match newStatus
      case Running =>
        if job.status != Queued then Step(c, Fail(InvalidTransition(Running)))
        else Step(advanced, Pass)
      case Done =>
        if job.status != Running then Step(c, Fail(InvalidTransition(Done)))
        else if job.filamentId !in c.filaments then Step(c, Fail(FilamentForJobNotFound(jobId)))
        else
          var spool := c.filaments[job.filamentId];
          var used := spool.(remainingWeightInGrams := spool.remainingWeightInGrams - job.printWeightInGrams);
          Step(advanced.(filaments := c.filaments[job.filamentId := used]), Pass)
      case Cancelled =>
        if job.status != Queued && job.status != Running then Step(c, Fail(InvalidTransition(Cancelled)))
        else Step(advanced, Pass)
      case _ => Step(c, Fail(InvalidStatus(newStatus)))
  }

  /** Replaces all three maps with a decoded snapshot, or fails and changes nothing (raft_store.go Deserialize). */
  function Deserialize(c: Catalog, blob: SnapshotBlob): (r: Step)
    ensures blob.UndecodableSnapshot? ==> r == Step(c, Fail(SnapshotUnmarshalError))
    ensures blob.SnapshotJson? ==> r.outcome.Pass? && Encode(r.catalog) == blob
  {
    match Decode(blob)
    case None => Step(c, Fail(SnapshotUnmarshalError))
    case Some(restored) => Step(restored, Pass)
  }
}
