/**
 * internal/store/raft_store.go: the validating store, an object whose three
 * maps its methods update in place. Each method is proved against the
 * matching function of StoreSpec.
 */
module Store {
  import opened Wrappers
  import opened Models
  import opened Catalog
  import StoreSpec

  type StoreError = StoreSpec.StoreError

  class RaftStore {
    var printers: map<string, Printer>
    var filaments: map<string, Filament>
    var printJobs: map<string, PrintJob>

    /** The store's three maps as one catalog value. */
    function State(): Catalog
      reads this
    {
      Catalog(printers, filaments, printJobs)
    }

    /** NewRaftStore: three empty maps. */
    constructor ()
      ensures State() == Empty
    {
      printers, filaments, printJobs := map[], map[], map[];
    }

    method AddPrinter(printer: Printer) returns (err: Outcome<StoreError>)
      modifies this
      ensures StoreSpec.Step(State(), err) == StoreSpec.AddPrinter(old(State()), printer)
    {
      if printer.id in printers {
        return Fail(StoreSpec.PrinterExists(printer.id));
      }
      printers := printers[printer.id := printer];
      return Pass;
    }

    method GetPrinters() returns (xs: seq<Printer>)
      ensures multiset(xs) == ValuesOf(printers)
      ensures |xs| == |printers|
    {
      xs := Collect(printers);
    }

    method AddFilament(filament: Filament) returns (err: Outcome<StoreError>)
      modifies this
      ensures StoreSpec.Step(State(), err) == StoreSpec.AddFilament(old(State()), filament)
    {
      if filament.id in filaments {
        return Fail(StoreSpec.FilamentExists(filament.id));
      }
      filaments := filaments[filament.id := filament];
      return Pass;
    }

    method GetFilaments() returns (xs: seq<Filament>)
      ensures multiset(xs) == ValuesOf(filaments)
      ensures |xs| == |filaments|
    {
      xs := Collect(filaments);
    }

    method AddPrintJob(job: PrintJob) returns (err: Outcome<StoreError>)
      modifies this
      ensures StoreSpec.Step(State(), err) == StoreSpec.AddPrintJob(old(State()), job)
    {
      if job.printerId !in printers {
        return Fail(StoreSpec.PrinterMissing(job.printerId));
      }
      if job.filamentId !in filaments {
        return Fail(StoreSpec.FilamentMissing(job.filamentId));
      }
      var filament := filaments[job.filamentId];
      if job.printWeightInGrams > filament.remainingWeightInGrams {
        return Fail(StoreSpec.InsufficientFilament(job.printWeightInGrams, filament.remainingWeightInGrams));
      }
      if job.id in printJobs {
        return Fail(StoreSpec.PrintJobExists(job.id));
      }
      printJobs := printJobs[job.id := job];
      return Pass;
    }

    method GetPrintJobs() returns (xs: seq<PrintJob>)
      ensures multiset(xs) == ValuesOf(printJobs)
      ensures |xs| == |printJobs|
    {
      xs := Collect(printJobs);
    }

    method UpdatePrintJobStatus(jobId: string, newStatus: PrintJobStatus) returns (err: Outcome<StoreError>)
      modifies this
      ensures StoreSpec.Step(State(), err) == StoreSpec.UpdatePrintJobStatus(old(State()), jobId, newStatus)
    {
      if jobId !in printJobs {
        return Fail(StoreSpec.PrintJobNotFound(jobId));
      }
      var job := printJobs[jobId];
      match newStatus {
        case Running =>
          if job.status != Queued {
            return Fail(StoreSpec.InvalidTransition(Running));
          }
        case Done =>
          if job.status != Running {
            return Fail(StoreSpec.InvalidTransition(Done));
          }
          if job.filamentId !in filaments {
            return Fail(StoreSpec.FilamentForJobNotFound(jobId));
          }
          var filament := filaments[job.filamentId];
          filaments := filaments[job.filamentId :=
            filament.(remainingWeightInGrams := filament.remainingWeightInGrams - job.printWeightInGrams)];
        case Cancelled =>
          if job.status != Queued && job.status != Running {
            return Fail(StoreSpec.InvalidTransition(Cancelled));
          }
        case _ =>
          return Fail(StoreSpec.InvalidStatus(newStatus));
      }
      printJobs := printJobs[jobId := job.(status := newStatus)];
      return Pass;
    }

    /** The snapshot bytes decode back to exactly the current maps. */
    method Serialize() returns (blob: SnapshotBlob)
      ensures Decode(blob) == Some(State())
    {
      blob := SnapshotJson(printers, filaments, printJobs);
    }

    method Deserialize(blob: SnapshotBlob) returns (err: Outcome<StoreError>)
      modifies this
      ensures StoreSpec.Step(State(), err) == StoreSpec.Deserialize(old(State()), blob)
    {
      var decoded := Decode(blob);
      if decoded.None? {
        return Fail(StoreSpec.SnapshotUnmarshalError);
      }
      printers := decoded.value.printers;
      filaments := decoded.value.filaments;
      printJobs := decoded.value.printJobs;
      return Pass;
    }
  }
}
