/**
 * internal/raft/fsm.go: RaftFSM, the object raft applies log entries to.
 * Its methods update the three maps in place and are proved against FsmSpec.
 */
module Fsm {
  import opened Wrappers
  import opened Models
  import opened Catalog
  import FsmSpec

  class RaftFSM {
    var printers: map<string, Printer>
    var filaments: map<string, Filament>
    var printJobs: map<string, PrintJob>

    function State(): Catalog
      reads this
    {
      Catalog(printers, filaments, printJobs)
    }

    /** NewRaftFSM: three empty maps. */
    constructor ()
      ensures State() == Empty
    {
      printers, filaments, printJobs := map[], map[], map[];
    }

    method Apply(data: LogData) returns (response: Outcome<FsmError>)
      modifies this
      ensures Applied(State(), response) == FsmSpec.Apply(old(State()), data)
    {
      if data.MalformedCommand? {
        return Fail(CommandDecodeError);
      }
      var kind := data.kind;
      if kind == FsmSpec.AddPrinterType {
        var printer := DecodePrinter(data.payload);
        if printer.None? {
          return Fail(PayloadDecodeError);
        }
        printers := printers[printer.value.id := printer.value];
      } else if kind == FsmSpec.AddFilamentType {
        var filament := DecodeFilament(data.payload);
        if filament.None? {
          return Fail(PayloadDecodeError);
        }
        filaments := filaments[filament.value.id := filament.value];
      } else if kind == FsmSpec.AddPrintJobType {
        var job := DecodePrintJob(data.payload);
        if job.None? {
          return Fail(PayloadDecodeError);
        }
        printJobs := printJobs[job.value.id := job.value];
      } else if kind == FsmSpec.UpdatePrintJobType {
        var job := DecodePrintJob(data.payload);
        if job.None? {
          return Fail(PayloadDecodeError);
        }
        printJobs := printJobs[job.value.id := job.value];
      } else {
        return Fail(UnknownCommandType(kind));
      }
      return Pass;
    }

    /** Snapshot followed by Persist: bytes that decode back to the current maps. */
    method Snapshot() returns (blob: SnapshotBlob)
      ensures Decode(blob) == Some(State())
    {
      blob := SnapshotJson(printers, filaments, printJobs);
    }

    method Restore(blob: SnapshotBlob) returns (err: Outcome<FsmError>)
      modifies this
      ensures Applied(State(), err) == RestoreSnapshot(old(State()), blob)
    {
      var decoded := Decode(blob);
      if decoded.None? {
        return Fail(SnapshotDecodeError);
      }
      printers := decoded.value.printers;
      filaments := decoded.value.filaments;
      printJobs := decoded.value.printJobs;
      return Pass;
    }
  }
}
