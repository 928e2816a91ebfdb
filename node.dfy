/**
 * internal/raft/raftnode.go: RaftStore, the object raft applies log entries
 * to in that file. Its methods update the three maps in place and are proved
 * against NodeSpec; its reads list the maps' values.
 */
module Node {
  import opened Wrappers
  import opened Models
  import opened Catalog
  import NodeSpec

  class RaftStore {
    var printers: map<string, Printer>
    var filaments: map<string, Filament>
    var printJobs: map<string, PrintJob>

    function State(): Catalog
      reads this
    {
      Catalog(printers, filaments, printJobs)
    }

    /** NewRaftStore: three empty maps. */
    constructor ()
      ensures State() == Empty
    {
      printers, filaments, printJobs := map[], map[], map[];
    }

    method Apply(data: LogData) returns (response: Outcome<FsmError>)
      modifies this
      ensures Applied(State(), response) == NodeSpec.Apply(old(State()), data)
    {
      if data.MalformedCommand? {
        return Pass;
      }
      var kind := data.kind;
      if kind == NodeSpec.AddPrinterType {
        var printer := DecodePrinter(data.payload);
        if printer.None? {
          return Pass;
        }
        printers := printers[printer.value.id := printer.value];
      } else if kind == NodeSpec.AddFilamentType {
        var filament := DecodeFilament(data.payload);
        if filament.None? {
          return Pass;
        }
        filaments := filaments[filament.value.id := filament.value];
      } else if kind == NodeSpec.AddPrintJobType {
        var job := DecodePrintJob(data.payload);
        if job.None? {
          return Pass;
        }
        printJobs := printJobs[job.value.id := job.value];
      }
      return Pass;
    }

    /** The snapshot's bytes decode back to exactly the current maps. */
    method Snapshot() returns (blob: SnapshotBlob)
      ensures Decode(blob) == Some(State())
    {
      blob := SnapshotJson(printers, filaments, printJobs);
    }

    method Restore(blob: SnapshotBlob) returns (err: Outcome<FsmError>)
      modifies this
      ensures Applied(State(), err) == RestoreSnapshot(old(State()), blob)
    {
      var decoded := Decode(blob);
      if decoded.None? {
        return Fail(SnapshotDecodeError);
      }
      printers := decoded.value.printers;
      filaments := decoded.value.filaments;
      printJobs := decoded.value.printJobs;
      return Pass;
    }

    method GetPrinters() returns (xs: seq<Printer>)
      ensures multiset(xs) == ValuesOf(printers)
      ensures |xs| == |printers|
    {
      xs := Collect(printers);
    }

    method GetFilaments() returns (xs: seq<Filament>)
      ensures multiset(xs) == ValuesOf(filaments)
      ensures |xs| == |filaments|
    {
      xs := Collect(filaments);
    }

    method GetPrintJobs() returns (xs: seq<PrintJob>)
      ensures multiset(xs) == ValuesOf(printJobs)
      ensures |xs| == |printJobs|
    {
      xs := Collect(printJobs);
    }
  }
}
