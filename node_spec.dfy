/**
 * The raft state machine of internal/raft/raftnode.go, one log entry at a
 * time: three upper-case command tags, each an unchecked upsert into one
 * map; everything else, undecodable data included, is a silent no-op.
 */
module NodeSpec {
  import opened Wrappers
  import opened Models
  import opened Catalog

  const AddPrinterType := "ADD_PRINTER"
  const AddFilamentType := "ADD_FILAMENT"
  const AddPrintJobType := "ADD_PRINT_JOB"

  const CommandTypes := {AddPrinterType, AddFilamentType, AddPrintJobType}

  /** Whether `payload` decodes as the record that command tag `kind` expects. */
  predicate PayloadFits(kind: string, payload: Payload) {
    || (kind == AddPrinterType && payload.PrinterJson?)
    || (kind == AddFilamentType && payload.FilamentJson?)
    || (kind == AddPrintJobType && payload.PrintJobJson?)
  }

  /**
   * Applies one log entry (raftnode.go RaftStore.Apply). The response is nil
   * on every path; only a decodable entry with one of the three tags and a
   * fitting payload changes the catalog.
   */
  function Apply(c: Catalog, data: LogData): (r: Applied)
    ensures r.response == Pass
    ensures !(data.CommandJson? && PayloadFits(data.kind, data.payload)) ==> r.catalog == c
    ensures data.CommandJson? && PayloadFits(data.kind, data.payload) && data.payload.PrinterJson? ==>
      && Upserted(c.printers, r.catalog.printers, data.payload.printer.id, data.payload.printer)
      && r.catalog.filaments == c.filaments && r.catalog.printJobs == c.printJobs
    ensures data.CommandJson? && PayloadFits(data.kind, data.payload) && data.payload.FilamentJson? ==>
      && Upserted(c.filaments, r.catalog.filaments, data.payload.filament.id, data.payload.filament)
      && r.catalog.printers == c.printers && r.catalog.printJobs == c.printJobs
    ensures data.CommandJson? && PayloadFits(data.kind, data.payload) && data.payload.PrintJobJson? ==>
      && Upserted(c.printJobs, r.catalog.printJobs, data.payload.job.id, data.payload.job)
      && r.catalog.printers == c.printers && r.catalog.filaments == c.filaments
  {
    match data
    case MalformedCommand => Applied(c, Pass)
    case CommandJson(kind, payload) =>
      if kind == AddPrinterType then
        match DecodePrinter(payload)
        case None => Applied(c, Pass)
        case Some(p) => Applied(c.(printers := c.printers[p.id := p]), Pass)
      else if kind == AddFilamentType then
        match DecodeFilament(payload)
        case None => Applied(c, Pass)
        case Some(f) => Applied(c.(filaments := c.filaments[f.id := f]), Pass)
      else if kind == AddPrintJobType then
        match DecodePrintJob(payload)
        case None => Applied(c, Pass)
        case Some(j) => Applied(c.(printJobs := c.printJobs[j.id := j]), Pass)
      else Applied(c, Pass)
  }

  /** The catalog after applying `log` in order. */
  function ApplyAll(c: Catalog, log: seq<LogData>): Catalog
    decreases |log|
  {
    if log == [] then c else ApplyAll(Apply(c, log[0]).catalog, log[1..])
  }

  /** Whether some entry of `log` can change the catalog at all. */
  predicate HasEffectiveEntry(log: seq<LogData>) {
    exists i :: 0 <= i < |log| && log[i].CommandJson? && PayloadFits(log[i].kind, log[i].payload)
  }

  /** A log none of whose entries is a decodable command with a known tag leaves the catalog as it was. */
  lemma {:induction false} IneffectiveLogIsNoOp(c: Catalog, log: seq<LogData>)
    requires !HasEffectiveEntry(log)
    ensures ApplyAll(c, log) == c
    decreases |log|
  {
    if log != [] {
      assert !(log[0].CommandJson? && PayloadFits(log[0].kind, log[0].payload));
      assert !HasEffectiveEntry(log[1..]) by {
        forall i | 0 <= i < |log[1..]|
          ensures !(log[1..][i].CommandJson? && PayloadFits(log[1..][i].kind, log[1..][i].payload))
        {
          assert log[1..][i] == log[i + 1];
        }
      }
      IneffectiveLogIsNoOp(c, log[1..]);
    }
  }

  /** Upserts only: no key ever leaves any of the three maps. */
  lemma {:induction false} ApplyAllKeepsKeys(c: Catalog, log: seq<LogData>)
    ensures var last := ApplyAll(c, log);
      && c.printers.Keys <= last.printers.Keys
      && c.filaments.Keys <= last.filaments.Keys
      && c.printJobs.Keys <= last.printJobs.Keys
    decreases |log|
  {
    if log != [] {
      ApplyAllKeepsKeys(Apply(c, log[0]).catalog, log[1..]);
    }
  }

  /** Any other tag, a status update among them, is answered with nil and changes nothing. */
  lemma UnknownTagsIgnored(c: Catalog, payload: Payload, kind: string)
    requires kind !in CommandTypes
    ensures Apply(c, CommandJson(kind, payload)) == Applied(c, Pass)
  {
  }
}
