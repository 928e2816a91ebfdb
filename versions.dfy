/**
 * How the three versions of the catalog state machine relate: where the
 * unchecked raft machines agree with the validating store, and where they
 * part ways (duplicates, status updates, spool weights, command tags).
 */
module Versions {
  import opened Wrappers
  import opened Models
  import opened Catalog
  import StoreSpec
  import FsmSpec
  import NodeSpec

  /** A printer the store accepts is stored the same way by fsm.go's `add_printer`. */
  lemma FsmAgreesOnNewPrinter(c: Catalog, p: Printer)
    requires StoreSpec.AddPrinter(c, p).outcome.Pass?
    ensures FsmSpec.Apply(c, CommandJson(FsmSpec.AddPrinterType, PrinterJson(p))) ==
            Applied(StoreSpec.AddPrinter(c, p).catalog, Pass)
  {
  }

  /** A spool the store accepts is stored the same way by fsm.go's `add_filament`. */
  lemma FsmAgreesOnNewFilament(c: Catalog, f: Filament)
    requires StoreSpec.AddFilament(c, f).outcome.Pass?
    ensures FsmSpec.Apply(c, CommandJson(FsmSpec.AddFilamentType, FilamentJson(f))) ==
            Applied(StoreSpec.AddFilament(c, f).catalog, Pass)
  {
  }

  /** A job the store admits is stored the same way by fsm.go's `add_print_job`. */
  lemma FsmAgreesOnAdmittedJob(c: Catalog, j: PrintJob)
    requires StoreSpec.AddPrintJob(c, j).outcome.Pass?
    ensures FsmSpec.Apply(c, CommandJson(FsmSpec.AddPrintJobType, PrintJobJson(j))) ==
            Applied(StoreSpec.AddPrintJob(c, j).catalog, Pass)
  {
  }

  /**
   * Every print job the store rejects (unknown printer or spool, too heavy,
   * duplicate id) is accepted by fsm.go, which then holds it under its id.
   */
  lemma FsmAcceptsWhatStoreRejects(c: Catalog, j: PrintJob)
    requires StoreSpec.AddPrintJob(c, j).outcome.Fail?
    ensures var r := FsmSpec.Apply(c, CommandJson(FsmSpec.AddPrintJobType, PrintJobJson(j)));
      r.response.Pass? && r.catalog.printJobs[j.id] == j
  {
  }

  /**
   * A status move the store accepts, replayed on fsm.go as `update_print_job`
   * whose payload is the full stored record with its new status, gives the
   * same printers and jobs; the spools agree unless the move is to `Done`,
   * where fsm.go skips the decrement. (A payload carrying only the id and
   * the status would replace the stored record with one whose other fields
   * are empty.)
   */
  lemma FsmUpdateSkipsDecrement(c: Catalog, jobId: string, s: PrintJobStatus)
    requires StoreSpec.UpdatePrintJobStatus(c, jobId, s).outcome.Pass?
    ensures var stored := StoreSpec.UpdatePrintJobStatus(c, jobId, s).catalog;
      var moved := c.printJobs[jobId].(status := s);
      var applied := FsmSpec.Apply(c, CommandJson(FsmSpec.UpdatePrintJobType, PrintJobJson(moved)));
      && applied.response.Pass?
      && applied.catalog.printers == stored.printers
      && (moved.id == jobId ==> applied.catalog.printJobs == stored.printJobs)
      && applied.catalog.filaments == c.filaments
      && (s != Done ==> stored.filaments == c.filaments)
      && (s == Done && moved.printWeightInGrams != 0 ==> stored.filaments != applied.catalog.filaments)
  {
    var stored := StoreSpec.UpdatePrintJobStatus(c, jobId, s).catalog;
    var job := c.printJobs[jobId];
    if s == Done && job.printWeightInGrams != 0 {
      var fid := job.filamentId;
      assert stored.filaments[fid].remainingWeightInGrams != c.filaments[fid].remainingWeightInGrams;
    }
  }

  /** raftnode.go applies the three add commands exactly as fsm.go does under fsm.go's tags. */
  lemma NodeMatchesFsmOnAdds(c: Catalog, payload: Payload)
    ensures NodeSpec.Apply(c, CommandJson(NodeSpec.AddPrinterType, payload)).catalog ==
            FsmSpec.Apply(c, CommandJson(FsmSpec.AddPrinterType, payload)).catalog
    ensures NodeSpec.Apply(c, CommandJson(NodeSpec.AddFilamentType, payload)).catalog ==
            FsmSpec.Apply(c, CommandJson(FsmSpec.AddFilamentType, payload)).catalog
    ensures NodeSpec.Apply(c, CommandJson(NodeSpec.AddPrintJobType, payload)).catalog ==
            FsmSpec.Apply(c, CommandJson(FsmSpec.AddPrintJobType, payload)).catalog
  {
  }

  /**
   * The two raft versions share no command tag: a log written for one is
   * rejected as unknown by fsm.go, or silently dropped by raftnode.go.
   */
  lemma TagsDisjoint(c: Catalog, payload: Payload)
    ensures FsmSpec.CommandTypes !! NodeSpec.CommandTypes
    ensures forall kind :: kind in NodeSpec.CommandTypes ==>
      FsmSpec.Apply(c, CommandJson(kind, payload)) == Applied(c, Fail(UnknownCommandType(kind)))
    ensures forall kind :: kind in FsmSpec.CommandTypes ==>
      NodeSpec.Apply(c, CommandJson(kind, payload)) == Applied(c, Pass)
  {
  }

  /**
   * Wherever fsm.go reports an error for an entry that does not carry one of
   * raftnode.go's own tags, raftnode.go reports nil and leaves the catalog as it was.
   */
  lemma NodeSilentWhereFsmFails(c: Catalog, data: LogData)
    requires FsmSpec.Apply(c, data).response.Fail?
    requires !(data.CommandJson? && data.kind in NodeSpec.CommandTypes)
    ensures NodeSpec.Apply(c, data) == Applied(c, Pass)
  {
  }
}
