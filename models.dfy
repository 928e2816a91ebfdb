/**
 * The catalog's entity records (internal/models): printers, filament spools
 * and print jobs, and the print-job status graph.
 */
module Models {

  datatype Printer = Printer(id: string, company: string, model: string)

  datatype FilamentType = PLA | PETG | ABS | TPU

  /** Weights are Go `int`s; nothing keeps `remainingWeightInGrams` within `0..totalWeightInGrams`. */
  datatype Filament = Filament(
    id: string,
    filamentType: FilamentType,
    color: string,
    totalWeightInGrams: int,
    remainingWeightInGrams: int)

  /** Status text that is none of the four named statuses. */
  type OtherText = s: string | s !in {"Queued", "Running", "Done", "Cancelled"} witness ""

  /** A status is a Go string: one of the four named values, or any other text. */
  datatype PrintJobStatus = Queued | Running | Done | Cancelled | Unrecognised(text: OtherText)

  /** The four edges of the status graph, stated independently of the switch below. */
  const LegalEdges: set<(PrintJobStatus, PrintJobStatus)> :=
    {(Queued, Running), (Running, Done), (Queued, Cancelled), (Running, Cancelled)}

  predicate IsTerminal(s: PrintJobStatus) {
    s == Done || s == Cancelled
  }

  /** How far along the graph a status is; unrecognised text ranks with the terminal statuses. */
  function Rank(s: PrintJobStatus): nat {
    match s
    case Queued => 0
    case Running => 1
    case _ => 2
  }

  datatype PrintJob = PrintJob(
    id: string,
    printerId: string,
    filamentId: string,
    filePath: string,
    printWeightInGrams: int,
    status: PrintJobStatus)
  {
    /** Whether this job may move from its current status to `newStatus`. */
    predicate IsValidStatusTransition(newStatus: PrintJobStatus): (ok: bool)
      ensures ok <==> (status, newStatus) in LegalEdges
    {
      match newStatus
      case Running => status == Queued
      case Done => status == Running
      case Cancelled => status == Queued || status == Running
      case _ => false
    }
  }

  /** A target of `Running` is accepted exactly from `Queued`. */
  lemma RunningOnlyFromQueued(job: PrintJob)
    ensures job.IsValidStatusTransition(Running) <==> job.status == Queued
  {
  }

  /** A target of `Done` is accepted exactly from `Running`. */
  lemma DoneOnlyFromRunning(job: PrintJob)
    ensures job.IsValidStatusTransition(Done) <==> job.status == Running
  {
  }

  /** A target of `Cancelled` is accepted exactly from `Queued` or `Running`. */
  lemma CancelledOnlyFromLive(job: PrintJob)
    ensures job.IsValidStatusTransition(Cancelled) <==> job.status in {Queued, Running}
  {
  }

  /** `Queued` and every unrecognised string are never valid targets. */
  lemma NoOtherTargets(job: PrintJob, target: PrintJobStatus)
    requires target !in {Running, Done, Cancelled}
    ensures !job.IsValidStatusTransition(target)
  {
  }

  /** `Done` and `Cancelled` have no successors, and no status moves to itself. */
  lemma TerminalAndIrreflexive(job: PrintJob, target: PrintJobStatus)
    ensures IsTerminal(job.status) ==> !job.IsValidStatusTransition(target)
    ensures !job.IsValidStatusTransition(job.status)
  {
  }

  /** Every valid transition strictly raises the rank, so the graph has no cycles. */
  lemma TransitionRaisesRank(job: PrintJob, target: PrintJobStatus)
    ensures job.IsValidStatusTransition(target) ==> Rank(job.status) < Rank(target)
  {
  }

  /** Following valid transitions, a job makes at most two moves: no chain of three exists. */
  lemma AtMostTwoMoves(s0: PrintJobStatus, s1: PrintJobStatus, s2: PrintJobStatus, s3: PrintJobStatus)
    requires (s0, s1) in LegalEdges && (s1, s2) in LegalEdges
    ensures (s2, s3) !in LegalEdges
  {
    var j0 := PrintJob("", "", "", "", 0, s0);
    var j1 := j0.(status := s1);
    var j2 := j0.(status := s2);
    TransitionRaisesRank(j0, s1);
    TransitionRaisesRank(j1, s2);
    TransitionRaisesRank(j2, s3);
  }
}
