/**
 * What the three state machines share: the catalog of three id-keyed maps,
 * the list-all reads over a map, and the decoded shape of log entries and
 * snapshots (the JSON byte layout is abstracted away).
 */
module Catalog {
  import opened Models
  import opened Wrappers

  /** The printers, filaments and printJobs maps of one replica. */
  datatype Catalog = Catalog(
    printers: map<string, Printer>,
    filaments: map<string, Filament>,
    printJobs: map<string, PrintJob>)

  /** The state every constructor starts from: three empty maps. */
  const Empty := Catalog(map[], map[], map[])

  // ---------------------------------------------------------------------
  // Listing a map's values (the `Get*` loops)
  // ---------------------------------------------------------------------

  /** The keys of `m` under which `v` is stored. */
  function KeysWith<V(==)>(m: map<string, V>, v: V): set<string> {
    set k | k in m && m[k] == v
  }

  /** The values of `m`, one occurrence per key, with no order. */
  ghost function ValuesOf<V>(m: map<string, V>): multiset<V>
    decreases |m|
  {
    if |m| == 0 then multiset{}
    else
      var k :| k in m;
      assert (m - {k}).Keys == m.Keys - {k};
      multiset{m[k]} + ValuesOf(m - {k})
  }

  /** Each value occurs in `ValuesOf(m)` exactly as often as there are keys holding it. */
  lemma {:induction false} ValuesOfCount<V>(m: map<string, V>, v: V)
    ensures ValuesOf(m)[v] == |KeysWith(m, v)|
    decreases |m|
  {
    if |m| == 0 {
      assert KeysWith(m, v) == {};
    } else {
      var k :| k in m && ValuesOf(m) == multiset{m[k]} + ValuesOf(m - {k});
      assert (m - {k}).Keys == m.Keys - {k};
      ValuesOfCount(m - {k}, v);
      KeysWithRemove(m, k, v);
    }
  }

  /** Taking key `k` out of `m` takes exactly one occurrence of `m[k]` out of its values. */
  lemma KeysWithRemove<V>(m: map<string, V>, k: string, v: V)
    requires k in m
    ensures |KeysWith(m, v)| == |KeysWith(m - {k}, v)| + (if m[k] == v then 1 else 0)
  {
    var rest := KeysWith(m - {k}, v);
    assert k !in rest;
    if m[k] == v {
      assert KeysWith(m, v) == rest + {k};
    } else {
      assert KeysWith(m, v) == rest;
    }
  }

  /** Whichever key is taken out first, the remaining values are the same. */
  lemma ValuesOfSplit<V>(m: map<string, V>, k: string)
    requires k in m
    ensures ValuesOf(m) == multiset{m[k]} + ValuesOf(m - {k})
  {
    var whole, parts := ValuesOf(m), multiset{m[k]} + ValuesOf(m - {k});
    forall v
      ensures whole[v] == parts[v]
    {
      ValuesOfCount(m, v);
      ValuesOfCount(m - {k}, v);
      KeysWithRemove(m, k, v);
    }
    MultisetExt(whole, parts);
  }

  lemma MultisetExt<V>(a: multiset<V>, b: multiset<V>)
    requires forall v :: a[v] == b[v]
    ensures a == b
  {
  }

  /** There are as many values as keys, and they are exactly the map's values. */
  lemma {:induction false} ValuesOfShape<V>(m: map<string, V>)
    ensures |ValuesOf(m)| == |m|
    ensures forall v :: v in ValuesOf(m) <==> v in m.Values
    decreases |m|
  {
    if |m| != 0 {
      var k :| k in m && ValuesOf(m) == multiset{m[k]} + ValuesOf(m - {k});
      assert (m - {k}).Keys == m.Keys - {k};
      ValuesOfShape(m - {k});
      forall v ensures v in m.Values <==> v == m[k] || v in (m - {k}).Values {
        if v in m.Values {
          var j :| j in m && m[j] == v;
          if j != k { assert j in (m - {k}); }
        }
      }
    }
  }

  /**
   * Lists the values of `m` in an unspecified order, one per key: the
   * `for _, x := range m { xs = append(xs, x) }` loop of every `Get*`.
   */
  method Collect<V>(m: map<string, V>) returns (xs: seq<V>)
    ensures multiset(xs) == ValuesOf(m)
    ensures |xs| == |m|
  {
    xs := [];
    var rest := m;
    while |rest| != 0
      invariant multiset(xs) + ValuesOf(rest) == ValuesOf(m)
      invariant |xs| + |rest| == |m|
      decreases |rest|
    {
      var k :| k in rest;
      ValuesOfSplit(rest, k);
      assert (rest - {k}).Keys == rest.Keys - {k};
      xs := xs + [rest[k]];
      rest := rest - {k};
    }
  }

  // ---------------------------------------------------------------------
  // Snapshots: `{"printers": …, "filaments": …, "print_jobs": …}`
  // ---------------------------------------------------------------------

  /** Snapshot bytes, seen through the JSON decoder: the three maps, or bytes it rejects. */
  datatype SnapshotBlob =
    | SnapshotJson(printers: map<string, Printer>, filaments: map<string, Filament>, printJobs: map<string, PrintJob>)
    | UndecodableSnapshot

  function Encode(c: Catalog): SnapshotBlob {
    SnapshotJson(c.printers, c.filaments, c.printJobs)
  }

  function Decode(blob: SnapshotBlob): (r: Option<Catalog>)
    ensures r.None? <==> blob.UndecodableSnapshot?
  {
    match blob
    case SnapshotJson(p, f, j) => Some(Catalog(p, f, j))
    case UndecodableSnapshot => None
  }

  /** Decoding is the inverse of encoding. */
  lemma DecodeEncode(c: Catalog)
    ensures Decode(Encode(c)) == Some(c)
  {
  }

  // ---------------------------------------------------------------------
  // Log entries: `{"type": …, "payload": …}`
  // ---------------------------------------------------------------------

  /** A command's payload, seen through the JSON decoder: one record, or bytes it rejects. */
  datatype Payload =
    | PrinterJson(printer: Printer)
    | FilamentJson(filament: Filament)
    | PrintJobJson(job: PrintJob)
    | MalformedPayload

  /** A raft log entry's data: a command envelope, or bytes that do not decode as one. */
  datatype LogData = CommandJson(kind: string, payload: Payload) | MalformedCommand

  /** What the raft package's `Apply` and `Restore` can report: `error` values, or nil. */
  datatype FsmError =
    | CommandDecodeError
    | PayloadDecodeError
    | UnknownCommandType(kind: string)
    | SnapshotDecodeError

  /** The catalog after applying one log entry or snapshot, and the response given to raft. */
  datatype Applied = Applied(catalog: Catalog, response: Outcome<FsmError>)

  /**
   * Replaces all three maps with a decoded snapshot; bytes that do not
   * decode leave the catalog as it was (fsm.go and raftnode.go Restore).
   */
  function RestoreSnapshot(c: Catalog, blob: SnapshotBlob): (r: Applied)
    ensures blob.UndecodableSnapshot? ==> r == Applied(c, Fail(SnapshotDecodeError))
    ensures blob.SnapshotJson? ==> r.response.Pass? && Encode(r.catalog) == blob
  {
    match Decode(blob)
    case None => Applied(c, Fail(SnapshotDecodeError))
    case Some(restored) => Applied(restored, Pass)
  }

  /** Restoring a snapshot taken from `c` gives back `c`, whatever was there before. */
  lemma RestoreEncoded(c: Catalog, previous: Catalog)
    ensures RestoreSnapshot(previous, Encode(c)) == Applied(c, Pass)
  {
  }

  /** `after` is `before` with key `k` now holding `v`, whether or not `k` was there; every other entry is kept. */
  ghost predicate Upserted<V>(before: map<string, V>, after: map<string, V>, k: string, v: V) {
    && after.Keys == before.Keys + {k}
    && after[k] == v
    && forall j :: j in before && j != k ==> after[j] == before[j]
  }

  function DecodePrinter(p: Payload): Option<Printer> {
    if p.PrinterJson? then Some(p.printer) else None
  }

  function DecodeFilament(p: Payload): Option<Filament> {
    if p.FilamentJson? then Some(p.filament) else None
  }

  function DecodePrintJob(p: Payload): Option<PrintJob> {
    if p.PrintJobJson? then Some(p.job) else None
  }
}
