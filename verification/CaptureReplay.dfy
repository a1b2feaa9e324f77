/**
The deterministic replay report: chain, graph and checkpoint integrity, duplicate counts,
and the independently computed number of references to records that do not exist.
*/
module CaptureReplay {
  import opened Wrappers
  import opened CaptureRecords
  import opened CaptureManifest
  import opened CaptureLedger
  import opened CaptureReferences
  import opened CaptureCheckpoint
  import CaptureGraph
  import CaptureMarketPath
  import CaptureControl

  /******* `validate_capture_record_graph` *******/

  ghost predicate LedgerAccepted(l: Ledger)
    requires Coherent(l)
  {
    && CaptureGraph.ReferenceGraphOk(l.ordered)
    && CaptureMarketPath.MarketPathAccepted(l.ordered)
    && CaptureControl.ControlAccepted(l.ordered)
  }

  ghost predicate GraphAccepted(records: seq<Record>, m: seq<Entry>)
    requires RecordsOk(records)
  {
    ChainAccepted(records, m) && (LedgerIsCoherent(records, m); LedgerAccepted(LedgerOf(records, m)))
  }

  /** `validate_capture_record_graph`: input validation, then chain, references, market paths and control. */
  method ValidateRecordGraph(h: EntryHash, records: seq<Record>, m: seq<Entry>) returns (ok: bool)
    ensures ok <==> RecordsOk(records) && EntriesOk(h, m) && GraphAccepted(records, m)
  {
    ok := ValidateRecords(records);
    if !ok || !EntriesOk(h, m) { return false; }
    ok := ValidateManifestChain(records, m);
    if !ok { return; }
    var l := BuildLedger(records, m);
    LedgerIsCoherent(records, m);
    ok := CaptureGraph.ValidateReferences(l);
    if !ok { return; }
    ok := CaptureMarketPath.ValidateMarketPathSeries(l);
    if !ok { return; }
    var outcome := CaptureControl.ValidateRuntimeControlGraph(l);
    ok := outcome.Accepted?;
  }

  /******* An accepted graph has no missing reference *******/

  ghost predicate AllKnown(l: Ledger, refs: seq<Ref>) {
    forall k :: 0 <= k < |refs| ==> IsRecordId(l.ordered, refs[k])
  }

  lemma ResolvedIsKnown(l: Ledger, ref: Ref)
    requires Coherent(l) && Resolve(l, ref).Some?
    ensures IsRecordId(l.ordered, ref)
  {
    KnownIdMeans(l, ref);
  }

  lemma ReferencesResolve(l: Ledger, refs: seq<Ref>)
    requires Coherent(l) && forall k :: 0 <= k < |refs| ==> Resolve(l, refs[k]).Some?
    ensures AllKnown(l, refs)
  {
    forall k | 0 <= k < |refs| ensures IsRecordId(l.ordered, refs[k]) { ResolvedIsKnown(l, refs[k]); }
  }

  lemma GraphReferencesKnown(l: Ledger, i: nat)
    requires Coherent(l) && CaptureGraph.ReferenceGraphOk(l.ordered) && i < |l.ordered|
    requires !l.ordered[i].body.Control? && !l.ordered[i].body.KillState?
    ensures AllKnown(l, OwnReferences(l.ordered[i]))
  {
    var r := l.ordered[i];
    CaptureGraph.GraphTests(l, i);
    assert RecordOk(r);
    forall k | 0 <= k < |OwnReferences(r)| ensures Resolve(l, OwnReferences(r)[k]).Some? {
      var ref := OwnReferences(r)[k];
      match r.body
      case Signal(_, evidence, plans, shadows) => assert ref in evidence || ref in plans || ref in shadows;
      case Plan(signal, _, evidence) => assert ref == signal || ref in evidence;
      case Shadow(plan, evidence) => assert ref == plan || ref in evidence;
      case Observation(observed) => assert ref in observed;
      case Lifecycle(_, subject, _, references) => assert ref == subject || ref == references[0];
    }
    ReferencesResolve(l, OwnReferences(r));
  }

  lemma ControlReferencesKnown(l: Ledger, i: nat)
    requires Coherent(l) && CaptureControl.ControlAccepted(l.ordered) && i < |l.ordered|
    requires l.ordered[i].body.Control? || l.ordered[i].body.KillState?
    ensures AllKnown(l, OwnReferences(l.ordered[i]))
  {
    var o, r := l.ordered, l.ordered[i];
    assert RecordOk(r) && CaptureControl.EventAccepted(o, i) && CaptureControl.KillStateAccepted(o, i);
    if CaptureControl.IsEvent(r, KillEngaged) {
      var t :| CaptureControl.EngageableKillState(o, r.body.kill.value, i, t);
      assert o[t].id == r.body.kill.value;
    } else if CaptureControl.IsEvent(r, ResumePermitIssued) {
      var k, p := CaptureControl.ResumeFollowsKillAndCheck(o, i);
      assert RecordOk(o[k]) && CaptureControl.EventAccepted(o, k);
      var t :| CaptureControl.EngageableKillState(o, r.body.kill.value, k, t);
      assert o[t].id == r.body.kill.value;
    } else if r.body.KillState? && r.body.status == ResumePermittedAfterIntegrityCheck {
      var e :| CaptureControl.DescribesResume(o, i, e);
      assert o[e].id == r.body.controlEvent.value;
    }
  }

  lemma CorrectionReferencesKnown(l: Ledger, i: nat)
    requires Coherent(l) && CaptureGraph.ReferenceGraphOk(l.ordered) && i < |l.ordered| && !l.ordered[i].body.Lifecycle?
    ensures AllKnown(l, OptionalRef(l.ordered[i].correction) + OptionalRef(l.ordered[i].supersedes))
  {
    var r := l.ordered[i];
    CaptureGraph.GraphTests(l, i);
    assert RecordOk(r);
    ReferencesResolve(l, OptionalRef(r.correction) + OptionalRef(r.supersedes));
  }

  /** Every reference of every record type names a record of the accepted ledger. */
  lemma EveryReferenceIsKnown(l: Ledger, i: nat)
    requires Coherent(l) && LedgerAccepted(l) && i < |l.ordered|
    ensures AllKnown(l, References(l.ordered[i]))
  {
    if l.ordered[i].body.Control? || l.ordered[i].body.KillState? {
      ControlReferencesKnown(l, i);
    } else {
      GraphReferencesKnown(l, i);
    }
    if !l.ordered[i].body.Lifecycle? { CorrectionReferencesKnown(l, i); }
  }

  lemma {:induction false} NoneMissing(l: Ledger, refs: seq<Ref>, n: nat)
    requires Coherent(l) && AllKnown(l, refs) && n <= |refs|
    ensures MissingTo(l.byId, refs, n) == 0
  {
    if n > 0 {
      NoneMissing(l, refs, n - 1);
      KnownIdMeans(l, refs[n - 1]);
    }
  }

  lemma KnownConcat(l: Ledger, a: seq<Ref>, b: seq<Ref>)
    requires AllKnown(l, a) && AllKnown(l, b)
    ensures AllKnown(l, a + b)
  {
    forall k | 0 <= k < |a + b| ensures IsRecordId(l.ordered, (a + b)[k]) {
      assert (a + b)[k] == if k < |a| then a[k] else b[k - |a|];
    }
  }

  lemma RecordReferencesKnown(records: seq<Record>, m: seq<Entry>, k: nat)
    requires RecordsOk(records) && GraphAccepted(records, m) && k < |records|
    ensures AllKnown(LedgerOf(records, m), References(records[k]))
  {
    LedgerIsCoherent(records, m);
    var l := LedgerOf(records, m);
    assert records[k] in l.ordered;
    var i :| 0 <= i < |l.ordered| && l.ordered[i] == records[k];
    EveryReferenceIsKnown(l, i);
  }

  lemma {:induction false} AllReferencesKnown(records: seq<Record>, l: Ledger, n: nat)
    requires n <= |records| && forall k :: 0 <= k < n ==> AllKnown(l, References(records[k]))
    ensures AllKnown(l, AllReferences(records, n))
  {
    if n > 0 {
      AllReferencesKnown(records, l, n - 1);
      KnownConcat(l, AllReferences(records, n - 1), References(records[n - 1]));
    }
  }

  /** Once chain and graph validate, the independent missing-reference count is zero. */
  lemma AcceptedGraphMissesNothing(records: seq<Record>, m: seq<Entry>)
    requires RecordsOk(records) && GraphAccepted(records, m)
    ensures UnnamedReferences(records) == 0
  {
    MissingCountMeans(records);
    LedgerIsCoherent(records, m);
    var l := LedgerOf(records, m);
    forall k | 0 <= k < |records| ensures AllKnown(l, References(records[k])) { RecordReferencesKnown(records, m, k); }
    AllReferencesKnown(records, l, |records|);
    var refs := AllReferences(records, |records|);
    NoneMissing(l, refs, |refs|);
  }

  /******* `build_capture_replay_report` *******/

  datatype Report = Report(pass: bool, records: nat, entries: nat, exact: nat, conflicting: nat, missing: nat,
                           chainIntegrity: bool, checkpointIntegrity: bool)

  ghost predicate InputsOk(h: EntryHash, ch: CheckpointHash, b: Book, c: Checkpoint) {
    RecordsOk(b.records) && EntriesOk(h, b.manifest) && CheckpointOk(ch, c)
  }

  /** What the report says about valid inputs; a missing reference is not among the reasons to fail. */
  ghost predicate Reports(b: Book, c: Checkpoint, r: Report)
    requires RecordsOk(b.records)
  {
    && (r.chainIntegrity <==> GraphAccepted(b.records, b.manifest))
    && (r.checkpointIntegrity <==> CheckpointMatches(b, c))
    && r.exact == CountClass(b.manifest, |b.manifest|, ExactDuplicate)
    && r.conflicting == CountClass(b.manifest, |b.manifest|, ConflictingDuplicate)
    && r.missing == UnnamedReferences(b.records)
    && r.records == (if r.chainIntegrity then |b.records| else 0) && r.entries == (if r.chainIntegrity then |b.manifest| else 0)
    && (r.pass <==> r.chainIntegrity && r.checkpointIntegrity && r.conflicting == 0)
  }

  /** `build_capture_replay_report`: PASS is exactly chain and checkpoint integrity without conflicting duplicates. */
  method BuildReplayReport(h: EntryHash, ch: CheckpointHash, b: Book, c: Checkpoint) returns (r: Option<Report>)
    ensures r.Some? <==> InputsOk(h, ch, b, c)
    ensures r.Some? ==> Reports(b, c, r.value)
  {
    var recordsOk := ValidateRecords(b.records);
    if !recordsOk || !EntriesOk(h, b.manifest) || !CheckpointOk(ch, c) { return None; }
    var missing := CountMissingReferences(b.records);
    var chain := ValidateRecordGraph(h, b.records, b.manifest);
    var checkpoint := ValidateCheckpoint(h, ch, b, c);
    var exact := CountClass(b.manifest, |b.manifest|, ExactDuplicate);
    var conflicting := CountClass(b.manifest, |b.manifest|, ConflictingDuplicate);
    if chain { AcceptedGraphMissesNothing(b.records, b.manifest); }
    r := Some(Report(chain && checkpoint && missing == 0 && conflicting == 0,
                     if chain then |b.records| else 0, if chain then |b.manifest| else 0,
                     exact, conflicting, missing, chain, checkpoint));
  }

  lemma {:induction false} NoConflictMeans(m: seq<Entry>, n: nat)
    requires n <= |m| && CountClass(m, n, ConflictingDuplicate) == 0
    ensures forall k :: 0 <= k < n ==> m[k].body.duplicate != ConflictingDuplicate
  {
    if n > 0 { NoConflictMeans(m, n - 1); }
  }

  /**
  What PASS certifies about the ledger: entries are records plus exact duplicates, the
  checkpoint counts the records, and slots, record IDs and versions correspond one to one.
  */
  lemma PassMeans(b: Book, c: Checkpoint, r: Report)
    requires RecordsOk(b.records) && Reports(b, c, r) && r.pass
    ensures |b.manifest| == |b.records| + CountClass(b.manifest, |b.manifest|, ExactDuplicate)
    ensures c.recordCount == |b.records| && c.entryCount == |b.manifest|
    ensures forall i, j :: 0 <= i < |b.manifest| && 0 <= j < |b.manifest| ==>
              var x, y := b.manifest[i].body, b.manifest[j].body;
              (x.slot == y.slot <==> x.version == y.version) && (x.version.id == y.version.id <==> x.version == y.version)
  {
    NoConflictMeans(b.manifest, |b.manifest|);
    EntriesAreRecordsPlusDuplicates(b.records, b.manifest);
    ListedVersionsAreTheRecords(b.records, b.manifest);
    forall i, j | 0 <= i < |b.manifest| && 0 <= j < |b.manifest|
      ensures var x, y := b.manifest[i].body, b.manifest[j].body;
              (x.slot == y.slot <==> x.version == y.version) && (x.version.id == y.version.id <==> x.version == y.version)
    {
      SlotsIdsAndVersionsCorrespond(b.records, b.manifest, i, j);
    }
  }
}
