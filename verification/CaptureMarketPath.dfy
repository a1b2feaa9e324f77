/**
Market-path evidence: one ordered series of finalized windows per series reference, with
corrections and supersessions that may only restate an existing chunk.
*/
module CaptureMarketPath {
  import opened Wrappers
  import opened CaptureRecords
  import opened CaptureLedger

  predicate IsNormal(r: Record) { r.body.Market? && Replaced(r).None? }

  predicate InSeries(r: Record, series: Ref) { r.body.Market? && r.body.series == series }

  /** Same series, source, sequence number and window. */
  predicate SameChunk(a: Record, b: Record) {
    && a.body.Market? && b.body.Market?
    && a.body.series == b.body.series && a.producer.identityHash == b.producer.identityHash
    && a.body.chunk == b.body.chunk && a.body.start == b.body.start && a.body.end == b.body.end
  }

  function NormalCount(o: seq<Record>, n: nat, series: Ref): nat
    requires n <= |o|
  {
    if n == 0 then 0
    else NormalCount(o, n - 1, series) + if IsNormal(o[n - 1]) && InSeries(o[n - 1], series) then 1 else 0
  }

  /******* What an accepted series is *******/

  ghost predicate NormalChunkOk(o: seq<Record>, i: int)
    requires 0 <= i < |o| && o[i].body.Market?
  {
    && o[i].body.chunk == NormalCount(o, i, o[i].body.series)
    && (forall j :: 0 <= j < i && IsNormal(o[j]) && InSeries(o[j], o[i].body.series) ==> o[j].body.end <= o[i].body.start)
  }

  ghost predicate Restates(o: seq<Record>, i: int, t: int)
    requires 0 <= i < |o|
  {
    Replaced(o[i]).Some? && 0 <= t < i && Names(o, Replaced(o[i]).value, t) && SameChunk(o[t], o[i])
  }

  ghost predicate SourceUnchanged(o: seq<Record>, i: int)
    requires 0 <= i < |o| && o[i].body.Market?
  {
    forall j :: 0 <= j < i && InSeries(o[j], o[i].body.series) ==> o[j].producer.identityHash == o[i].producer.identityHash
  }

  ghost predicate EvidenceAccepted(o: seq<Record>, i: int)
    requires 0 <= i < |o|
  {
    o[i].body.Market? ==>
      && SourceUnchanged(o, i)
      && if IsNormal(o[i]) then NormalChunkOk(o, i) else exists t :: Restates(o, i, t)
  }

  ghost predicate MarketPathAccepted(o: seq<Record>) {
    forall i :: 0 <= i < |o| ==> EvidenceAccepted(o, i)
  }

  /******* The source's pass over `normal_by_series` and `source_by_series` *******/

  function LatestNormal(o: seq<Record>, n: nat): map<Ref, Record>
    requires n <= |o|
  {
    if n == 0 then map[]
    else if IsNormal(o[n - 1]) then LatestNormal(o, n - 1)[o[n - 1].body.series := o[n - 1]]
    else LatestNormal(o, n - 1)
  }

  function Sources(o: seq<Record>, n: nat): map<Ref, Ref>
    requires n <= |o|
  {
    if n == 0 then map[] else
      var before, r := Sources(o, n - 1), o[n - 1];
      if r.body.Market? && r.body.series !in before then before[r.body.series := r.producer.identityHash] else before
  }

  lemma {:induction false} LatestNormalMeans(o: seq<Record>, n: nat, series: Ref)
    requires n <= |o|
    requires forall i :: 0 <= i < n ==> RecordOk(o[i]) && EvidenceAccepted(o, i)
    ensures series !in LatestNormal(o, n) ==> NormalCount(o, n, series) == 0
    ensures series in LatestNormal(o, n) ==>
              var last := LatestNormal(o, n)[series];
              && last in o && RecordOk(last) && IsNormal(last) && last.body.series == series
              && last.body.chunk + 1 == NormalCount(o, n, series)
              && (forall j :: 0 <= j < n && IsNormal(o[j]) && InSeries(o[j], series) ==> o[j].body.end <= last.body.end)
    ensures series !in LatestNormal(o, n) ==> forall j :: 0 <= j < n && IsNormal(o[j]) ==> !InSeries(o[j], series)
    ensures series in LatestNormal(o, n) ==> exists j :: 0 <= j < n && o[j] == LatestNormal(o, n)[series]
  {
    if n > 0 {
      LatestNormalMeans(o, n - 1, series);
      assert EvidenceAccepted(o, n - 1) && ListsOk(o[n - 1].body);
    }
  }

  lemma {:induction false} SourcesMeans(o: seq<Record>, n: nat, series: Ref)
    requires n <= |o|
    requires forall i :: 0 <= i < n ==> EvidenceAccepted(o, i)
    ensures series !in Sources(o, n) ==> forall j :: 0 <= j < n ==> !InSeries(o[j], series)
    ensures series in Sources(o, n) ==> exists j :: 0 <= j < n && InSeries(o[j], series)
    ensures series in Sources(o, n) ==>
              forall j :: 0 <= j < n && InSeries(o[j], series) ==> o[j].producer.identityHash == Sources(o, n)[series]
  {
    if n > 0 {
      SourcesMeans(o, n - 1, series);
      assert EvidenceAccepted(o, n - 1);
    }
  }

  /** The branch taken for one evidence record, given the two dictionaries. */
  predicate EvidenceStepOk(l: Ledger, r: Record, normal: map<Ref, Record>, sources: map<Ref, Ref>)
    requires r.body.Market? && VersionKey(r) in l.pos
  {
    var series := r.body.series;
    if series in sources && sources[series] != r.producer.identityHash then false
    else if Replaced(r).Some? then
      var target := RequireEarlier(l, Replaced(r).value, r);
      target.Some? && SameChunk(target.value, r)
    else if series !in normal then r.body.chunk == 0
    else
      var previous := normal[series];
      previous.body.Market? && r.body.chunk == previous.body.chunk + 1 && previous.body.end <= r.body.start
  }

  lemma RestatementStepMeans(l: Ledger, i: nat)
    requires Coherent(l) && i < |l.ordered| && l.ordered[i].body.Market? && Replaced(l.ordered[i]).Some?
    ensures var target := RequireEarlier(l, Replaced(l.ordered[i]).value, l.ordered[i]);
            (target.Some? && SameChunk(target.value, l.ordered[i])) <==> exists t :: Restates(l.ordered, i, t)
  {
    var o, ref := l.ordered, Replaced(l.ordered[i]).value;
    var t := RequireEarlierMeans(l, ref, i);
    if RequireEarlier(l, ref, o[i]).Some? {
      forall u | Restates(o, i, u) ensures u == t { assert Names(o, ref, u); }
      assert SameChunk(o[t], o[i]) ==> Restates(o, i, t);
    }
  }

  lemma NormalStepMeans(o: seq<Record>, i: nat)
    requires i < |o| && IsNormal(o[i])
    requires forall j :: 0 <= j < i ==> RecordOk(o[j]) && EvidenceAccepted(o, j)
    ensures var normal, series := LatestNormal(o, i), o[i].body.series;
            series in normal ==> normal[series].body.Market?
    ensures var normal, series := LatestNormal(o, i), o[i].body.series;
            NormalChunkOk(o, i) <==>
            if series !in normal then o[i].body.chunk == 0
            else o[i].body.chunk == normal[series].body.chunk + 1 && normal[series].body.end <= o[i].body.start
  {
    LatestNormalMeans(o, i, o[i].body.series);
  }

  lemma SourceStepMeans(o: seq<Record>, i: nat)
    requires i < |o| && o[i].body.Market?
    requires forall j :: 0 <= j < i ==> EvidenceAccepted(o, j)
    ensures var sources, series := Sources(o, i), o[i].body.series;
            SourceUnchanged(o, i) <==> (series in sources ==> sources[series] == o[i].producer.identityHash)
  {
    SourcesMeans(o, i, o[i].body.series);
  }

  lemma EvidenceStepMeans(l: Ledger, i: nat)
    requires Coherent(l) && i < |l.ordered| && l.ordered[i].body.Market?
    requires forall j :: 0 <= j < i ==> EvidenceAccepted(l.ordered, j)
    ensures EvidenceStepOk(l, l.ordered[i], LatestNormal(l.ordered, i), Sources(l.ordered, i)) <==> EvidenceAccepted(l.ordered, i)
  {
    SourceStepMeans(l.ordered, i);
    if IsNormal(l.ordered[i]) {
      NormalStepMeans(l.ordered, i);
    } else {
      RestatementStepMeans(l, i);
    }
  }

  /** `_validate_market_path_series` decides exactly the stateless definition. */
  method ValidateMarketPathSeries(l: Ledger) returns (ok: bool)
    requires Coherent(l)
    ensures ok <==> MarketPathAccepted(l.ordered)
  {
    var normal: map<Ref, Record>, sources: map<Ref, Ref> := map[], map[];
    var i := 0;
    while i < |l.ordered|
      invariant 0 <= i <= |l.ordered|
      invariant normal == LatestNormal(l.ordered, i) && sources == Sources(l.ordered, i)
      invariant forall j :: 0 <= j < i ==> EvidenceAccepted(l.ordered, j)
    {
      var r := l.ordered[i];
      if r.body.Market? {
        EvidenceStepMeans(l, i);
        if !EvidenceStepOk(l, r, normal, sources) { return false; }
        if r.body.series !in sources { sources := sources[r.body.series := r.producer.identityHash]; }
        if Replaced(r).None? { normal := normal[r.body.series := r]; }
      }
      i := i + 1;
    }
    return true;
  }

  /******* Consequences over the whole series *******/

  lemma {:induction false} NormalCountMonotone(o: seq<Record>, a: nat, b: nat, series: Ref)
    requires a <= b <= |o|
    ensures NormalCount(o, a, series) <= NormalCount(o, b, series)
  {
    if a < b { NormalCountMonotone(o, a, b - 1, series); }
  }

  /** Normal chunks are numbered in manifest order and their windows never overlap or move back. */
  lemma NormalChunksAreOrdered(o: seq<Record>, i: nat, j: nat)
    requires MarketPathAccepted(o) && i < j < |o| && IsNormal(o[i]) && IsNormal(o[j]) && o[i].body.series == o[j].body.series
    ensures o[i].body.chunk < o[j].body.chunk && o[i].body.end <= o[j].body.start
  {
    assert EvidenceAccepted(o, i) && EvidenceAccepted(o, j);
    NormalCountMonotone(o, i + 1, j, o[i].body.series);
  }

  /** No sequence number is skipped: every number below the count belongs to a normal chunk. */
  lemma {:induction false} NormalChunksLeaveNoGap(o: seq<Record>, n: nat, series: Ref, k: nat) returns (i: nat)
    requires MarketPathAccepted(o) && n <= |o| && k < NormalCount(o, n, series)
    ensures i < n && IsNormal(o[i]) && InSeries(o[i], series) && o[i].body.chunk == k
  {
    assert EvidenceAccepted(o, n - 1);
    if k < NormalCount(o, n - 1, series) {
      i := NormalChunksLeaveNoGap(o, n - 1, series, k);
    } else {
      i := n - 1;
    }
  }

  /** A correction chain: each record restates the next, down to a normal chunk. */
  ghost predicate CorrectionChain(o: seq<Record>, path: seq<nat>) {
    && path != []
    && (forall k :: 0 <= k < |path| ==> path[k] < |o|)
    && (forall k :: 0 <= k < |path| - 1 ==> Restates(o, path[k], path[k + 1]))
    && IsNormal(o[path[|path| - 1]])
  }

  /** Every evidence record's chain of corrections ends at a normal chunk it restates unchanged. */
  lemma {:induction false} CorrectionsReachANormalChunk(o: seq<Record>, i: nat) returns (path: seq<nat>)
    requires MarketPathAccepted(o) && i < |o| && o[i].body.Market?
    ensures CorrectionChain(o, path) && path[0] == i && SameChunk(o[path[|path| - 1]], o[i])
    decreases i
  {
    assert EvidenceAccepted(o, i);
    if IsNormal(o[i]) {
      path := [i];
    } else {
      var t: nat :| Restates(o, i, t);
      var rest := CorrectionsReachANormalChunk(o, t);
      path := [i] + rest;
      forall k | 0 <= k < |path| - 1 ensures Restates(o, path[k], path[k + 1]) {
        if k > 0 { assert Restates(o, rest[k - 1], rest[k]); }
      }
    }
  }

  /** The chain is unique, so it ends at exactly one normal chunk. */
  lemma {:induction false} CorrectionChainIsUnique(o: seq<Record>, p: seq<nat>, q: seq<nat>)
    requires CorrectionChain(o, p) && CorrectionChain(o, q) && p[0] == q[0]
    ensures p == q
  {
    assert |p| > 1 ==> Restates(o, p[0], p[1]);
    assert |q| > 1 ==> Restates(o, q[0], q[1]);
    if |p| > 1 {
      forall k | 0 <= k < |p[1..]| - 1 ensures Restates(o, p[1..][k], p[1..][k + 1]) {
        assert Restates(o, p[k + 1], p[k + 2]);
      }
      forall k | 0 <= k < |q[1..]| - 1 ensures Restates(o, q[1..][k], q[1..][k + 1]) {
        assert Restates(o, q[k + 1], q[k + 2]);
      }
      CorrectionChainIsUnique(o, p[1..], q[1..]);
      assert p == [p[0]] + p[1..] && q == [q[0]] + q[1..];
    }
  }

  ghost predicate SameWindow(a: Record, b: Record)
    requires a.body.Market? && b.body.Market?
  {
    a.body.chunk == b.body.chunk && a.body.start == b.body.start && a.body.end == b.body.end
  }

  ghost predicate StrictlyBefore(a: Record, b: Record)
    requires a.body.Market? && b.body.Market?
  {
    a.body.chunk < b.body.chunk && a.body.end <= b.body.start
  }

  /** Any two evidence records of a series share sequence and window, or have disjoint ordered windows. */
  lemma WindowsCoincideOrAreDisjoint(o: seq<Record>, i: nat, j: nat)
    requires MarketPathAccepted(o) && i < |o| && j < |o|
    requires o[i].body.Market? && o[j].body.Market? && o[i].body.series == o[j].body.series
    ensures SameWindow(o[i], o[j]) || StrictlyBefore(o[i], o[j]) || StrictlyBefore(o[j], o[i])
    ensures o[i].producer.identityHash == o[j].producer.identityHash
  {
    var p := CorrectionsReachANormalChunk(o, i);
    var q := CorrectionsReachANormalChunk(o, j);
    var a, b := p[|p| - 1], q[|q| - 1];
    if a < b {
      NormalChunksAreOrdered(o, a, b);
    } else if b < a {
      NormalChunksAreOrdered(o, b, a);
    }
    assert EvidenceAccepted(o, i) && EvidenceAccepted(o, j);
  }
}
