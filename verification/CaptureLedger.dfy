/**
The record graph's working data: the records in manifest order, the index from record ID
to its versions, and the manifest position of every version.
*/
module CaptureLedger {
  import opened Wrappers
  import opened CaptureRecords
  import opened CaptureManifest

  datatype Ledger = Ledger(ordered: seq<Record>, byId: map<Ref, seq<Record>>, pos: map<Key, nat>)

  ghost predicate OrderedByPosition(o: seq<Record>, pos: map<Key, nat>) {
    && (forall i :: 0 <= i < |o| ==> VersionKey(o[i]) in pos)
    && (forall i, j :: 0 <= i < j < |o| ==> pos[VersionKey(o[i])] < pos[VersionKey(o[j])])
  }

  ghost predicate IndexesVersions(o: seq<Record>, byId: map<Ref, seq<Record>>) {
    && (forall i :: 0 <= i < |o| ==> o[i].id in byId && o[i] in byId[o[i].id])
    && (forall ref :: ref in byId ==> byId[ref] != [])
    && (forall ref, k :: ref in byId && 0 <= k < |byId[ref]| ==> byId[ref][k] in o && byId[ref][k].id == ref)
    && (forall ref, a, b :: ref in byId && 0 <= a < b < |byId[ref]| ==> byId[ref][a] != byId[ref][b])
  }

  ghost predicate Coherent(l: Ledger) {
    && (forall i :: 0 <= i < |l.ordered| ==> RecordOk(l.ordered[i]))
    && OrderedByPosition(l.ordered, l.pos)
    && IndexesVersions(l.ordered, l.byId)
  }

  /******* Resolving a reference *******/

  /** `_resolve_unique_record`: absent and ambiguous references both fail. */
  function Resolve(l: Ledger, ref: Ref): Option<Record> {
    if ref in l.byId && |l.byId[ref]| == 1 then Some(l.byId[ref][0]) else None
  }

  /** `_require_earlier_record`: the unique target, listed strictly before the subject. */
  function RequireEarlier(l: Ledger, ref: Ref, subject: Record): Option<Record>
    requires VersionKey(subject) in l.pos
  {
    var target := Resolve(l, ref);
    if target.None? || VersionKey(target.value) == VersionKey(subject) || VersionKey(target.value) !in l.pos then None
    else if l.pos[VersionKey(target.value)] >= l.pos[VersionKey(subject)] then None
    else target
  }

  /** Reference `ref` names record t of the ledger and no other record. */
  ghost predicate Names(o: seq<Record>, ref: Ref, t: int) {
    0 <= t < |o| && o[t].id == ref && forall u :: 0 <= u < |o| && o[u].id == ref ==> u == t
  }

  ghost predicate IsRecordId(o: seq<Record>, ref: Ref) {
    exists u :: 0 <= u < |o| && o[u].id == ref
  }

  lemma PositionsDistinct(l: Ledger, i: nat, j: nat)
    requires Coherent(l) && i < |l.ordered| && j < |l.ordered|
    ensures l.ordered[i] == l.ordered[j] ==> i == j
    ensures VersionKey(l.ordered[i]) == VersionKey(l.ordered[j]) ==> i == j
    ensures i < j <==> l.pos[VersionKey(l.ordered[i])] < l.pos[VersionKey(l.ordered[j])]
  {
  }

  lemma KnownIdMeans(l: Ledger, ref: Ref)
    requires Coherent(l)
    ensures ref in l.byId <==> IsRecordId(l.ordered, ref)
  {
    if ref in l.byId { assert l.byId[ref][0] in l.ordered && l.byId[ref][0].id == ref; }
  }

  lemma NamedOnce(l: Ledger, ref: Ref, u: int)
    requires Coherent(l) && Names(l.ordered, ref, u)
    ensures ref in l.byId && l.byId[ref] == [l.ordered[u]]
  {
    assert l.ordered[u] in l.byId[ref];
    var versions := l.byId[ref];
    forall k | 0 <= k < |versions| ensures versions[k] == l.ordered[u] {
      assert versions[k] in l.ordered && versions[k].id == ref;
    }
    assert |versions| >= 2 ==> versions[0] != versions[1];
  }

  lemma ResolveMeans(l: Ledger, ref: Ref) returns (t: nat)
    requires Coherent(l)
    ensures Resolve(l, ref).Some? ==> Names(l.ordered, ref, t) && l.ordered[t] == Resolve(l, ref).value
    ensures Resolve(l, ref).None? ==> forall u :: !Names(l.ordered, ref, u)
  {
    t := 0;
    var o := l.ordered;
    if Resolve(l, ref).Some? {
      t :| 0 <= t < |o| && o[t] == l.byId[ref][0];
      forall u | 0 <= u < |o| && o[u].id == ref ensures u == t {
        assert o[u] in l.byId[ref];
        PositionsDistinct(l, t, u);
      }
    } else {
      forall u ensures !Names(o, ref, u) {
        if Names(o, ref, u) { NamedOnce(l, ref, u); }
      }
    }
  }

  lemma RequireEarlierMeans(l: Ledger, ref: Ref, i: nat) returns (t: nat)
    requires Coherent(l) && i < |l.ordered|
    ensures RequireEarlier(l, ref, l.ordered[i]).Some? ==>
              Names(l.ordered, ref, t) && t < i && l.ordered[t] == RequireEarlier(l, ref, l.ordered[i]).value
    ensures RequireEarlier(l, ref, l.ordered[i]).None? ==> forall u :: Names(l.ordered, ref, u) ==> i <= u
  {
    t := ResolveMeans(l, ref);
    if Resolve(l, ref).Some? {
      PositionsDistinct(l, t, i);
      forall u | Names(l.ordered, ref, u) ensures u == t {}
    }
  }

  /** The record a reference names is as wanted. */
  ghost predicate NamesWanted(o: seq<Record>, ref: Ref, wanted: Record -> bool) {
    exists t :: Names(o, ref, t) && wanted(o[t])
  }

  /** It also comes before record i. */
  ghost predicate NamesEarlier(o: seq<Record>, ref: Ref, i: int, wanted: Record -> bool) {
    exists t :: Names(o, ref, t) && t < i && wanted(o[t])
  }

  lemma NamesWantedMeans(l: Ledger, ref: Ref, wanted: Record -> bool)
    requires Coherent(l)
    ensures NamesWanted(l.ordered, ref, wanted) <==> Resolve(l, ref).Some? && wanted(Resolve(l, ref).value)
  {
    var t := ResolveMeans(l, ref);
    assert Resolve(l, ref).Some? ==> Names(l.ordered, ref, t);
  }

  lemma NamesEarlierMeans(l: Ledger, ref: Ref, i: nat, wanted: Record -> bool)
    requires Coherent(l) && i < |l.ordered|
    ensures var target := RequireEarlier(l, ref, l.ordered[i]);
            NamesEarlier(l.ordered, ref, i, wanted) <==> target.Some? && wanted(target.value)
  {
    var t := RequireEarlierMeans(l, ref, i);
    assert RequireEarlier(l, ref, l.ordered[i]).Some? ==> Names(l.ordered, ref, t);
  }

  /** The record a record corrects or supersedes, if any. */
  function Replaced(r: Record): Option<Ref> { if r.correction.Some? then r.correction else r.supersedes }

  /******* Building the ledger *******/

  /** The manifest position at which a version is first listed. */
  ghost predicate FirstListedAt(m: seq<Entry>, key: Key, p: int) {
    0 <= p < |m| && m[p].body.version == key && forall j :: 0 <= j < p ==> m[j].body.version != key
  }

  /** The versions of every record ID among the first n records, in tuple order. */
  function ById(records: seq<Record>, n: nat): map<Ref, seq<Record>>
    requires n <= |records|
  {
    if n == 0 then map[] else
      var before, r := ById(records, n - 1), records[n - 1];
      before[r.id := (if r.id in before then before[r.id] else []) + [r]]
  }

  lemma {:induction false} ByIdMeans(records: seq<Record>, n: nat, ref: Ref)
    requires n <= |records|
    requires forall i, j :: 0 <= i < j < |records| ==> VersionKey(records[i]) != VersionKey(records[j])
    ensures forall u :: 0 <= u < n && records[u].id == ref ==> ref in ById(records, n) && records[u] in ById(records, n)[ref]
    ensures ref in ById(records, n) ==>
              var v := ById(records, n)[ref];
              && v != []
              && (forall k :: 0 <= k < |v| ==> v[k] in records[..n] && v[k].id == ref)
              && (forall a, b :: 0 <= a < b < |v| ==> v[a] != v[b])
  {
    if n > 0 {
      ByIdMeans(records, n - 1, ref);
      assert records[n - 1] !in records[..n - 1];
      assert records[..n] == records[..n - 1] + [records[n - 1]];
    }
  }

  /** `_record_indexes`: the loop that collects the versions of every record ID. */
  method IndexById(records: seq<Record>) returns (byId: map<Ref, seq<Record>>)
    requires forall i, j :: 0 <= i < j < |records| ==> VersionKey(records[i]) != VersionKey(records[j])
    ensures byId == ById(records, |records|)
  {
    byId := map[];
    var i := 0;
    while i < |records|
      invariant 0 <= i <= |records|
      invariant byId == ById(records, i)
    {
      var r := records[i];
      byId := byId[r.id := (if r.id in byId then byId[r.id] else []) + [r]];
      i := i + 1;
    }
  }

  /** The versions listed by the first n entries, by first listing. */
  function ListingOrder(m: seq<Entry>, n: nat): seq<Key>
    requires n <= |m|
  {
    if n == 0 then []
    else if m[n - 1].body.version in ListingOrder(m, n - 1) then ListingOrder(m, n - 1)
    else ListingOrder(m, n - 1) + [m[n - 1].body.version]
  }

  function ListingPositions(m: seq<Entry>, n: nat): map<Key, nat>
    requires n <= |m|
  {
    if n == 0 then map[]
    else if m[n - 1].body.version in ListingPositions(m, n - 1) then ListingPositions(m, n - 1)
    else ListingPositions(m, n - 1)[m[n - 1].body.version := n - 1]
  }

  lemma {:induction false} ListingKeyMeans(m: seq<Entry>, n: nat, k: Key)
    requires n <= |m|
    ensures k in ListingPositions(m, n) <==> k in ListingOrder(m, n)
    ensures k in ListingOrder(m, n) <==> exists j :: 0 <= j < n && m[j].body.version == k
    ensures k in ListingOrder(m, n) ==> ListingPositions(m, n)[k] < n && FirstListedAt(m, k, ListingPositions(m, n)[k])
  {
    if n > 0 {
      ListingKeyMeans(m, n - 1, k);
      assert m[n - 1].body.version == k ==> k in ListingOrder(m, n);
    }
  }

  lemma {:induction false} ListingIsSorted(m: seq<Entry>, n: nat, a: nat, b: nat)
    requires n <= |m| && a < b < |ListingOrder(m, n)|
    ensures var keys, pos := ListingOrder(m, n), ListingPositions(m, n);
            keys[a] in pos && keys[b] in pos && pos[keys[a]] < pos[keys[b]]
  {
    var keys := ListingOrder(m, n - 1);
    ListingKeyMeans(m, n - 1, m[n - 1].body.version);
    if b < |keys| {
      ListingIsSorted(m, n - 1, a, b);
    } else {
      ListingKeyMeans(m, n - 1, keys[a]);
    }
  }

  lemma ListingMeans(m: seq<Entry>, n: nat)
    requires n <= |m|
    ensures forall k :: k in ListingPositions(m, n) <==> k in ListingOrder(m, n)
    ensures forall k :: k in ListingOrder(m, n) <==> exists j :: 0 <= j < n && m[j].body.version == k
    ensures forall k :: k in ListingOrder(m, n) ==> FirstListedAt(m, k, ListingPositions(m, n)[k])
    ensures forall a, b :: 0 <= a < b < |ListingOrder(m, n)| ==>
              ListingPositions(m, n)[ListingOrder(m, n)[a]] < ListingPositions(m, n)[ListingOrder(m, n)[b]]
  {
    forall k { ListingKeyMeans(m, n, k); }
    forall a, b | 0 <= a < b < |ListingOrder(m, n)|
      ensures ListingPositions(m, n)[ListingOrder(m, n)[a]] < ListingPositions(m, n)[ListingOrder(m, n)[b]]
    {
      ListingIsSorted(m, n, a, b);
    }
  }

  /** `_manifest_record_order` and the positions, as the source's loops compute them. */
  method OrderByFirstListing(m: seq<Entry>) returns (keys: seq<Key>, pos: map<Key, nat>)
    ensures keys == ListingOrder(m, |m|) && pos == ListingPositions(m, |m|)
  {
    keys, pos := [], map[];
    var seen: set<Key> := {};
    var i := 0;
    while i < |m|
      invariant 0 <= i <= |m|
      invariant keys == ListingOrder(m, i) && pos == ListingPositions(m, i)
      invariant forall k :: k in seen <==> k in keys
    {
      var key := m[i].body.version;
      ListingKeyMeans(m, i, key);
      if key !in seen {
        seen, keys, pos := seen + {key}, keys + [key], pos[key := i];
      }
      i := i + 1;
    }
  }

  function RecordOf(records: seq<Record>, key: Key): (r: Record)
    requires exists i :: 0 <= i < |records| && VersionKey(records[i]) == key
    ensures r in records && VersionKey(r) == key
  {
    var last := |records| - 1;
    if VersionKey(records[last]) == key then records[last] else RecordOf(records[..last], key)
  }

  lemma ListedKeyHasRecord(records: seq<Record>, m: seq<Entry>, i: nat)
    requires ChainAccepted(records, m) && i < |ListingOrder(m, |m|)|
    ensures RecordsVersion(records, ListingOrder(m, |m|)[i])
  {
    ListingMeans(m, |m|);
    var k := ListingOrder(m, |m|)[i];
    assert k in ListingOrder(m, |m|) && FirstListedAt(m, k, ListingPositions(m, |m|)[k]);
    assert EntryAccepted(records, m, ListingPositions(m, |m|)[k]);
  }

  /** The ledger of an accepted chain: every record once, in the order of its first listing. */
  function LedgerOf(records: seq<Record>, m: seq<Entry>): Ledger
    requires ChainAccepted(records, m)
  {
    var keys := ListingOrder(m, |m|);
    Ledger(seq(|keys|, i requires 0 <= i < |keys| => ListedKeyHasRecord(records, m, i); RecordOf(records, keys[i])),
           ById(records, |records|), ListingPositions(m, |m|))
  }

  method BuildLedger(records: seq<Record>, m: seq<Entry>) returns (l: Ledger)
    requires RecordsOk(records) && ChainAccepted(records, m)
    ensures l == LedgerOf(records, m)
  {
    var byId := IndexById(records);
    var keys, pos := OrderByFirstListing(m);
    var ordered := seq(|keys|, i requires 0 <= i < |keys| => ListedKeyHasRecord(records, m, i); RecordOf(records, keys[i]));
    l := Ledger(ordered, byId, pos);
  }

  /** The ledger holds exactly the records, ordered by their first manifest position. */
  lemma LedgerIsCoherent(records: seq<Record>, m: seq<Entry>)
    requires RecordsOk(records) && ChainAccepted(records, m)
    ensures Coherent(LedgerOf(records, m))
    ensures forall r :: r in LedgerOf(records, m).ordered <==> r in records
  {
    var l, keys := LedgerOf(records, m), ListingOrder(m, |m|);
    ListingMeans(m, |m|);
    forall r | r in records ensures r in l.ordered {
      var i :| 0 <= i < |records| && records[i] == r;
      assert Listed(m, VersionKey(records[i]));
      assert VersionKey(r) in keys;
      var j :| 0 <= j < |keys| && keys[j] == VersionKey(r);
      OneRecordPerKey(records, r, l.ordered[j]);
      assert l.ordered[j] == r;
    }
    forall i | 0 <= i < |l.ordered| ensures l.ordered[i] in records && RecordOk(l.ordered[i]) && VersionKey(l.ordered[i]) == keys[i] {}
    forall ref { ByIdMeans(records, |records|, ref); }
    assert IndexesVersions(l.ordered, l.byId) by { IndexTransfers(records, l.ordered, l.byId); }
  }

  lemma OneRecordPerKey(records: seq<Record>, r: Record, s: Record)
    requires RecordsOk(records) && r in records && s in records && VersionKey(r) == VersionKey(s)
    ensures r == s
  {
    var i :| 0 <= i < |records| && records[i] == r;
    var j :| 0 <= j < |records| && records[j] == s;
  }

  lemma IndexTransfers(records: seq<Record>, o: seq<Record>, byId: map<Ref, seq<Record>>)
    requires RecordsOk(records) && byId == ById(records, |records|)
    requires forall r :: r in o <==> r in records
    ensures IndexesVersions(o, byId)
  {
    assert records[..|records|] == records;
    forall i | 0 <= i < |o| ensures o[i].id in byId && o[i] in byId[o[i].id] {
      ByIdMeans(records, |records|, o[i].id);
      assert o[i] in records;
    }
    forall ref { ByIdMeans(records, |records|, ref); }
  }
}
