/**
The append-only, hash-linked manifest over the Capture records: when a chain is accepted,
how duplicates are classified, and how entries, records and slots are counted.
*/
module CaptureManifest {
  import opened Wrappers
  import opened CaptureRecords

  datatype DuplicateClass = Unique | ExactDuplicate | ConflictingDuplicate

  datatype EntryBody = EntryBody(index: int, slot: Ref, epoch: int, authority: Ref, version: Key,
                                 duplicate: DuplicateClass, previous: Option<Ref>)

  datatype Entry = Entry(body: EntryBody, hash: Ref)

  /** SHA-256 over the canonical entry material, left uninterpreted. */
  type EntryHash = EntryBody -> Ref

  predicate EntryOk(h: EntryHash, e: Entry) {
    && e.hash == h(e.body)
    && 0 <= e.body.index && 0 <= e.body.epoch
    && (e.body.index == 0 <==> e.body.previous.None?)
  }

  predicate EntriesOk(h: EntryHash, m: seq<Entry>) {
    forall i :: 0 <= i < |m| ==> EntryOk(h, m[i])
  }

  /******* What an accepted chain is, without any running state *******/

  /** Entry f is the first one in its observation slot. */
  ghost predicate OpensSlot(m: seq<Entry>, f: int)
    requires 0 <= f < |m|
  {
    forall j :: 0 <= j < f ==> m[j].body.slot != m[f].body.slot
  }

  ghost predicate SlotOpenedBy(m: seq<Entry>, f: int, i: int)
    requires 0 <= i < |m|
  {
    0 <= f < i && m[f].body.slot == m[i].body.slot && OpensSlot(m, f)
  }

  /** The only classification entry i may carry, judged by the entries before it. */
  ghost predicate ClassifiedCorrectly(m: seq<Entry>, i: int)
    requires 0 <= i < |m|
  {
    match m[i].body.duplicate
    case Unique => OpensSlot(m, i)
    case ExactDuplicate => exists f :: SlotOpenedBy(m, f, i) && m[f].body.version == m[i].body.version
    case ConflictingDuplicate => exists f :: SlotOpenedBy(m, f, i) && m[f].body.version != m[i].body.version
  }

  ghost predicate SameRecordSameSlot(m: seq<Entry>, i: int)
    requires 0 <= i < |m|
  {
    forall j :: 0 <= j < i && m[j].body.version.id == m[i].body.version.id ==> m[j].body.slot == m[i].body.slot
  }

  ghost predicate Linked(m: seq<Entry>, i: int)
    requires 0 <= i < |m|
  {
    && m[i].body.index == i
    && m[i].body.previous == (if i == 0 then None else Some(m[i - 1].hash))
    && m[i].body.epoch == m[0].body.epoch && m[i].body.authority == m[0].body.authority
  }

  ghost predicate RecordsVersion(records: seq<Record>, key: Key) {
    exists r :: 0 <= r < |records| && VersionKey(records[r]) == key
  }

  ghost predicate EntryAccepted(records: seq<Record>, m: seq<Entry>, i: int)
    requires 0 <= i < |m|
  {
    && Linked(m, i) && RecordsVersion(records, m[i].body.version)
    && SameRecordSameSlot(m, i) && ClassifiedCorrectly(m, i)
  }

  ghost predicate Listed(m: seq<Entry>, key: Key) {
    exists i :: 0 <= i < |m| && m[i].body.version == key
  }

  ghost predicate ChainAccepted(records: seq<Record>, m: seq<Entry>) {
    && m != []
    && (forall i :: 0 <= i < |m| ==> EntryAccepted(records, m, i))
    && (forall r :: 0 <= r < |records| ==> Listed(m, VersionKey(records[r])))
  }

  /******* The source's single pass over dictionaries *******/

  /** The version that opened each slot used by the first n entries. */
  function Slots(m: seq<Entry>, n: nat): map<Ref, Key>
    requires n <= |m|
  {
    if n == 0 then map[] else
      var before, e := Slots(m, n - 1), m[n - 1].body;
      if e.slot in before then before else before[e.slot := e.version]
  }

  /** The slot in which each record ID was first listed. */
  function IdSlots(m: seq<Entry>, n: nat): map<Ref, Ref>
    requires n <= |m|
  {
    if n == 0 then map[] else
      var before, e := IdSlots(m, n - 1), m[n - 1].body;
      if e.version.id in before then before else before[e.version.id := e.slot]
  }

  /** The slot in which each record version was first listed. */
  function VersionSlots(m: seq<Entry>, n: nat): map<Key, Ref>
    requires n <= |m|
  {
    if n == 0 then map[] else
      var before, e := VersionSlots(m, n - 1), m[n - 1].body;
      if e.version in before then before else before[e.version := e.slot]
  }

  function Versions(m: seq<Entry>, n: nat): set<Key>
    requires n <= |m|
  {
    if n == 0 then {} else Versions(m, n - 1) + {m[n - 1].body.version}
  }

  lemma {:induction false} SlotsMeans(m: seq<Entry>, n: nat, slot: Ref) returns (f: nat)
    requires n <= |m|
    ensures slot in Slots(m, n) ==> f < n && m[f].body.slot == slot && OpensSlot(m, f) && Slots(m, n)[slot] == m[f].body.version
    ensures slot !in Slots(m, n) ==> forall j :: 0 <= j < n ==> m[j].body.slot != slot
  {
    f := 0;
    if n > 0 {
      f := SlotsMeans(m, n - 1, slot);
      if slot !in Slots(m, n - 1) { f := n - 1; }
    }
  }

  lemma {:induction false} IdSlotsMeans(m: seq<Entry>, n: nat, id: Ref) returns (f: nat)
    requires n <= |m|
    ensures id in IdSlots(m, n) ==> f < n && m[f].body.version.id == id && m[f].body.slot == IdSlots(m, n)[id]
    ensures id !in IdSlots(m, n) ==> forall j :: 0 <= j < n ==> m[j].body.version.id != id
  {
    f := 0;
    if n > 0 {
      f := IdSlotsMeans(m, n - 1, id);
      if id !in IdSlots(m, n - 1) { f := n - 1; }
    }
  }

  lemma {:induction false} VersionSlotsMeans(m: seq<Entry>, n: nat, key: Key) returns (f: nat)
    requires n <= |m|
    ensures key in VersionSlots(m, n) ==> f < n && m[f].body.version == key && m[f].body.slot == VersionSlots(m, n)[key]
  {
    f := 0;
    if n > 0 {
      f := VersionSlotsMeans(m, n - 1, key);
      if key !in VersionSlots(m, n - 1) { f := n - 1; }
    }
  }

  lemma {:induction false} VersionsMeans(m: seq<Entry>, n: nat, key: Key)
    requires n <= |m|
    ensures key in Versions(m, n) <==> exists j :: 0 <= j < n && m[j].body.version == key
  {
    if n > 0 {
      VersionsMeans(m, n - 1, key);
      assert m[n - 1].body.version == key ==> key in Versions(m, n);
    }
  }

  function Classify(slots: map<Ref, Key>, e: EntryBody): DuplicateClass {
    if e.slot !in slots then Unique
    else if slots[e.slot] == e.version then ExactDuplicate
    else ConflictingDuplicate
  }

  lemma ClassifyMeans(m: seq<Entry>, n: nat)
    requires n < |m|
    ensures m[n].body.duplicate == Classify(Slots(m, n), m[n].body) <==> ClassifiedCorrectly(m, n)
  {
    var f := SlotsMeans(m, n, m[n].body.slot);
    if m[n].body.slot in Slots(m, n) {
      assert SlotOpenedBy(m, f, n);
      forall g | SlotOpenedBy(m, g, n) ensures g == f {}
    }
  }

  lemma SameIdSameSlot(m: seq<Entry>, n: nat, i: nat, j: nat)
    requires i < n <= |m| && j < n && m[i].body.version.id == m[j].body.version.id
    requires forall k :: 0 <= k < n ==> SameRecordSameSlot(m, k)
    ensures m[i].body.slot == m[j].body.slot
  {
    assert SameRecordSameSlot(m, i) && SameRecordSameSlot(m, j);
  }

  lemma IdSlotTestMeans(m: seq<Entry>, n: nat)
    requires n < |m| && forall k :: 0 <= k < n ==> SameRecordSameSlot(m, k)
    ensures var e := m[n].body;
            SameRecordSameSlot(m, n) <==> (e.version.id in IdSlots(m, n) ==> IdSlots(m, n)[e.version.id] == e.slot)
  {
    var e := m[n].body;
    var f := IdSlotsMeans(m, n, e.version.id);
    if e.version.id in IdSlots(m, n) && IdSlots(m, n)[e.version.id] == e.slot {
      forall j | 0 <= j < n && m[j].body.version.id == e.version.id ensures m[j].body.slot == e.slot { SameIdSameSlot(m, n, j, f); }
    }
  }

  /** The two slot dictionaries together test that a record keeps its slot; the version test adds nothing. */
  lemma SlotTestMeans(m: seq<Entry>, n: nat)
    requires n < |m| && forall k :: 0 <= k < n ==> SameRecordSameSlot(m, k)
    ensures var e := m[n].body;
            && (SameRecordSameSlot(m, n) <==> (e.version.id in IdSlots(m, n) ==> IdSlots(m, n)[e.version.id] == e.slot))
            && (SameRecordSameSlot(m, n) ==> e.version in VersionSlots(m, n) ==> VersionSlots(m, n)[e.version] == e.slot)
  {
    IdSlotTestMeans(m, n);
    var g := VersionSlotsMeans(m, n, m[n].body.version);
  }

  lemma AcceptedKeepSlots(records: seq<Record>, m: seq<Entry>, n: nat)
    requires n <= |m| && forall j :: 0 <= j < n ==> EntryAccepted(records, m, j)
    ensures forall k :: 0 <= k < n ==> SameRecordSameSlot(m, k)
  {
    forall k | 0 <= k < n ensures SameRecordSameSlot(m, k) { assert EntryAccepted(records, m, k); }
  }

  /** `validate_capture_manifest_chain`: the dictionary pass decides exactly the stateless definition. */
  method ValidateManifestChain(records: seq<Record>, m: seq<Entry>) returns (ok: bool)
    ensures ok <==> ChainAccepted(records, m)
  {
    if m == [] { return false; }
    var known := set r | r in records :: VersionKey(r);
    assert forall r :: 0 <= r < |records| ==> VersionKey(records[r]) in known;
    var slots: map<Ref, Key>, versionSlots: map<Key, Ref>, idSlots: map<Ref, Ref> := map[], map[], map[];
    var listed: set<Key> := {};
    var i := 0;
    while i < |m|
      invariant 0 <= i <= |m|
      invariant forall j :: 0 <= j < i ==> EntryAccepted(records, m, j)
      invariant slots == Slots(m, i) && versionSlots == VersionSlots(m, i) && idSlots == IdSlots(m, i)
      invariant listed == Versions(m, i) && listed <= known
    {
      var e := m[i].body;
      var expectedPrevious := if i == 0 then None else Some(m[i - 1].hash);
      ClassifyMeans(m, i);
      AcceptedKeepSlots(records, m, i);
      SlotTestMeans(m, i);
      if e.index != i || e.previous != expectedPrevious { assert !EntryAccepted(records, m, i); return false; }
      if e.epoch != m[0].body.epoch || e.authority != m[0].body.authority { assert !EntryAccepted(records, m, i); return false; }
      if e.version !in known { assert !EntryAccepted(records, m, i); return false; }
      listed := listed + {e.version};
      if e.version in versionSlots && versionSlots[e.version] != e.slot { assert !EntryAccepted(records, m, i); return false; }
      if e.version.id in idSlots && idSlots[e.version.id] != e.slot { assert !EntryAccepted(records, m, i); return false; }
      if e.duplicate != Classify(slots, e) { assert !EntryAccepted(records, m, i); return false; }
      if e.slot !in slots { slots := slots[e.slot := e.version]; }
      if e.version !in versionSlots { versionSlots := versionSlots[e.version := e.slot]; }
      if e.version.id !in idSlots { idSlots := idSlots[e.version.id := e.slot]; }
      i := i + 1;
    }
    ok := listed == known;
    forall r | 0 <= r < |records| ensures VersionKey(records[r]) in listed <==> Listed(m, VersionKey(records[r])) {
      VersionsMeans(m, |m|, VersionKey(records[r]));
    }
  }

  /******* Duplicates, slots and counts *******/

  function CountClass(m: seq<Entry>, n: nat, c: DuplicateClass): nat
    requires n <= |m|
  {
    if n == 0 then 0 else CountClass(m, n - 1, c) + if m[n - 1].body.duplicate == c then 1 else 0
  }

  /** In an accepted chain the classification column is a function of the (slot, version) sequence. */
  lemma ClassificationIsDetermined(records: seq<Record>, m: seq<Entry>, records': seq<Record>, m': seq<Entry>)
    requires ChainAccepted(records, m) && ChainAccepted(records', m') && |m| == |m'|
    requires forall i :: 0 <= i < |m| ==> m[i].body.slot == m'[i].body.slot && m[i].body.version == m'[i].body.version
    ensures forall i :: 0 <= i < |m| ==> m[i].body.duplicate == m'[i].body.duplicate
  {
    forall i | 0 <= i < |m| ensures m[i].body.duplicate == m'[i].body.duplicate {
      assert EntryAccepted(records, m, i) && EntryAccepted(records', m', i);
      SlotsDependOnSlotsAndVersions(m, m', i);
      ClassifyMeans(m, i);
      ClassifyMeans(m', i);
    }
  }

  lemma {:induction false} SlotsDependOnSlotsAndVersions(m: seq<Entry>, m': seq<Entry>, n: nat)
    requires n <= |m| && n <= |m'|
    requires forall i :: 0 <= i < n ==> m[i].body.slot == m'[i].body.slot && m[i].body.version == m'[i].body.version
    ensures Slots(m, n) == Slots(m', n)
  {
    if n > 0 { SlotsDependOnSlotsAndVersions(m, m', n - 1); }
  }

  /** Without a conflicting entry, naming the same slot, record ID or record version is one relation. */
  lemma SlotsIdsAndVersionsCorrespond(records: seq<Record>, m: seq<Entry>, i: nat, j: nat)
    requires ChainAccepted(records, m) && i < |m| && j < |m|
    requires forall k :: 0 <= k < |m| ==> m[k].body.duplicate != ConflictingDuplicate
    ensures m[i].body.slot == m[j].body.slot <==> m[i].body.version == m[j].body.version
    ensures m[i].body.version.id == m[j].body.version.id <==> m[i].body.version == m[j].body.version
  {
    if j < i {
      SlotsIdsAndVersionsCorrespond(records, m, j, i);
    } else if i < j {
      assert EntryAccepted(records, m, i) && EntryAccepted(records, m, j);
      if m[i].body.slot == m[j].body.slot {
        var f :| SlotOpenedBy(m, f, j) && m[f].body.version == m[j].body.version;
        if f != i {
          var g :| SlotOpenedBy(m, g, i) && m[g].body.version == m[i].body.version;
          assert g == f;
        }
      }
    }
  }

  /** An entry brings a new record version exactly when it opens a slot, if nothing conflicts. */
  lemma NewVersionIffUnique(records: seq<Record>, m: seq<Entry>, n: nat)
    requires ChainAccepted(records, m) && n < |m|
    requires forall k :: 0 <= k < |m| ==> m[k].body.duplicate != ConflictingDuplicate
    ensures m[n].body.version !in Versions(m, n) <==> m[n].body.duplicate == Unique
  {
    assert EntryAccepted(records, m, n);
    VersionsMeans(m, n, m[n].body.version);
    if m[n].body.version in Versions(m, n) {
      var j :| 0 <= j < n && m[j].body.version == m[n].body.version;
    }
  }

  lemma {:induction false} CountsOfPrefix(records: seq<Record>, m: seq<Entry>, n: nat)
    requires ChainAccepted(records, m) && n <= |m|
    requires forall k :: 0 <= k < |m| ==> m[k].body.duplicate != ConflictingDuplicate
    ensures |Versions(m, n)| == CountClass(m, n, Unique)
    ensures n == CountClass(m, n, Unique) + CountClass(m, n, ExactDuplicate)
  {
    if n > 0 {
      CountsOfPrefix(records, m, n - 1);
      NewVersionIffUnique(records, m, n - 1);
      if m[n - 1].body.duplicate != Unique { assert Versions(m, n) == Versions(m, n - 1); }
    }
  }

  function KeysOf(records: seq<Record>): set<Key> {
    if records == [] then {} else KeysOf(records[..|records| - 1]) + {VersionKey(records[|records| - 1])}
  }

  lemma {:induction false} KeysOfMeans(records: seq<Record>, key: Key)
    ensures key in KeysOf(records) <==> RecordsVersion(records, key)
  {
    if records != [] {
      var last := |records| - 1;
      KeysOfMeans(records[..last], key);
      assert VersionKey(records[last]) == key ==> key in KeysOf(records);
    }
  }

  lemma {:induction false} KeysOfCount(records: seq<Record>)
    requires forall i, j :: 0 <= i < j < |records| ==> VersionKey(records[i]) != VersionKey(records[j])
    ensures |KeysOf(records)| == |records|
  {
    if records != [] {
      var last := |records| - 1;
      KeysOfCount(records[..last]);
      KeysOfMeans(records[..last], VersionKey(records[last]));
    }
  }

  /** The manifest lists exactly the record versions, so their number is the number of records. */
  lemma ListedVersionsAreTheRecords(records: seq<Record>, m: seq<Entry>)
    requires RecordsOk(records) && ChainAccepted(records, m)
    ensures Versions(m, |m|) == KeysOf(records)
    ensures |Versions(m, |m|)| == |records|
  {
    forall key ensures key in Versions(m, |m|) <==> key in KeysOf(records) {
      VersionsMeans(m, |m|, key);
      KeysOfMeans(records, key);
      if key in Versions(m, |m|) {
        var j :| 0 <= j < |m| && m[j].body.version == key;
        assert EntryAccepted(records, m, j);
      }
    }
    KeysOfCount(records);
  }

  /** Conservation: without conflicts, manifest entries are records plus exact duplicates. */
  lemma EntriesAreRecordsPlusDuplicates(records: seq<Record>, m: seq<Entry>)
    requires RecordsOk(records) && ChainAccepted(records, m)
    requires forall k :: 0 <= k < |m| ==> m[k].body.duplicate != ConflictingDuplicate
    ensures |m| == |records| + CountClass(m, |m|, ExactDuplicate)
  {
    ListedVersionsAreTheRecords(records, m);
    CountsOfPrefix(records, m, |m|);
  }
}
