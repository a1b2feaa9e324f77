/**
Checkpoints over the manifest chain and the append-only relation between two of them.
*/
module CaptureCheckpoint {
  import opened Wrappers
  import opened CaptureRecords
  import opened CaptureManifest

  datatype Checkpoint = Checkpoint(rootHash: Ref, terminalHash: Ref, terminalIndex: int, entryCount: int,
                                   recordCount: int, epoch: int, authority: Ref, checkpointHash: Ref)

  /** The checkpoint hash is SHA-256 of the other fields; here the digest of the checkpoint without it. */
  type CheckpointHash = Checkpoint -> Ref

  predicate CheckpointOk(ch: CheckpointHash, c: Checkpoint) {
    && c.checkpointHash == ch(c.(checkpointHash := ""))
    && 0 <= c.terminalIndex && 1 <= c.entryCount && 1 <= c.recordCount && 0 <= c.epoch
    && c.terminalIndex == c.entryCount - 1
  }

  /** A ledger as its owner holds it: the records and the manifest over them. */
  datatype Book = Book(records: seq<Record>, manifest: seq<Entry>)

  ghost predicate BookOk(h: EntryHash, b: Book) {
    RecordsOk(b.records) && EntriesOk(h, b.manifest) && ChainAccepted(b.records, b.manifest)
  }

  /** `validate_capture_checkpoint` on validated inputs. */
  ghost predicate CheckpointMatches(b: Book, c: Checkpoint) {
    && ChainAccepted(b.records, b.manifest)
    && (var m := b.manifest;
        && c.rootHash == m[0].hash && c.terminalHash == m[|m| - 1].hash
        && c.terminalIndex == m[|m| - 1].body.index && c.entryCount == |m|
        && c.recordCount == |Versions(m, |m|)|
        && c.epoch == m[0].body.epoch && c.authority == m[0].body.authority)
  }

  /** The counters the last test of an extension compares. */
  predicate RollsBack(older: Checkpoint, newer: Checkpoint) {
    newer.terminalIndex <= older.terminalIndex || newer.entryCount <= older.entryCount || newer.recordCount < older.recordCount
  }

  /** A ledger with a checkpoint that is valid for it. */
  ghost predicate Checkpointed(h: EntryHash, ch: CheckpointHash, b: Book, c: Checkpoint) {
    BookOk(h, b) && CheckpointOk(ch, c) && CheckpointMatches(b, c)
  }

  /** The append-only relation: two checkpointed ledgers, and the newer manifest extends the older. */
  ghost predicate Advances(h: EntryHash, ch: CheckpointHash, old': Book, oldC: Checkpoint, new': Book, newC: Checkpoint) {
    Checkpointed(h, ch, old', oldC) && Checkpointed(h, ch, new', newC) && old'.manifest <= new'.manifest
  }

  /** `validate_capture_checkpoint`: rejects invalid inputs, then compares every counter. */
  method ValidateCheckpoint(h: EntryHash, ch: CheckpointHash, b: Book, c: Checkpoint) returns (ok: bool)
    ensures ok <==> Checkpointed(h, ch, b, c)
  {
    var recordsOk := ValidateRecords(b.records);
    if !recordsOk || !EntriesOk(h, b.manifest) || !CheckpointOk(ch, c) { return false; }
    ok := ValidateManifestChain(b.records, b.manifest);
    if !ok { return; }
    var m := b.manifest;
    var versions := Versions(m, |m|);
    ok := c.rootHash == m[0].hash && c.terminalHash == m[|m| - 1].hash && c.terminalIndex == m[|m| - 1].body.index
          && c.entryCount == |m| && c.recordCount == |versions|
          && c.epoch == m[0].body.epoch && c.authority == m[0].body.authority;
  }

  lemma {:induction false} VersionsOfPrefix(m: seq<Entry>, m': seq<Entry>, n: nat)
    requires n <= |m| <= |m'| && m'[..|m|] == m
    ensures Versions(m, n) == Versions(m', n)
  {
    if n > 0 {
      VersionsOfPrefix(m, m', n - 1);
      assert m'[..|m|][n - 1] == m'[n - 1];
    }
  }

  lemma {:induction false} VersionsGrow(m: seq<Entry>, a: nat, b: nat)
    requires a <= b <= |m|
    ensures Versions(m, a) <= Versions(m, b)
  {
    if a < b { VersionsGrow(m, a, b - 1); }
  }

  lemma {:induction false} SubsetSize(a: set<Key>, b: set<Key>)
    requires a <= b
    ensures |a| <= |b|
  {
    if a != {} {
      var k :| k in a;
      SubsetSize(a - {k}, b - {k});
    }
  }

  /** An extension never loses a record version. */
  lemma AdvanceKeepsEveryVersion(h: EntryHash, ch: CheckpointHash, old': Book, oldC: Checkpoint, new': Book, newC: Checkpoint)
    requires Advances(h, ch, old', oldC, new', newC)
    ensures KeysOf(old'.records) <= KeysOf(new'.records)
    ensures oldC.recordCount == |old'.records| && newC.recordCount == |new'.records| && |old'.records| <= |new'.records|
  {
    var m, m' := old'.manifest, new'.manifest;
    VersionsOfPrefix(m, m', |m|);
    VersionsGrow(m', |m|, |m'|);
    ListedVersionsAreTheRecords(old'.records, m);
    ListedVersionsAreTheRecords(new'.records, m');
    SubsetSize(Versions(m, |m|), Versions(m', |m'|));
  }

  lemma VersionCountGrows(m: seq<Entry>, m': seq<Entry>)
    requires |m| <= |m'| && m'[..|m|] == m
    ensures |Versions(m, |m|)| <= |Versions(m', |m'|)|
  {
    VersionsOfPrefix(m, m', |m|);
    VersionsGrow(m', |m|, |m'|);
    SubsetSize(Versions(m, |m|), Versions(m', |m'|));
  }

  lemma TerminalIndex(records: seq<Record>, m: seq<Entry>)
    requires ChainAccepted(records, m)
    ensures m != [] && m[|m| - 1].body.index == |m| - 1
  {
    assert EntryAccepted(records, m, |m| - 1);
  }

  /** The rollback test cannot fire once the manifest prefix test has passed on a longer manifest. */
  lemma RollbackTestIsImplied(h: EntryHash, old': Book, oldC: Checkpoint, new': Book, newC: Checkpoint)
    requires BookOk(h, old') && BookOk(h, new') && CheckpointMatches(old', oldC) && CheckpointMatches(new', newC)
    requires |new'.manifest| > |old'.manifest| && new'.manifest[..|old'.manifest|] == old'.manifest
    ensures !RollsBack(oldC, newC) && newC.rootHash == oldC.rootHash
  {
    var m, m' := old'.manifest, new'.manifest;
    VersionCountGrows(m, m');
    TerminalIndex(old'.records, m);
    TerminalIndex(new'.records, m');
    assert m'[..|m|][0] == m'[0];
  }

  /** A ledger has one valid checkpoint. */
  lemma CheckpointIsUnique(ch: CheckpointHash, m: seq<Entry>, b: Book, c: Checkpoint, b': Book, c': Checkpoint)
    requires CheckpointOk(ch, c) && CheckpointOk(ch, c') && CheckpointMatches(b, c) && CheckpointMatches(b', c')
    requires b.manifest == m && b'.manifest == m
    ensures c == c'
  {
    assert c.(checkpointHash := "") == c'.(checkpointHash := "");
  }

  /** The tests of an advance beyond the append-only relation never fire. */
  lemma AdvancePassesTests(h: EntryHash, ch: CheckpointHash, old': Book, oldC: Checkpoint, new': Book, newC: Checkpoint)
    requires Advances(h, ch, old', oldC, new', newC)
    ensures |new'.manifest| >= |old'.manifest| && new'.manifest[..|old'.manifest|] == old'.manifest && newC.rootHash == oldC.rootHash
    ensures if |new'.manifest| == |old'.manifest| then newC == oldC else !RollsBack(oldC, newC)
  {
    var m, m' := old'.manifest, new'.manifest;
    assert m'[..|m|] == m;
    if |m'| == |m| {
      assert m'[..|m|] == m';
      CheckpointIsUnique(ch, m, old', oldC, new', newC);
    } else {
      RollbackTestIsImplied(h, old', oldC, new', newC);
    }
  }

  /** `validate_capture_checkpoint_advance`: accepts exactly the append-only relation. */
  method ValidateAdvance(h: EntryHash, ch: CheckpointHash, old': Book, oldC: Checkpoint, new': Book, newC: Checkpoint) returns (ok: bool)
    ensures ok <==> Advances(h, ch, old', oldC, new', newC)
  {
    if Advances(h, ch, old', oldC, new', newC) { AdvancePassesTests(h, ch, old', oldC, new', newC); }
    var oldOk := ValidateCheckpoint(h, ch, old', oldC);
    if !oldOk { return false; }
    var newOk := ValidateCheckpoint(h, ch, new', newC);
    if !newOk { return false; }
    if |new'.manifest| < |old'.manifest| { return false; }
    if new'.manifest[..|old'.manifest|] != old'.manifest || newC.rootHash != oldC.rootHash { return false; }
    if |new'.manifest| == |old'.manifest| { return newC == oldC; }
    return !RollsBack(oldC, newC);
  }

  /** Over any run of advances the first ledger advances to the last: nothing listed on the way is ever lost. */
  lemma {:induction false} RunAdvances(h: EntryHash, ch: CheckpointHash, books: seq<Book>, cs: seq<Checkpoint>, n: nat)
    requires n < |books| == |cs| && Checkpointed(h, ch, books[0], cs[0])
    requires forall i :: 0 <= i < n ==> Advances(h, ch, books[i], cs[i], books[i + 1], cs[i + 1])
    ensures Advances(h, ch, books[0], cs[0], books[n], cs[n]) && KeysOf(books[0].records) <= KeysOf(books[n].records)
  {
    if n > 0 {
      RunAdvances(h, ch, books, cs, n - 1);
      assert Advances(h, ch, books[n - 1], cs[n - 1], books[n - 1 + 1], cs[n - 1 + 1]);
      AdvanceKeepsEveryVersion(h, ch, books[n - 1], cs[n - 1], books[n], cs[n]);
    }
  }

  /** Advancing both ways leaves manifest, checkpoint and version set as they were. */
  lemma AdvanceBothWays(h: EntryHash, ch: CheckpointHash, a: Book, aC: Checkpoint, b: Book, bC: Checkpoint)
    requires Advances(h, ch, a, aC, b, bC) && Advances(h, ch, b, bC, a, aC)
    ensures a.manifest == b.manifest && aC == bC && KeysOf(a.records) == KeysOf(b.records)
  {
    CheckpointIsUnique(ch, a.manifest, a, aC, b, bC);
    AdvanceKeepsEveryVersion(h, ch, a, aC, b, bC);
    AdvanceKeepsEveryVersion(h, ch, b, bC, a, aC);
  }

  /** No two of the entries at hand have different content and equal hashes. */
  ghost predicate CollisionFree(h: EntryHash, m: seq<Entry>, m': seq<Entry>) {
    forall i, j :: 0 <= i < |m| && 0 <= j < |m'| && h(m[i].body) == h(m'[j].body) ==> m[i].body == m'[j].body
  }

  lemma {:induction false} HashLinksFixEarlierEntries(h: EntryHash, records: seq<Record>, m: seq<Entry>,
                                                     records': seq<Record>, m': seq<Entry>, n: nat)
    requires EntriesOk(h, m) && EntriesOk(h, m') && ChainAccepted(records, m) && ChainAccepted(records', m')
    requires CollisionFree(h, m, m') && |m| == |m'| && n < |m| && m[|m| - 1].hash == m'[|m| - 1].hash
    ensures m[n] == m'[n]
    decreases |m| - n
  {
    assert EntryOk(h, m[n]) && EntryOk(h, m'[n]);
    if n < |m| - 1 {
      HashLinksFixEarlierEntries(h, records, m, records', m', n + 1);
      assert EntryAccepted(records, m, n + 1) && EntryAccepted(records', m', n + 1);
    }
  }

  /** Two ledgers valid against one checkpoint have the same manifest, entry by entry. */
  lemma CheckpointDeterminesManifest(h: EntryHash, b: Book, b': Book, c: Checkpoint)
    requires BookOk(h, b) && BookOk(h, b') && CheckpointMatches(b, c) && CheckpointMatches(b', c)
    requires CollisionFree(h, b.manifest, b'.manifest)
    ensures b.manifest == b'.manifest && KeysOf(b.records) == KeysOf(b'.records)
  {
    forall n | 0 <= n < |b.manifest| ensures b.manifest[n] == b'.manifest[n] {
      HashLinksFixEarlierEntries(h, b.records, b.manifest, b'.records, b'.manifest, n);
    }
    ListedVersionsAreTheRecords(b.records, b.manifest);
    ListedVersionsAreTheRecords(b'.records, b'.manifest);
  }

  function SingletonBook(r: Record): Book {
    Book([r], [Entry(EntryBody(0, "slot", 0, "writer", VersionKey(r), Unique, None), "")])
  }

  lemma SingletonBookMatches(r: Record)
    requires RecordOk(r)
    ensures BookOk(_ => "", SingletonBook(r))
    ensures CheckpointMatches(SingletonBook(r), Checkpoint("", "", 0, 1, 1, 0, "writer", ""))
  {
    var b := SingletonBook(r);
    assert b.manifest[0].body.version == VersionKey(r) && VersionKey(b.records[0]) == VersionKey(r);
    assert EntryAccepted(b.records, b.manifest, 0);
    assert Versions(b.manifest, 1) == {VersionKey(r)};
  }

  /** Without collision freedom the checkpoint alone cannot tell two ledgers apart. */
  lemma CollisionDefeatsCheckpoint(r: Record, s: Record)
    requires RecordOk(r) && RecordOk(s) && VersionKey(r) != VersionKey(s)
    ensures exists h: EntryHash, c ::
              && BookOk(h, SingletonBook(r)) && BookOk(h, SingletonBook(s))
              && CheckpointMatches(SingletonBook(r), c) && CheckpointMatches(SingletonBook(s), c)
              && SingletonBook(r).manifest[0] != SingletonBook(s).manifest[0]
  {
    SingletonBookMatches(r);
    SingletonBookMatches(s);
  }
}
