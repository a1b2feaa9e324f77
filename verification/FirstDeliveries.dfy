/**
A stream that keeps the first delivery under each key, up to a capacity: told from all
deliveries at once, and as a list grown one delivery at a time.
*/
module FirstDeliveries {
  import opened Wrappers

  /** Position i delivers, under a key, an entry. */
  datatype Source<!E> = Source(hit: int -> bool, key: int -> int, entry: int -> E)

  predicate Hit<E>(s: Source<E>, i: int) { s.hit(i) }

  function KeyAt<E>(s: Source<E>, i: int): int { s.key(i) }

  function EntryAt<E>(s: Source<E>, i: int): E { s.entry(i) }

  ghost predicate First<E>(s: Source<E>, i: int) {
    Hit(s, i) && forall j :: 0 <= j < i && Hit(s, j) ==> KeyAt(s, j) != KeyAt(s, i)
  }

  ghost function Firsts<E>(s: Source<E>, n: nat): nat {
    if n == 0 then 0 else Firsts(s, n - 1) + if First(s, n - 1) then 1 else 0
  }

  /** The first deliveries are kept, up to the capacity. */
  ghost predicate KeepsAt<E>(s: Source<E>, capacity: nat, i: int) { 0 <= i && First(s, i) && Firsts(s, i) < capacity }

  ghost function KeptTo<E>(s: Source<E>, capacity: nat, n: nat): seq<E> {
    if n == 0 then [] else KeptTo(s, capacity, n - 1) + if KeepsAt(s, capacity, n - 1) then [EntryAt(s, n - 1)] else []
  }

  /** An earlier delivery under this key was kept. */
  ghost predicate Repeats<E>(s: Source<E>, capacity: nat, n: int, j: int) {
    0 <= j < n && KeepsAt(s, capacity, j) && KeyAt(s, j) == KeyAt(s, n)
  }

  lemma {:induction false} FirstsGrow<E>(s: Source<E>, i: nat, n: nat)
    requires i <= n
    ensures Firsts(s, i) <= Firsts(s, n)
  {
    if i < n { FirstsGrow(s, i, n - 1); }
  }

  lemma {:induction false} KeptCount<E>(s: Source<E>, capacity: nat, n: nat)
    ensures |KeptTo(s, capacity, n)| == if Firsts(s, n) < capacity then Firsts(s, n) else capacity
  {
    if n > 0 { KeptCount(s, capacity, n - 1); }
  }

  lemma {:induction false} KeptComesFrom<E>(s: Source<E>, capacity: nat, n: nat, k: nat) returns (j: int)
    requires k < |KeptTo(s, capacity, n)|
    ensures 0 <= j < n && KeepsAt(s, capacity, j) && EntryAt(s, j) == KeptTo(s, capacity, n)[k]
  {
    if k < |KeptTo(s, capacity, n - 1)| {
      j := KeptComesFrom(s, capacity, n - 1, k);
    } else {
      j := n - 1;
    }
  }

  lemma {:induction false} KeptHolds<E>(s: Source<E>, capacity: nat, n: nat, j: nat) returns (k: nat)
    requires j < n && KeepsAt(s, capacity, j)
    ensures k < |KeptTo(s, capacity, n)| && KeptTo(s, capacity, n)[k] == EntryAt(s, j)
  {
    if j < n - 1 {
      k := KeptHolds(s, capacity, n - 1, j);
    } else {
      k := |KeptTo(s, capacity, n - 1)|;
    }
  }

  lemma RepeatIsUnique<E>(s: Source<E>, capacity: nat, n: nat, j: int, k: int)
    requires Repeats(s, capacity, n, j) && Repeats(s, capacity, n, k)
    ensures j == k
  {
    assert First(s, j) && First(s, k);
  }

  /** The kept delivery under this key has a property. */
  ghost predicate RepeatsBy<E>(s: Source<E>, capacity: nat, n: int, q: E -> bool) {
    exists j :: Repeats(s, capacity, n, j) && q(EntryAt(s, j))
  }

  lemma RepeatsByMeans<E>(s: Source<E>, capacity: nat, n: nat, j: int, q: E -> bool)
    requires Repeats(s, capacity, n, j)
    ensures RepeatsBy(s, capacity, n, q) <==> q(EntryAt(s, j))
  {
    if k :| Repeats(s, capacity, n, k) && q(EntryAt(s, k)) { RepeatIsUnique(s, capacity, n, j, k); }
  }

  lemma {:induction false} FirstDelivery<E>(s: Source<E>, j: nat) returns (f: nat)
    requires Hit(s, j)
    ensures f <= j && First(s, f) && KeyAt(s, f) == KeyAt(s, j)
    decreases j
  {
    if First(s, j) {
      f := j;
    } else {
      var k :| 0 <= k < j && Hit(s, k) && KeyAt(s, k) == KeyAt(s, j);
      f := FirstDelivery(s, k);
    }
  }

  /** A delivery is kept exactly if none under its key was and there is room. */
  lemma KeepsMeans<E>(s: Source<E>, capacity: nat, n: nat)
    requires Hit(s, n)
    ensures KeepsAt(s, capacity, n) <==> (forall j :: !Repeats(s, capacity, n, j)) && |KeptTo(s, capacity, n)| < capacity
  {
    KeptCount(s, capacity, n);
    if First(s, n) {
      forall j ensures !Repeats(s, capacity, n, j) { }
    } else {
      var f := FirstDelivery(s, n);
      FirstsGrow(s, f, n);
      assert Firsts(s, n) < capacity ==> Repeats(s, capacity, n, f);
    }
  }

  /** When no delivery repeats a kept one and none finds the stream full, no key is delivered twice. */
  lemma NothingTwice<E>(s: Source<E>, capacity: nat, i: nat, n: nat)
    requires i < n && Hit(s, i) && Hit(s, n)
    requires forall m, j :: 0 <= m <= n && Hit(s, m) ==> !Repeats(s, capacity, m, j)
    requires forall m :: 0 <= m <= n && Hit(s, m) ==> |KeptTo(s, capacity, m)| < capacity
    ensures KeyAt(s, i) != KeyAt(s, n)
  {
    KeepsMeans(s, capacity, i);
    assert KeyAt(s, i) == KeyAt(s, n) ==> Repeats(s, capacity, n, i);
  }
}
