/**
The full outer join of two keyed lists, ordered by time: the derivation at the heart of
the cross-source reconciliation, for any element type and any way of judging one key.
*/
module OuterJoin {
  import opened Wrappers
  import opened Text

  /** `judge` gives the verdict on one key from what each side holds for it, or refuses. */
  datatype Rules<!C, V> = Rules(key: C -> string, open: C -> int, judge: (Option<C>, Option<C>) -> Option<V>)

  /** One key of the join: which sides hold it, and the verdict. */
  datatype Item<V> = Item(key: string, open: int, left: bool, right: bool, verdict: V)

  ghost predicate DistinctKeys<C, V>(rules: Rules<C, V>, cs: seq<C>) {
    forall i, j :: 0 <= i < j < |cs| ==> rules.key(cs[i]) != rules.key(cs[j])
  }

  /** Elements of one open time have one key. */
  ghost predicate TimesIdentify<C(!new), V>(rules: Rules<C, V>, ls: seq<C>, rs: seq<C>) {
    forall a, b :: a in ls + rs && b in ls + rs && rules.open(a) == rules.open(b) ==> rules.key(a) == rules.key(b)
  }

  /** What the first n elements hold under a key. */
  function Find<C, V>(rules: Rules<C, V>, cs: seq<C>, n: nat, key: string): Option<C>
    requires n <= |cs|
  {
    if n == 0 then None else if rules.key(cs[n - 1]) == key then Some(cs[n - 1]) else Find(rules, cs, n - 1, key)
  }

  lemma {:induction false} FindMeans<C, V>(rules: Rules<C, V>, cs: seq<C>, n: nat, key: string)
    requires n <= |cs|
    ensures match Find(rules, cs, n, key)
            case Some(c) => c in cs && rules.key(c) == key
            case None => forall i :: 0 <= i < n ==> rules.key(cs[i]) != key
  {
    if n > 0 && rules.key(cs[n - 1]) != key { FindMeans(rules, cs, n - 1, key); }
  }

  lemma FindFinds<C, V>(rules: Rules<C, V>, cs: seq<C>, c: C)
    requires DistinctKeys(rules, cs) && c in cs
    ensures Find(rules, cs, |cs|, rules.key(c)) == Some(c)
  {
    FindMeans(rules, cs, |cs|, rules.key(c));
    var i :| 0 <= i < |cs| && cs[i] == c;
    var d := Find(rules, cs, |cs|, rules.key(c)).value;
    var j :| 0 <= j < |cs| && cs[j] == d;
  }

  function OpenOf<C, V>(rules: Rules<C, V>, l: Option<C>, r: Option<C>): int
    requires l.Some? || r.Some?
  {
    rules.open(if l.Some? then l.value else r.value)
  }

  /** The item is exactly what the two lists say about its key. */
  ghost predicate ItemOk<C, V>(rules: Rules<C, V>, ls: seq<C>, rs: seq<C>, item: Item<V>) {
    var l, r := Find(rules, ls, |ls|, item.key), Find(rules, rs, |rs|, item.key);
    && (l.Some? || r.Some?) && item.left == l.Some? && item.right == r.Some?
    && item.open == OpenOf(rules, l, r) && rules.judge(l, r) == Some(item.verdict)
  }

  ghost predicate Increasing<V>(items: seq<Item<V>>) {
    forall i, j :: 0 <= i < j < |items| ==> items[i].open < items[j].open
  }

  ghost predicate Covered<C(!new), V>(rules: Rules<C, V>, cs: seq<C>, items: seq<Item<V>>) {
    forall c :: c in cs ==> exists i :: 0 <= i < |items| && items[i].key == rules.key(c)
  }

  /** The exact full outer join: every key of either list once, in strictly increasing open time. */
  ghost predicate IsJoin<C(!new), V>(rules: Rules<C, V>, ls: seq<C>, rs: seq<C>, items: seq<Item<V>>) {
    && Increasing(items) && Covered(rules, ls, items) && Covered(rules, rs, items)
    && forall i :: 0 <= i < |items| ==> ItemOk(rules, ls, rs, items[i])
  }

  /** No key repeats within a side, and no key is refused. */
  ghost predicate Joinable<C(!new), V>(rules: Rules<C, V>, ls: seq<C>, rs: seq<C>) {
    && DistinctKeys(rules, ls) && DistinctKeys(rules, rs)
    && forall c :: c in ls + rs ==>
         rules.judge(Find(rules, ls, |ls|, rules.key(c)), Find(rules, rs, |rs|, rules.key(c))).Some?
  }

  /******* Dictionaries by key *******/

  ghost predicate Files<C, V>(rules: Rules<C, V>, cs: seq<C>, n: nat, byKey: map<string, C>)
    requires n <= |cs|
  {
    forall k: string :: Get(byKey, k) == Find(rules, cs, n, k)
  }

  function Get<C>(byKey: map<string, C>, k: string): Option<C> {
    if k in byKey then Some(byKey[k]) else None
  }

  /** The dictionary of one side, or an error on a repeated key. */
  method KeyMap<C(!new), V>(rules: Rules<C, V>, cs: seq<C>) returns (byKey: Option<map<string, C>>)
    ensures byKey.Some? <==> DistinctKeys(rules, cs)
    ensures byKey.Some? ==> Files(rules, cs, |cs|, byKey.value)
  {
    var m: map<string, C> := map[];
    var n := 0;
    while n < |cs|
      invariant 0 <= n <= |cs| && Files(rules, cs, n, m) && DistinctKeys(rules, cs[..n])
    {
      var k := rules.key(cs[n]);
      FindMeans(rules, cs, n, k);
      assert Get(m, k) == Find(rules, cs, n, k);
      if k in m {
        assert exists i :: 0 <= i < n && rules.key(cs[i]) == k by { FindBefore(rules, cs, n, k); }
        return None;
      }
      m := m[k := cs[n]];
      n := n + 1;
    }
    assert cs[..n] == cs;
    return Some(m);
  }

  /** One pass over a list: every element is acceptable and no key was seen before. */
  method ScanKeys<C(!new), V>(rules: Rules<C, V>, accept: C -> bool, cs: seq<C>) returns (ok: bool)
    ensures ok <==> (forall i :: 0 <= i < |cs| ==> accept(cs[i])) && DistinctKeys(rules, cs)
  {
    var seen: set<string> := {};
    var n := 0;
    while n < |cs|
      invariant 0 <= n <= |cs|
      invariant forall i :: 0 <= i < n ==> accept(cs[i])
      invariant forall i, j :: 0 <= i < j < n ==> rules.key(cs[i]) != rules.key(cs[j])
      invariant forall k :: k in seen <==> exists i :: 0 <= i < n && rules.key(cs[i]) == k
    {
      if !accept(cs[n]) || rules.key(cs[n]) in seen { return false; }
      seen := seen + {rules.key(cs[n])};
      n := n + 1;
    }
    return true;
  }

  lemma {:induction false} FindBefore<C, V>(rules: Rules<C, V>, cs: seq<C>, n: nat, key: string)
    requires n <= |cs| && Find(rules, cs, n, key).Some?
    ensures exists i :: 0 <= i < n && rules.key(cs[i]) == key
  {
    if rules.key(cs[n - 1]) != key { FindBefore(rules, cs, n - 1, key); }
  }

  /******* Sorting the keys *******/

  predicate KeyBefore(a: string, b: string, open: map<string, int>)
    requires a in open && b in open
  {
    open[a] < open[b] || (open[a] == open[b] && StringLess(a, b))
  }

  function InsertKey(keys: seq<string>, k: string, open: map<string, int>): seq<string>
    requires k in open && forall i :: 0 <= i < |keys| ==> keys[i] in open
  {
    if keys == [] || KeyBefore(keys[|keys| - 1], k, open) then keys + [k]
    else InsertKey(keys[..|keys| - 1], k, open) + [keys[|keys| - 1]]
  }

  ghost predicate SortedByOpen(keys: seq<string>, open: map<string, int>) {
    && (forall i :: 0 <= i < |keys| ==> keys[i] in open)
    && (forall i, j :: 0 <= i < j < |keys| ==> open[keys[i]] < open[keys[j]])
  }

  lemma {:induction false} InsertKeyMeans(keys: seq<string>, k: string, open: map<string, int>, bound: int)
    requires SortedByOpen(keys, open) && k in open && open[k] <= bound
    requires forall i :: 0 <= i < |keys| ==> open[keys[i]] <= bound && open[keys[i]] != open[k]
    ensures SortedByOpen(InsertKey(keys, k, open), open)
    ensures forall i :: 0 <= i < |InsertKey(keys, k, open)| ==> open[InsertKey(keys, k, open)[i]] <= bound
  {
    if keys != [] {
      var last := keys[|keys| - 1];
      if !KeyBefore(last, k, open) { InsertKeyMeans(keys[..|keys| - 1], k, open, open[last] - 1); }
    }
  }

  lemma {:induction false} InsertKeyElements(keys: seq<string>, k: string, open: map<string, int>)
    requires k in open && forall i :: 0 <= i < |keys| ==> keys[i] in open
    ensures forall x :: x in InsertKey(keys, k, open) <==> x in keys || x == k
  {
    if keys != [] {
      assert keys == keys[..|keys| - 1] + [keys[|keys| - 1]];
      if !KeyBefore(keys[|keys| - 1], k, open) { InsertKeyElements(keys[..|keys| - 1], k, open); }
    }
  }

  /** A set of keys in the order of (open time, key). */
  method SortKeys(pool: set<string>, open: map<string, int>) returns (keys: seq<string>)
    requires forall k :: k in pool ==> k in open
    requires forall a, b :: a in pool && b in pool && a != b ==> open[a] != open[b]
    ensures SortedByOpen(keys, open)
    ensures forall k :: k in keys <==> k in pool
  {
    keys := [];
    var rest := pool;
    while rest != {}
      invariant rest <= pool && SortedByOpen(keys, open)
      invariant forall k :: k in keys <==> k in pool && k !in rest
    {
      var k :| k in rest;
      assert forall i :: 0 <= i < |keys| ==> keys[i] in keys;
      InsertKeyElements(keys, k, open);
      var top := if keys == [] || open[keys[|keys| - 1]] < open[k] then open[k] else open[keys[|keys| - 1]];
      InsertKeyMeans(keys, k, open, top);
      keys := InsertKey(keys, k, open);
      rest := rest - {k};
    }
  }

  /******* The derivation *******/

  function Opens<C, V>(rules: Rules<C, V>, left: map<string, C>, right: map<string, C>): map<string, int> {
    map k | k in left.Keys + right.Keys :: OpenOf(rules, Get(left, k), Get(right, k))
  }

  ghost predicate Sides<C, V>(rules: Rules<C, V>, ls: seq<C>, rs: seq<C>, left: map<string, C>, right: map<string, C>) {
    Files(rules, ls, |ls|, left) && Files(rules, rs, |rs|, right)
  }

  lemma FiledKey<C, V>(rules: Rules<C, V>, cs: seq<C>, byKey: map<string, C>, k: string)
    requires Files(rules, cs, |cs|, byKey)
    ensures k in byKey ==> byKey[k] in cs && rules.key(byKey[k]) == k
    ensures k !in byKey ==> forall c :: c in cs ==> rules.key(c) != k
  {
    assert Get(byKey, k) == Find(rules, cs, |cs|, k);
    FindMeans(rules, cs, |cs|, k);
  }

  /** Two keys of the union never share an open time. */
  lemma OpensDiffer<C(!new), V>(rules: Rules<C, V>, ls: seq<C>, rs: seq<C>, left: map<string, C>, right: map<string, C>, a: string, b: string)
    requires TimesIdentify(rules, ls, rs) && Sides(rules, ls, rs, left, right)
    requires a in Opens(rules, left, right) && b in Opens(rules, left, right) && a != b
    ensures Opens(rules, left, right)[a] != Opens(rules, left, right)[b]
  {
    FiledKey(rules, ls, left, a);
    FiledKey(rules, ls, left, b);
    FiledKey(rules, rs, right, a);
    FiledKey(rules, rs, right, b);
    var x := if a in left then left[a] else right[a];
    var y := if b in left then left[b] else right[b];
    assert x in ls + rs && y in ls + rs;
  }

  ghost predicate KeysOk<C(!new), V>(rules: Rules<C, V>, ls: seq<C>, rs: seq<C>, left: map<string, C>, right: map<string, C>, keys: seq<string>) {
    SortedByOpen(keys, Opens(rules, left, right)) && forall k :: k in keys <==> k in left || k in right
  }

  method OrderKeys<C(!new), V>(rules: Rules<C, V>, ls: seq<C>, rs: seq<C>, left: map<string, C>, right: map<string, C>)
    returns (keys: seq<string>)
    requires TimesIdentify(rules, ls, rs) && Sides(rules, ls, rs, left, right)
    ensures KeysOk(rules, ls, rs, left, right, keys)
  {
    var open := Opens(rules, left, right);
    forall a, b | a in open && b in open && a != b ensures open[a] != open[b] { OpensDiffer(rules, ls, rs, left, right, a, b); }
    keys := SortKeys(open.Keys, open);
  }

  /** The item of one key of the union. */
  ghost predicate Made<C, V>(rules: Rules<C, V>, left: map<string, C>, right: map<string, C>, key: string, item: Item<V>) {
    && (key in left || key in right)
    && item.key == key && item.left == (key in left) && item.right == (key in right)
    && item.open == OpenOf(rules, Get(left, key), Get(right, key))
    && rules.judge(Get(left, key), Get(right, key)) == Some(item.verdict)
  }

  /** The comparison loop: one item a key, stopping at the first refusal. */
  method JudgeKeys<C(!new), V>(rules: Rules<C, V>, left: map<string, C>, right: map<string, C>, keys: seq<string>)
    returns (r: Option<seq<Item<V>>>)
    requires forall n :: 0 <= n < |keys| ==> keys[n] in left || keys[n] in right
    ensures r.Some? <==> forall n :: 0 <= n < |keys| ==> rules.judge(Get(left, keys[n]), Get(right, keys[n])).Some?
    ensures r.Some? ==> |r.value| == |keys| && forall n :: 0 <= n < |keys| ==> Made(rules, left, right, keys[n], r.value[n])
  {
    var items: seq<Item<V>> := [];
    var n := 0;
    while n < |keys|
      invariant 0 <= n <= |keys| && |items| == n
      invariant forall m :: 0 <= m < n ==> rules.judge(Get(left, keys[m]), Get(right, keys[m])).Some?
      invariant forall m :: 0 <= m < n ==> Made(rules, left, right, keys[m], items[m])
    {
      var l, r' := Get(left, keys[n]), Get(right, keys[n]);
      var verdict := rules.judge(l, r');
      if verdict.None? { return None; }
      items := items + [Item(keys[n], OpenOf(rules, l, r'), l.Some?, r'.Some?, verdict.value)];
      n := n + 1;
    }
    return Some(items);
  }

  lemma MadeIsOk<C, V>(rules: Rules<C, V>, ls: seq<C>, rs: seq<C>, left: map<string, C>, right: map<string, C>, key: string, item: Item<V>)
    requires Sides(rules, ls, rs, left, right) && Made(rules, left, right, key, item)
    ensures ItemOk(rules, ls, rs, item) && Opens(rules, left, right)[key] == item.open
  {
    assert Get(left, key) == Find(rules, ls, |ls|, key) && Get(right, key) == Find(rules, rs, |rs|, key);
  }

  lemma CoveredByKeys<C(!new), V>(rules: Rules<C, V>, cs: seq<C>, keys: seq<string>, items: seq<Item<V>>)
    requires |items| == |keys| && forall n :: 0 <= n < |keys| ==> items[n].key == keys[n]
    requires forall c :: c in cs ==> rules.key(c) in keys
    ensures Covered(rules, cs, items)
  {
    forall c | c in cs ensures exists i :: 0 <= i < |items| && items[i].key == rules.key(c) {
      var n :| 0 <= n < |keys| && keys[n] == rules.key(c);
      assert items[n].key == rules.key(c);
    }
  }

  lemma KeysCover<C(!new), V>(rules: Rules<C, V>, ls: seq<C>, rs: seq<C>, left: map<string, C>, right: map<string, C>, keys: seq<string>, c: C)
    requires Sides(rules, ls, rs, left, right) && KeysOk(rules, ls, rs, left, right, keys) && c in ls + rs
    ensures rules.key(c) in keys
  {
    FiledKey(rules, ls, left, rules.key(c));
    FiledKey(rules, rs, right, rules.key(c));
  }

  lemma MadeIsJoin<C(!new), V>(rules: Rules<C, V>, ls: seq<C>, rs: seq<C>, left: map<string, C>, right: map<string, C>,
                               keys: seq<string>, items: seq<Item<V>>)
    requires Sides(rules, ls, rs, left, right) && KeysOk(rules, ls, rs, left, right, keys)
    requires |items| == |keys| && forall n :: 0 <= n < |keys| ==> Made(rules, left, right, keys[n], items[n])
    ensures IsJoin(rules, ls, rs, items)
  {
    forall n | 0 <= n < |items|
      ensures ItemOk(rules, ls, rs, items[n]) && items[n].key == keys[n] && items[n].open == Opens(rules, left, right)[keys[n]]
    {
      MadeIsOk(rules, ls, rs, left, right, keys[n], items[n]);
    }
    forall c | c in ls + rs ensures rules.key(c) in keys { KeysCover(rules, ls, rs, left, right, keys, c); }
    CoveredByKeys(rules, ls, keys, items);
    CoveredByKeys(rules, rs, keys, items);
  }

  lemma RefusalMeans<C(!new), V>(rules: Rules<C, V>, ls: seq<C>, rs: seq<C>, left: map<string, C>, right: map<string, C>, keys: seq<string>)
    requires Sides(rules, ls, rs, left, right) && KeysOk(rules, ls, rs, left, right, keys)
    requires DistinctKeys(rules, ls) && DistinctKeys(rules, rs)
    ensures Joinable(rules, ls, rs) <==> forall n :: 0 <= n < |keys| ==> rules.judge(Get(left, keys[n]), Get(right, keys[n])).Some?
  {
    if forall n :: 0 <= n < |keys| ==> rules.judge(Get(left, keys[n]), Get(right, keys[n])).Some? {
      forall c | c in ls + rs
        ensures rules.judge(Find(rules, ls, |ls|, rules.key(c)), Find(rules, rs, |rs|, rules.key(c))).Some?
      {
        KeysCover(rules, ls, rs, left, right, keys, c);
        var n :| 0 <= n < |keys| && keys[n] == rules.key(c);
        assert Get(left, keys[n]) == Find(rules, ls, |ls|, keys[n]) && Get(right, keys[n]) == Find(rules, rs, |rs|, keys[n]);
      }
    }
    if Joinable(rules, ls, rs) {
      forall n | 0 <= n < |keys| ensures rules.judge(Get(left, keys[n]), Get(right, keys[n])).Some? {
        var k := keys[n];
        assert k in keys;
        FiledKey(rules, ls, left, k);
        FiledKey(rules, rs, right, k);
        var c := if k in left then left[k] else right[k];
        assert c in ls + rs && rules.key(c) == k;
        assert Get(left, k) == Find(rules, ls, |ls|, k) && Get(right, k) == Find(rules, rs, |rs|, k);
      }
    }
  }

  /** Succeeds exactly on joinable lists, and then returns their full outer join. */
  method FullOuterJoin<C(!new), V>(rules: Rules<C, V>, ls: seq<C>, rs: seq<C>) returns (r: Option<seq<Item<V>>>)
    requires TimesIdentify(rules, ls, rs)
    ensures r.Some? <==> Joinable(rules, ls, rs)
    ensures r.Some? ==> IsJoin(rules, ls, rs, r.value)
  {
    var left := KeyMap(rules, ls);
    if left.None? { return None; }
    var right := KeyMap(rules, rs);
    if right.None? { return None; }
    var keys := OrderKeys(rules, ls, rs, left.value, right.value);
    assert forall n :: 0 <= n < |keys| ==> keys[n] in keys;
    r := JudgeKeys(rules, left.value, right.value, keys);
    RefusalMeans(rules, ls, rs, left.value, right.value, keys);
    if r.Some? { MadeIsJoin(rules, ls, rs, left.value, right.value, keys, r.value); }
  }

  /******* The join is determined by what the lists contain *******/

  lemma LastIsDetermined<V>(xs: seq<Item<V>>, ys: seq<Item<V>>)
    requires Increasing(xs) && Increasing(ys) && xs != [] && ys != []
    requires forall x :: x in xs <==> x in ys
    ensures xs[|xs| - 1] == ys[|ys| - 1]
  {
    var x, y := xs[|xs| - 1], ys[|ys| - 1];
    assert x in xs && y in ys;
    var i :| 0 <= i < |xs| && xs[i] == y;
    var j :| 0 <= j < |ys| && ys[j] == x;
  }

  lemma DropLast<V>(xs: seq<Item<V>>, z: Item<V>)
    requires Increasing(xs) && xs != []
    ensures z in xs[..|xs| - 1] <==> z in xs && z != xs[|xs| - 1]
  {
    assert xs == xs[..|xs| - 1] + [xs[|xs| - 1]];
  }

  lemma {:induction false} IncreasingIsDetermined<V>(xs: seq<Item<V>>, ys: seq<Item<V>>)
    requires Increasing(xs) && Increasing(ys)
    requires forall x :: x in xs <==> x in ys
    ensures xs == ys
  {
    assert (xs != [] ==> xs[0] in ys) && (ys != [] ==> ys[0] in xs);
    if xs != [] {
      LastIsDetermined(xs, ys);
      var xs', ys' := xs[..|xs| - 1], ys[..|ys| - 1];
      forall z ensures z in xs' <==> z in ys' {
        DropLast(xs, z);
        DropLast(ys, z);
      }
      IncreasingIsDetermined(xs', ys');
      assert xs == xs' + [xs[|xs| - 1]] && ys == ys' + [ys[|ys| - 1]];
    }
  }

  /** Two items on one key are one item. */
  lemma ItemInOther<C(!new), V>(rules: Rules<C, V>, ls: seq<C>, rs: seq<C>, xs: seq<Item<V>>, ys: seq<Item<V>>, x: Item<V>)
    requires IsJoin(rules, ls, rs, xs) && IsJoin(rules, ls, rs, ys) && x in xs
    ensures x in ys
  {
    var l, r := Find(rules, ls, |ls|, x.key), Find(rules, rs, |rs|, x.key);
    FindMeans(rules, ls, |ls|, x.key);
    FindMeans(rules, rs, |rs|, x.key);
    assert ItemOk(rules, ls, rs, x);
    var c := if l.Some? then l.value else r.value;
    var i :| 0 <= i < |ys| && ys[i].key == rules.key(c);
    assert ItemOk(rules, ls, rs, ys[i]);
    assert ys[i] == x;
  }

  /** There is only one full outer join. */
  lemma JoinIsUnique<C(!new), V>(rules: Rules<C, V>, ls: seq<C>, rs: seq<C>, xs: seq<Item<V>>, ys: seq<Item<V>>)
    requires IsJoin(rules, ls, rs, xs) && IsJoin(rules, ls, rs, ys)
    ensures xs == ys
  {
    forall x ensures x in xs <==> x in ys {
      if x in xs { ItemInOther(rules, ls, rs, xs, ys, x); }
      if x in ys { ItemInOther(rules, ls, rs, ys, xs, x); }
    }
    IncreasingIsDetermined(xs, ys);
  }

  lemma FindIgnoresOrder<C(!new), V>(rules: Rules<C, V>, cs: seq<C>, ds: seq<C>, key: string)
    requires DistinctKeys(rules, cs) && DistinctKeys(rules, ds) && forall c :: c in cs <==> c in ds
    ensures Find(rules, cs, |cs|, key) == Find(rules, ds, |ds|, key)
  {
    FindMeans(rules, cs, |cs|, key);
    FindMeans(rules, ds, |ds|, key);
    if Find(rules, cs, |cs|, key).Some? {
      FindFinds(rules, ds, Find(rules, cs, |cs|, key).value);
    }
  }

  lemma RemoveAt<C>(s: seq<C>, k: nat)
    requires k < |s|
    ensures multiset(s[..k] + s[k + 1..]) == multiset(s) - multiset{s[k]}
  {
    assert s == s[..k] + [s[k]] + s[k + 1..];
    assert multiset(s) == multiset(s[..k] + s[k + 1..]) + multiset{s[k]};
  }

  lemma Elsewhere<C>(s: seq<C>, k: nat, x: C) returns (m: nat)
    requires k < |s| && x in multiset(s[..k] + s[k + 1..])
    ensures m < |s| && m != k && s[m] == x
  {
    var rest := s[..k] + s[k + 1..];
    var n :| 0 <= n < |rest| && rest[n] == x;
    m := if n < k then n else n + 1;
  }

  lemma KeptElement<C>(s: seq<C>, i: nat, j: nat)
    requires i < j < |s|
    ensures s[i] in multiset(s[..j] + s[j + 1..])
  {
    var rest := s[..j] + s[j + 1..];
    assert rest[i] == s[i];
  }

  lemma StillContains<C(!new)>(cs: seq<C>, ds: seq<C>, i: nat, j: nat) returns (k: nat, m: nat)
    requires multiset(cs) == multiset(ds) && i < j < |ds|
    ensures k < |cs| && m < |cs| && k != m && cs[k] == ds[j] && cs[m] == ds[i]
  {
    assert ds[j] in multiset(ds);
    k :| 0 <= k < |cs| && cs[k] == ds[j];
    RemoveAt(cs, k);
    RemoveAt(ds, j);
    KeptElement(ds, i, j);
    m := Elsewhere(cs, k, ds[i]);
  }

  lemma SameMembers<C(!new)>(cs: seq<C>, ds: seq<C>, c: C)
    requires multiset(cs) == multiset(ds)
    ensures c in cs <==> c in ds
  {
    assert c in cs <==> c in multiset(cs);
    assert c in ds <==> c in multiset(ds);
  }

  /** A rearranged list of distinct keys still has distinct keys. */
  lemma DistinctIgnoresOrder<C(!new), V>(rules: Rules<C, V>, cs: seq<C>, ds: seq<C>)
    requires DistinctKeys(rules, cs) && multiset(cs) == multiset(ds)
    ensures DistinctKeys(rules, ds) && forall c :: c in cs <==> c in ds
  {
    forall c ensures c in cs <==> c in ds { SameMembers(cs, ds, c); }
    forall i, j | 0 <= i < j < |ds| ensures rules.key(ds[i]) != rules.key(ds[j]) {
      var k, m := StillContains(cs, ds, i, j);
    }
  }

  /** Rearranging either list changes neither whether it joins nor the result. */
  lemma JoinIgnoresOrder<C(!new), V>(rules: Rules<C, V>, ls: seq<C>, rs: seq<C>, ls': seq<C>, rs': seq<C>, items: seq<Item<V>>)
    requires Joinable(rules, ls, rs) && multiset(ls) == multiset(ls') && multiset(rs) == multiset(rs')
    ensures Joinable(rules, ls', rs')
    ensures IsJoin(rules, ls, rs, items) <==> IsJoin(rules, ls', rs', items)
  {
    DistinctIgnoresOrder(rules, ls, ls');
    DistinctIgnoresOrder(rules, rs, rs');
    forall k ensures Find(rules, ls, |ls|, k) == Find(rules, ls', |ls'|, k) { FindIgnoresOrder(rules, ls, ls', k); }
    forall k ensures Find(rules, rs, |rs|, k) == Find(rules, rs', |rs'|, k) { FindIgnoresOrder(rules, rs, rs', k); }
    forall c | c in ls' + rs'
      ensures rules.judge(Find(rules, ls', |ls'|, rules.key(c)), Find(rules, rs', |rs'|, rules.key(c))).Some?
    {
      assert c in ls + rs;
    }
    forall item: Item<V> ensures ItemOk(rules, ls, rs, item) <==> ItemOk(rules, ls', rs', item) { }
  }

  /******* Conservation *******/

  function Count<V>(items: seq<Item<V>>, n: nat, wanted: Item<V> -> bool): nat
    requires n <= |items|
  {
    if n == 0 then 0 else Count(items, n - 1, wanted) + if wanted(items[n - 1]) then 1 else 0
  }

  function KeysWhere<V>(items: seq<Item<V>>, n: nat, wanted: Item<V> -> bool): set<string>
    requires n <= |items|
  {
    if n == 0 then {} else KeysWhere(items, n - 1, wanted) + if wanted(items[n - 1]) then {items[n - 1].key} else {}
  }

  lemma {:induction false} KeysWhereMeans<V>(items: seq<Item<V>>, n: nat, wanted: Item<V> -> bool, key: string)
    requires n <= |items|
    ensures key in KeysWhere(items, n, wanted) <==> exists i :: 0 <= i < n && items[i].key == key && wanted(items[i])
  {
    if n > 0 { KeysWhereMeans(items, n - 1, wanted, key); }
  }

  lemma {:induction false} CountIsKeys<V>(items: seq<Item<V>>, n: nat, wanted: Item<V> -> bool)
    requires n <= |items| && forall i, j :: 0 <= i < j < |items| ==> items[i].key != items[j].key
    ensures |KeysWhere(items, n, wanted)| == Count(items, n, wanted)
  {
    if n > 0 {
      CountIsKeys(items, n - 1, wanted);
      KeysWhereMeans(items, n - 1, wanted, items[n - 1].key);
    }
  }

  function KeysOf<C, V>(rules: Rules<C, V>, cs: seq<C>, n: nat): set<string>
    requires n <= |cs|
  {
    if n == 0 then {} else KeysOf(rules, cs, n - 1) + {rules.key(cs[n - 1])}
  }

  lemma {:induction false} KeysOfMeans<C, V>(rules: Rules<C, V>, cs: seq<C>, n: nat, key: string)
    requires n <= |cs|
    ensures key in KeysOf(rules, cs, n) <==> exists i :: 0 <= i < n && rules.key(cs[i]) == key
  {
    if n > 0 { KeysOfMeans(rules, cs, n - 1, key); }
  }

  lemma {:induction false} KeysOfSize<C, V>(rules: Rules<C, V>, cs: seq<C>, n: nat)
    requires n <= |cs| && DistinctKeys(rules, cs)
    ensures |KeysOf(rules, cs, n)| == n
  {
    if n > 0 {
      KeysOfSize(rules, cs, n - 1);
      KeysOfMeans(rules, cs, n - 1, rules.key(cs[n - 1]));
    }
  }

  /** The items of a join have distinct keys. */
  lemma JoinKeysDiffer<C(!new), V>(rules: Rules<C, V>, ls: seq<C>, rs: seq<C>, items: seq<Item<V>>)
    requires IsJoin(rules, ls, rs, items)
    ensures forall i, j :: 0 <= i < j < |items| ==> items[i].key != items[j].key
  {
    forall i, j | 0 <= i < j < |items| ensures items[i].key != items[j].key {
      assert ItemOk(rules, ls, rs, items[i]) && ItemOk(rules, ls, rs, items[j]) && items[i].open < items[j].open;
    }
  }

  lemma SideKey<C(!new), V>(rules: Rules<C, V>, cs: seq<C>, items: seq<Item<V>>, side: Item<V> -> bool, key: string)
    requires DistinctKeys(rules, cs) && Covered(rules, cs, items)
    requires forall i :: 0 <= i < |items| ==> (side(items[i]) <==> Find(rules, cs, |cs|, items[i].key).Some?)
    ensures key in KeysWhere(items, |items|, side) <==> key in KeysOf(rules, cs, |cs|)
  {
    KeysWhereMeans(items, |items|, side, key);
    KeysOfMeans(rules, cs, |cs|, key);
    FindMeans(rules, cs, |cs|, key);
    if key in KeysOf(rules, cs, |cs|) {
      var n :| 0 <= n < |cs| && rules.key(cs[n]) == key;
      FindFinds(rules, cs, cs[n]);
      var i :| 0 <= i < |items| && items[i].key == rules.key(cs[n]);
      assert side(items[i]);
    }
  }

  lemma SideKeys<C(!new), V>(rules: Rules<C, V>, cs: seq<C>, items: seq<Item<V>>, side: Item<V> -> bool)
    requires DistinctKeys(rules, cs) && Covered(rules, cs, items)
    requires forall i :: 0 <= i < |items| ==> (side(items[i]) <==> Find(rules, cs, |cs|, items[i].key).Some?)
    ensures KeysWhere(items, |items|, side) == KeysOf(rules, cs, |cs|)
  {
    forall key ensures key in KeysWhere(items, |items|, side) <==> key in KeysOf(rules, cs, |cs|) {
      SideKey(rules, cs, items, side, key);
    }
  }

  /** Every element of either list is accounted for by exactly one item. */
  lemma JoinConserves<C(!new), V>(rules: Rules<C, V>, ls: seq<C>, rs: seq<C>, items: seq<Item<V>>)
    requires DistinctKeys(rules, ls) && DistinctKeys(rules, rs) && IsJoin(rules, ls, rs, items)
    ensures Count(items, |items|, (x: Item<V>) => x.left) == |ls|
    ensures Count(items, |items|, (x: Item<V>) => x.right) == |rs|
  {
    JoinKeysDiffer(rules, ls, rs, items);
    SideCount(rules, ls, items, (x: Item<V>) => x.left);
    SideCount(rules, rs, items, (x: Item<V>) => x.right);
  }

  lemma SideCount<C(!new), V>(rules: Rules<C, V>, cs: seq<C>, items: seq<Item<V>>, side: Item<V> -> bool)
    requires DistinctKeys(rules, cs) && Covered(rules, cs, items)
    requires forall i :: 0 <= i < |items| ==> (side(items[i]) <==> Find(rules, cs, |cs|, items[i].key).Some?)
    requires forall i, j :: 0 <= i < j < |items| ==> items[i].key != items[j].key
    ensures Count(items, |items|, side) == |cs|
  {
    SideKeys(rules, cs, items, side);
    CountIsKeys(items, |items|, side);
    KeysOfSize(rules, cs, |cs|);
  }

  /******* Joining what was stored *******/

  /** `f` keeps keys, times and verdicts. */
  ghost predicate Keeps<C(!new), V>(rules: Rules<C, V>, f: C -> C, ls: seq<C>, rs: seq<C>) {
    && (forall c :: c in ls + rs ==> rules.key(f(c)) == rules.key(c) && rules.open(f(c)) == rules.open(c))
    && (forall a :: a in ls ==> rules.judge(Some(f(a)), None) == rules.judge(Some(a), None))
    && (forall b :: b in rs ==> rules.judge(None, Some(f(b))) == rules.judge(None, Some(b)))
    && (forall a, b :: a in ls && b in rs && rules.key(a) == rules.key(b) ==>
          rules.judge(Some(f(a)), Some(f(b))) == rules.judge(Some(a), Some(b)))
  }

  function Map<C>(f: C -> C, cs: seq<C>): seq<C> { seq(|cs|, i requires 0 <= i < |cs| => f(cs[i])) }

  lemma {:induction false} FindMapped<C(!new), V>(rules: Rules<C, V>, f: C -> C, cs: seq<C>, n: nat, key: string)
    requires n <= |cs| && forall c :: c in cs ==> rules.key(f(c)) == rules.key(c)
    ensures match Find(rules, cs, n, key)
            case Some(c) => Find(rules, Map(f, cs), n, key) == Some(f(c))
            case None => Find(rules, Map(f, cs), n, key) == None
  {
    if n > 0 {
      assert cs[n - 1] in cs && Map(f, cs)[n - 1] == f(cs[n - 1]);
      FindMapped(rules, f, cs, n - 1, key);
    }
  }

  lemma ItemMapped<C(!new), V>(rules: Rules<C, V>, f: C -> C, ls: seq<C>, rs: seq<C>, item: Item<V>)
    requires Keeps(rules, f, ls, rs)
    ensures ItemOk(rules, ls, rs, item) <==> ItemOk(rules, Map(f, ls), Map(f, rs), item)
  {
    assert forall c :: c in ls ==> c in ls + rs;
    assert forall c :: c in rs ==> c in ls + rs;
    FindMapped(rules, f, ls, |ls|, item.key);
    FindMapped(rules, f, rs, |rs|, item.key);
    FindMeans(rules, ls, |ls|, item.key);
    FindMeans(rules, rs, |rs|, item.key);
  }

  lemma CoveredMapped<C(!new), V>(rules: Rules<C, V>, f: C -> C, cs: seq<C>, items: seq<Item<V>>)
    requires forall c :: c in cs ==> rules.key(f(c)) == rules.key(c)
    requires Covered(rules, cs, items)
    ensures Covered(rules, Map(f, cs), items)
  {
    forall d | d in Map(f, cs) ensures exists i :: 0 <= i < |items| && items[i].key == rules.key(d) {
      var n :| 0 <= n < |cs| && Map(f, cs)[n] == d;
      assert cs[n] in cs;
    }
  }

  /** A join of two lists is also the join of their stored forms. */
  lemma JoinOfStored<C(!new), V>(rules: Rules<C, V>, f: C -> C, ls: seq<C>, rs: seq<C>, items: seq<Item<V>>)
    requires Keeps(rules, f, ls, rs) && IsJoin(rules, ls, rs, items)
    ensures IsJoin(rules, Map(f, ls), Map(f, rs), items)
  {
    assert forall c :: c in ls ==> c in ls + rs;
    assert forall c :: c in rs ==> c in ls + rs;
    CoveredMapped(rules, f, ls, items);
    CoveredMapped(rules, f, rs, items);
    forall i | 0 <= i < |items| ensures ItemOk(rules, Map(f, ls), Map(f, rs), items[i]) { ItemMapped(rules, f, ls, rs, items[i]); }
  }

  /******* Judging otherwise *******/

  function Rejudge<V>(f: V -> V, items: seq<Item<V>>): (out: seq<Item<V>>)
    ensures |out| == |items|
  {
    seq(|items|, i requires 0 <= i < |items| => items[i].(verdict := f(items[i].verdict)))
  }

  lemma {:induction false} FindAlike<C(!new), V>(rules: Rules<C, V>, rules': Rules<C, V>, cs: seq<C>, n: nat, key: string)
    requires n <= |cs| && forall c :: rules'.key(c) == rules.key(c)
    ensures Find(rules', cs, n, key) == Find(rules, cs, n, key)
  {
    if n > 0 { FindAlike(rules, rules', cs, n - 1, key); }
  }

  lemma ItemRejudged<C(!new), V>(rules: Rules<C, V>, rules': Rules<C, V>, f: V -> V, ls: seq<C>, rs: seq<C>, item: Item<V>)
    requires forall c :: rules'.key(c) == rules.key(c) && rules'.open(c) == rules.open(c)
    requires forall l, r :: rules.judge(l, r).Some? ==> rules'.judge(l, r) == Some(f(rules.judge(l, r).value))
    requires ItemOk(rules, ls, rs, item)
    ensures ItemOk(rules', ls, rs, item.(verdict := f(item.verdict)))
  {
    FindAlike(rules, rules', ls, |ls|, item.key);
    FindAlike(rules, rules', rs, |rs|, item.key);
    var l, r := Find(rules, ls, |ls|, item.key), Find(rules, rs, |rs|, item.key);
    assert rules.judge(l, r).Some?;
  }

  /** Rules that judge the same keys otherwise join them in the same way. */
  lemma JoinRejudged<C(!new), V>(rules: Rules<C, V>, rules': Rules<C, V>, f: V -> V, ls: seq<C>, rs: seq<C>, items: seq<Item<V>>)
    requires forall c :: rules'.key(c) == rules.key(c) && rules'.open(c) == rules.open(c)
    requires forall l, r :: rules.judge(l, r).Some? ==> rules'.judge(l, r) == Some(f(rules.judge(l, r).value))
    requires IsJoin(rules, ls, rs, items)
    ensures IsJoin(rules', ls, rs, Rejudge(f, items))
  {
    var out := Rejudge(f, items);
    forall i | 0 <= i < |out| ensures ItemOk(rules', ls, rs, out[i]) && out[i].key == items[i].key {
      ItemRejudged(rules, rules', f, ls, rs, items[i]);
    }
    forall c | c in ls + rs ensures exists i :: 0 <= i < |out| && out[i].key == rules'.key(c) {
      var i :| 0 <= i < |items| && items[i].key == rules.key(c);
      assert out[i].key == rules'.key(c);
    }
    assert forall c :: c in ls ==> c in ls + rs;
    assert forall c :: c in rs ==> c in ls + rs;
  }
}
