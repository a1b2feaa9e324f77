/**
Cross-source reconciliation of WebSocket and Info candles: revalidation of both
extractions, the full outer join on logical keys, and a report that is accepted only if
deriving it again from its own extractions gives the same report.
*/
module Reconciliation {
  import opened Wrappers
  import opened Digits
  import opened Decimals
  import opened Candles
  import opened OuterJoin

  datatype Side = WebSocket | Info

  datatype EnvelopeShape = WsCandle | WsCandleArray | InfoArray

  /** An extraction as its owner holds it; `event` and `payload` identify what it was extracted from. */
  datatype Extraction = Extraction(event: string, payload: string, endpoint: string, operation: string, shape: EnvelopeShape,
                                   ident: Ident, candles: seq<Candle>, digest: string)

  /** SHA-256 over the JSON form of what is hashed, left uninterpreted; the digest itself is blanked. */
  datatype Hashes = Hashes(key: KeyHash, extraction: Extraction -> string, report: Report -> string)

  /** The endpoint, operation and envelope that go with a side. */
  predicate RoleOk(endpoint: string, operation: string, shape: EnvelopeShape, role: Side) {
    match role
    case WebSocket => endpoint == "hl-ws-mainnet-public" && operation == "candle" && shape != InfoArray
    case Info => endpoint == "hl-info-mainnet-public" && operation == "candleSnapshot" && shape == InfoArray
  }

  /** A valid candle whose key is the hash of its identity and open time. */
  predicate MemberOk(kh: KeyHash, ident: Ident, c: Candle) { CandleOk(c) && c.key == kh(ident, c.open) }

  /** A candle through its JSON form. */
  function Store(c: Candle): Candle { if FieldsOk(c) then RereadCandle(c) else c }

  function StoreExtraction(x: Extraction): Extraction { x.(candles := Map(Store, x.candles)) }

  predicate DigestOk(hs: Hashes, x: Extraction) { x.digest == hs.extraction(StoreExtraction(x).(digest := "")) }

  /** What revalidation demands of one side's extraction, besides distinct keys. */
  predicate ExtractionOk(hs: Hashes, x: Extraction, role: Side) {
    && RoleOk(x.endpoint, x.operation, x.shape, role) && DigestOk(hs, x)
    && forall i :: 0 <= i < |x.candles| ==> MemberOk(hs.key, x.ident, x.candles[i])
  }

  /** Where a compared candle comes from. */
  datatype Authority = Authority(side: Side, event: string, digest: string, endpoint: string, operation: string, shape: EnvelopeShape)

  function AuthorityOf(x: Extraction, role: Side): Authority { Authority(role, x.event, x.digest, x.endpoint, x.operation, x.shape) }

  /** What all comparisons of one report share. */
  datatype Scope = Scope(ident: Ident, ws: Authority, info: Authority)

  function ScopeOf(ws: Extraction, info: Extraction): Scope { Scope(ws.ident, AuthorityOf(ws, WebSocket), AuthorityOf(info, Info)) }

  predicate AuthorityOk(a: Authority, role: Side) { a.side == role && RoleOk(a.endpoint, a.operation, a.shape, role) }

  predicate ScopeOk(sc: Scope) { AuthorityOk(sc.ws, WebSocket) && AuthorityOk(sc.info, Info) }

  /******* One key *******/

  datatype Status = Match | Conflict | WsOnly | InfoOnly

  /** The verdict on one key; its candles have gone through their JSON form. */
  datatype Comparison = Comparison(status: Status, ws: Option<Candle>, wsAuthority: Option<Authority>,
                                   info: Option<Candle>, infoAuthority: Option<Authority>, differences: seq<Difference>)

  /** A pair with one open time and no difference too long for the wire. */
  predicate PairOk(a: Candle, b: Candle) {
    a.open == b.open && |a.amounts| == 5 && |b.amounts| == 5 && AllFit(a, b, |FIELDS|)
  }

  function Judge(kh: KeyHash, sc: Scope, w: Option<Candle>, i: Option<Candle>): Option<Comparison> {
    if (w.Some? && !MemberOk(kh, sc.ident, w.value)) || (i.Some? && !MemberOk(kh, sc.ident, i.value)) then None
    else match (w, i)
      case (None, None) => None
      case (Some(a), None) => Some(Comparison(WsOnly, Some(RereadCandle(a)), Some(sc.ws), None, None, []))
      case (None, Some(b)) => Some(Comparison(InfoOnly, None, None, Some(RereadCandle(b)), Some(sc.info), []))
      case (Some(a), Some(b)) => JudgePair(sc, a, b)
  }

  /** The verdict on a key both sides hold. */
  function JudgePair(sc: Scope, a: Candle, b: Candle): Option<Comparison>
    requires CandleOk(a) && CandleOk(b)
  {
    if !PairOk(a, b) then None else
      var differences := Differences(a, b);
      Some(Comparison(if differences == [] then Match else Conflict, Some(RereadCandle(a)), Some(sc.ws),
                      Some(RereadCandle(b)), Some(sc.info), differences))
  }

  /** Match and conflict mean that the values are equal, or not, whatever their spelling. */
  lemma JudgeMeans(kh: KeyHash, sc: Scope, a: Candle, b: Candle)
    requires MemberOk(kh, sc.ident, a) && MemberOk(kh, sc.ident, b) && PairOk(a, b)
    ensures Judge(kh, sc, Some(a), Some(b)).Some?
    ensures var v := Judge(kh, sc, Some(a), Some(b)).value;
            v.status == if forall f :: !Differ(Named(a, f), Named(b, f)) then Match else Conflict
  {
    NoDifferenceMeansEqual(a, b);
  }

  /** `validate_comparison` on the item stored under a key. */
  predicate CandleMatches(c: Option<Candle>, key: string, open: int) {
    c.Some? ==> CandleOk(c.value) && c.value.open == open && c.value.key == key
  }

  /** A candle comes with the authority of its side, and no candle without one. */
  predicate SideMatches(c: Option<Candle>, a: Option<Authority>, role: Side, key: string, open: int) {
    CandleMatches(c, key, open) && (c.Some? <==> a.Some?) && (a.Some? ==> AuthorityOk(a.value, role))
  }

  predicate ComparisonOk(kh: KeyHash, ident: Ident, key: string, open: int, v: Comparison) {
    && key == kh(ident, open)
    && SideMatches(v.ws, v.wsAuthority, WebSocket, key, open) && SideMatches(v.info, v.infoAuthority, Info, key, open)
    && match v.status
       case WsOnly => v.ws.Some? && v.info.None? && v.differences == []
       case InfoOnly => v.ws.None? && v.info.Some? && v.differences == []
       case _ =>
         && v.ws.Some? && v.info.Some? && AllFit(v.ws.value, v.info.value, |FIELDS|)
         && v.differences == Differences(v.ws.value, v.info.value)
         && (v.status == Match <==> v.differences == [])
  }

  /** Decides exactly ComparisonOk, with the field loop of `_expected_differences`. */
  method ValidateComparison(kh: KeyHash, ident: Ident, key: string, open: int, v: Comparison) returns (ok: bool)
    ensures ok <==> ComparisonOk(kh, ident, key, open, v)
  {
    if key != kh(ident, open) || v.ws.Some? != v.wsAuthority.Some? || v.info.Some? != v.infoAuthority.Some? { return false; }
    if !CandleMatches(v.ws, key, open) || !CandleMatches(v.info, key, open) { return false; }
    if v.wsAuthority.Some? && !AuthorityOk(v.wsAuthority.value, WebSocket) { return false; }
    if v.infoAuthority.Some? && !AuthorityOk(v.infoAuthority.value, Info) { return false; }
    match v.status {
      case WsOnly => return v.ws.Some? && v.info.None? && v.differences == [];
      case InfoOnly => return v.ws.None? && v.info.Some? && v.differences == [];
      case _ =>
        if v.ws.None? || v.info.None? { return false; }
        var expected := ExpectedDifferences(v.ws.value, v.info.value);
        if expected.None? { return false; }
        return v.differences == expected.value && (v.status == Match <==> expected.value == []);
    }
  }

  lemma StoredPairOk(kh: KeyHash, sc: Scope, a: Candle, b: Candle, v: Comparison)
    requires MemberOk(kh, sc.ident, a) && MemberOk(kh, sc.ident, b) && a.key == b.key
    requires v.ws == Some(RereadCandle(a)) && v.info == Some(RereadCandle(b))
    requires v.wsAuthority == Some(sc.ws) && v.infoAuthority == Some(sc.info) && ScopeOk(sc)
    requires v.differences == Differences(a, b) && v.status == if v.differences == [] then Match else Conflict
    ensures ComparisonOk(kh, sc.ident, a.key, a.open, v) <==> PairOk(a, b)
  {
    RereadKeepsComparison(a, b);
  }

  /** A key both sides hold, as the derivation treats it: compare, store, validate what was stored. */
  method ComparePair(kh: KeyHash, sc: Scope, a: Candle, b: Candle) returns (r: Option<Comparison>)
    requires MemberOk(kh, sc.ident, a) && MemberOk(kh, sc.ident, b) && a.key == b.key && ScopeOk(sc)
    ensures r == Judge(kh, sc, Some(a), Some(b))
    ensures r.Some? ==> ComparisonOk(kh, sc.ident, a.key, a.open, r.value)
  {
    var expected := ExpectedDifferences(a, b);
    if expected.None? { return None; }
    var status := if expected.value == [] then Match else Conflict;
    var v := Comparison(status, Some(RereadCandle(a)), Some(sc.ws), Some(RereadCandle(b)), Some(sc.info), expected.value);
    StoredPairOk(kh, sc, a, b, v);
    var ok := ValidateComparison(kh, sc.ident, a.key, a.open, v);
    return if ok then Some(v) else None;
  }

  /** A key one side holds is never refused. */
  lemma SingleIsAccepted(kh: KeyHash, sc: Scope, c: Candle)
    requires MemberOk(kh, sc.ident, c) && ScopeOk(sc)
    ensures var v := Judge(kh, sc, Some(c), None); v.Some? && ComparisonOk(kh, sc.ident, c.key, c.open, v.value)
    ensures var v := Judge(kh, sc, None, Some(c)); v.Some? && ComparisonOk(kh, sc.ident, c.key, c.open, v.value)
  {
    RereadKeepsCandle(c);
  }

  /** The authority of each candle the comparison holds. */
  predicate Sources(sc: Scope, v: Comparison) {
    && v.wsAuthority == (if v.ws.Some? then Some(sc.ws) else None)
    && v.infoAuthority == if v.info.Some? then Some(sc.info) else None
  }

  predicate IsStored(c: Option<Candle>) { c.Some? ==> FieldsOk(c.value) && RereadCandle(c.value) == c.value }

  /** A candle on file under a key and an open time. */
  predicate Filed(c: Option<Candle>, key: string, open: int) { c.Some? ==> c.value.key == key && c.value.open == open }

  lemma ValidIsMember(kh: KeyHash, sc: Scope, key: string, open: int, v: Comparison)
    requires key == kh(sc.ident, open) && Filed(v.ws, key, open) && Filed(v.info, key, open)
    ensures v.ws.Some? ==> (MemberOk(kh, sc.ident, v.ws.value) <==> CandleOk(v.ws.value))
    ensures v.info.Some? ==> (MemberOk(kh, sc.ident, v.info.value) <==> CandleOk(v.info.value))
  {
  }

  ghost predicate PairShape(a: Candle, b: Candle, v: Comparison)
    requires FieldsOk(a) && FieldsOk(b)
  {
    v.differences == Differences(a, b) && v.status == if v.differences == [] then Match else Conflict
  }

  lemma ValidPairHasShape(kh: KeyHash, ident: Ident, key: string, open: int, a: Candle, b: Candle, v: Comparison)
    requires v.ws == Some(a) && v.info == Some(b) && FieldsOk(a) && FieldsOk(b)
    ensures ComparisonOk(kh, ident, key, open, v) ==> CandleOk(a) && CandleOk(b) && PairShape(a, b, v)
  {
  }

  lemma JudgedPairHasShape(kh: KeyHash, sc: Scope, a: Candle, b: Candle, v: Comparison)
    requires v.ws == Some(a) && v.info == Some(b) && Sources(sc, v) && FieldsOk(a) && FieldsOk(b)
    requires RereadCandle(a) == a && RereadCandle(b) == b
    ensures Judge(kh, sc, Some(a), Some(b)) == Some(v) <==> MemberOk(kh, sc.ident, a) && MemberOk(kh, sc.ident, b) && PairOk(a, b) && PairShape(a, b, v)
  {
    if MemberOk(kh, sc.ident, a) && MemberOk(kh, sc.ident, b) { JudgedPairShape(sc, a, b, v); }
  }

  lemma JudgedPairShape(sc: Scope, a: Candle, b: Candle, v: Comparison)
    requires v.ws == Some(a) && v.info == Some(b) && Sources(sc, v) && CandleOk(a) && CandleOk(b)
    requires RereadCandle(a) == a && RereadCandle(b) == b
    ensures JudgePair(sc, a, b) == Some(v) <==> PairOk(a, b) && PairShape(a, b, v)
  {
  }

  lemma ValidPairIsJudged(kh: KeyHash, sc: Scope, key: string, open: int, a: Candle, b: Candle, v: Comparison)
    requires ScopeOk(sc) && Sources(sc, v) && IsStored(v.ws) && IsStored(v.info) && v.ws == Some(a) && v.info == Some(b)
    requires key == kh(sc.ident, open) && Filed(v.ws, key, open) && Filed(v.info, key, open)
    ensures ComparisonOk(kh, sc.ident, key, open, v) <==> Judge(kh, sc, Some(a), Some(b)) == Some(v)
  {
    ValidIsMember(kh, sc, key, open, v);
    ValidPairHasShape(kh, sc.ident, key, open, a, b, v);
    JudgedPairHasShape(kh, sc, a, b, v);
    if CandleOk(a) && CandleOk(b) && PairShape(a, b, v) { StoredPairOk(kh, sc, a, b, v); }
  }

  lemma ValidWsOnly(kh: KeyHash, ident: Ident, key: string, open: int, c: Candle, v: Comparison)
    requires v.ws == Some(c) && v.info == None && v.wsAuthority.Some? && v.infoAuthority == None && AuthorityOk(v.wsAuthority.value, WebSocket)
    requires key == kh(ident, open) && c.key == key && c.open == open
    ensures ComparisonOk(kh, ident, key, open, v) <==> CandleOk(c) && v.status == WsOnly && v.differences == []
  {
  }

  lemma ValidInfoOnly(kh: KeyHash, ident: Ident, key: string, open: int, c: Candle, v: Comparison)
    requires v.ws == None && v.info == Some(c) && v.infoAuthority.Some? && v.wsAuthority == None && AuthorityOk(v.infoAuthority.value, Info)
    requires key == kh(ident, open) && c.key == key && c.open == open
    ensures ComparisonOk(kh, ident, key, open, v) <==> CandleOk(c) && v.status == InfoOnly && v.differences == []
  {
  }

  lemma ValidSingleIsJudged(kh: KeyHash, sc: Scope, key: string, open: int, v: Comparison)
    requires ScopeOk(sc) && Sources(sc, v) && IsStored(v.ws) && IsStored(v.info) && (v.ws.None? || v.info.None?)
    requires key == kh(sc.ident, open) && Filed(v.ws, key, open) && Filed(v.info, key, open)
    ensures ComparisonOk(kh, sc.ident, key, open, v) <==> Judge(kh, sc, v.ws, v.info) == Some(v)
  {
    ValidIsMember(kh, sc, key, open, v);
    if v.ws.Some? {
      ValidWsOnly(kh, sc.ident, key, open, v.ws.value, v);
    } else if v.info.Some? {
      ValidInfoOnly(kh, sc.ident, key, open, v.info.value, v);
    }
  }

  /**
  The validator of a stored comparison and the derivation agree: filed candles with the authorities of the
  two extractions form a valid comparison exactly if it is the one the derivation would make of them.
  */
  lemma ValidIsJudged(kh: KeyHash, sc: Scope, key: string, open: int, v: Comparison)
    requires ScopeOk(sc) && Sources(sc, v) && IsStored(v.ws) && IsStored(v.info)
    requires key == kh(sc.ident, open) && Filed(v.ws, key, open) && Filed(v.info, key, open)
    ensures ComparisonOk(kh, sc.ident, key, open, v) <==> Judge(kh, sc, v.ws, v.info) == Some(v)
  {
    if v.ws.Some? && v.info.Some? {
      ValidPairIsJudged(kh, sc, key, open, v.ws.value, v.info.value, v);
    } else {
      ValidSingleIsJudged(kh, sc, key, open, v);
    }
  }

  /** A valid comparison is about its own key: hashed from identity and time, and the key of every candle it holds. */
  lemma ValidIsFiled(kh: KeyHash, ident: Ident, key: string, open: int, v: Comparison)
    requires ComparisonOk(kh, ident, key, open, v)
    ensures key == kh(ident, open) && Filed(v.ws, key, open) && Filed(v.info, key, open) && (v.ws.Some? || v.info.Some?)
    ensures v.ws.Some? <==> v.wsAuthority.Some? && v.wsAuthority.value.side == WebSocket
    ensures v.info.Some? <==> v.infoAuthority.Some? && v.infoAuthority.value.side == Info
  {
  }

  /** No extraction passes for both sides. */
  lemma SidesAreDisjoint(hs: Hashes, x: Extraction)
    ensures !(ExtractionOk(hs, x, WebSocket) && ExtractionOk(hs, x, Info))
  {
  }

  /******* The report *******/

  function RulesFor(kh: KeyHash, sc: Scope): Rules<Candle, Comparison> {
    Rules((c: Candle) => c.key, (c: Candle) => c.open, (w, i) => Judge(kh, sc, w, i))
  }

  function ReportRules(hs: Hashes, ws: Extraction, info: Extraction): Rules<Candle, Comparison> { RulesFor(hs.key, ScopeOf(ws, info)) }

  ghost predicate Bindable(hs: Hashes, ws: Extraction, info: Extraction) {
    && ExtractionOk(hs, ws, WebSocket) && ExtractionOk(hs, info, Info) && ws.ident == info.ident
    && KeysDiffer(ws.candles) && KeysDiffer(info.candles)
    && forall a, b :: a in ws.candles && b in info.candles && a.key == b.key ==> PairOk(a, b)
  }

  datatype Counts = Counts(match_: nat, conflict: nat, wsOnly: nat, infoOnly: nat)

  function Bump(c: Counts, status: Status): Counts {
    match status
    case Match => c.(match_ := c.match_ + 1)
    case Conflict => c.(conflict := c.conflict + 1)
    case WsOnly => c.(wsOnly := c.wsOnly + 1)
    case InfoOnly => c.(infoOnly := c.infoOnly + 1)
  }

  function Tally(items: seq<Item<Comparison>>, n: nat): Counts
    requires n <= |items|
  {
    if n == 0 then Counts(0, 0, 0, 0) else Bump(Tally(items, n - 1), items[n - 1].verdict.status)
  }

  /** The scalar fields repeat what the embedded extractions say. */
  datatype Report = Report(ident: Ident, ws: Extraction, info: Extraction, wsEvent: string, wsDigest: string,
                           infoEvent: string, infoDigest: string, items: seq<Item<Comparison>>, counts: Counts, digest: string)

  /** The one report about two extractions. */
  ghost predicate IsReport(hs: Hashes, ws: Extraction, info: Extraction, report: Report) {
    && report.ident == ws.ident && report.ws == StoreExtraction(ws) && report.info == StoreExtraction(info)
    && report.wsEvent == ws.event && report.wsDigest == ws.digest && report.infoEvent == info.event && report.infoDigest == info.digest
    && IsJoin(ReportRules(hs, ws, info), ws.candles, info.candles, report.items)
    && report.counts == Tally(report.items, |report.items|)
    && report.digest == hs.report(report.(digest := ""))
  }

  lemma ReportIsUnique(hs: Hashes, ws: Extraction, info: Extraction, r: Report, s: Report)
    requires IsReport(hs, ws, info, r) && IsReport(hs, ws, info, s)
    ensures r == s
  {
    JoinIsUnique(ReportRules(hs, ws, info), ws.candles, info.candles, r.items, s.items);
  }

  /******* When a reconciliation can be derived *******/

  ghost predicate AllMembers(kh: KeyHash, ident: Ident, cs: seq<Candle>) {
    forall c :: c in cs ==> MemberOk(kh, ident, c)
  }

  lemma TimesIdentifyKeys(kh: KeyHash, sc: Scope, ws: seq<Candle>, info: seq<Candle>)
    requires AllMembers(kh, sc.ident, ws) && AllMembers(kh, sc.ident, info)
    ensures TimesIdentify(RulesFor(kh, sc), ws, info)
  {
  }

  /** What a side holds under a key is one of its valid candles, filed under that key. */
  lemma HeldIsMember(kh: KeyHash, sc: Scope, cs: seq<Candle>, key: string)
    requires AllMembers(kh, sc.ident, cs)
    ensures var found := Find(RulesFor(kh, sc), cs, |cs|, key);
            found.Some? ==> found.value in cs && found.value.key == key && MemberOk(kh, sc.ident, found.value)
  {
    FindMeans(RulesFor(kh, sc), cs, |cs|, key);
  }

  lemma KeyIsJudged(kh: KeyHash, sc: Scope, ws: seq<Candle>, info: seq<Candle>, c: Candle)
    requires AllMembers(kh, sc.ident, ws) && AllMembers(kh, sc.ident, info) && c in ws + info
    requires forall a, b :: a in ws && b in info && a.key == b.key ==> PairOk(a, b)
    ensures var rules := RulesFor(kh, sc);
            rules.judge(Find(rules, ws, |ws|, rules.key(c)), Find(rules, info, |info|, rules.key(c))).Some?
  {
    var rules := RulesFor(kh, sc);
    HeldIsMember(kh, sc, ws, c.key);
    HeldIsMember(kh, sc, info, c.key);
    FindMeans(rules, ws, |ws|, c.key);
    FindMeans(rules, info, |info|, c.key);
  }

  lemma PairIsJudged(kh: KeyHash, sc: Scope, ws: seq<Candle>, info: seq<Candle>, a: Candle, b: Candle)
    requires Joinable(RulesFor(kh, sc), ws, info) && a in ws && b in info && a.key == b.key
    ensures PairOk(a, b)
  {
    var rules := RulesFor(kh, sc);
    FindFinds(rules, ws, a);
    FindFinds(rules, info, b);
    assert a in ws + info;
    assert rules.judge(Some(a), Some(b)).Some?;
  }

  /** The derivation fails on valid extractions only for a repeated key or an incomparable pair. */
  lemma JoinableMeans(kh: KeyHash, sc: Scope, ws: seq<Candle>, info: seq<Candle>)
    requires AllMembers(kh, sc.ident, ws) && AllMembers(kh, sc.ident, info)
    ensures Joinable(RulesFor(kh, sc), ws, info) <==>
      && DistinctKeys(RulesFor(kh, sc), ws) && DistinctKeys(RulesFor(kh, sc), info)
      && forall a, b :: a in ws && b in info && a.key == b.key ==> PairOk(a, b)
  {
    var rules := RulesFor(kh, sc);
    if Joinable(rules, ws, info) {
      forall a, b | a in ws && b in info && a.key == b.key ensures PairOk(a, b) { PairIsJudged(kh, sc, ws, info, a, b); }
    }
    if forall a, b :: a in ws && b in info && a.key == b.key ==> PairOk(a, b) {
      forall c | c in ws + info
        ensures rules.judge(Find(rules, ws, |ws|, rules.key(c)), Find(rules, info, |info|, rules.key(c))).Some?
      {
        KeyIsJudged(kh, sc, ws, info, c);
      }
    }
  }

  predicate KeysDiffer(cs: seq<Candle>) { forall i, j :: 0 <= i < j < |cs| ==> cs[i].key != cs[j].key }

  /** `_strict_revalidate_a5_extraction`, with its set of seen keys, the digest and the side's literals. */
  method RevalidateExtraction(hs: Hashes, x: Extraction, role: Side) returns (ok: bool)
    ensures ok <==> ExtractionOk(hs, x, role) && KeysDiffer(x.candles)
  {
    ok := ScanKeys(ReportRules(hs, x, x), (c: Candle) => MemberOk(hs.key, x.ident, c), x.candles);
    if !ok || x.digest != hs.extraction(StoreExtraction(x).(digest := "")) { return false; }
    match role {
      case WebSocket =>
        if x.endpoint != "hl-ws-mainnet-public" || x.operation != "candle" { return false; }
        return x.shape == WsCandle || x.shape == WsCandleArray;
      case Info =>
        if x.endpoint != "hl-info-mainnet-public" || x.operation != "candleSnapshot" { return false; }
        return x.shape == InfoArray;
    }
  }

  /** Exactly the bindable extractions have a report, and it is the one returned. */
  method Derive(hs: Hashes, ws: Extraction, info: Extraction) returns (r: Option<Report>)
    ensures r.Some? <==> Bindable(hs, ws, info)
    ensures r.Some? ==> IsReport(hs, ws, info, r.value)
  {
    var wsOk := RevalidateExtraction(hs, ws, WebSocket);
    if !wsOk { return None; }
    var infoOk := RevalidateExtraction(hs, info, Info);
    if !infoOk || ws.ident != info.ident { return None; }
    assert AllMembers(hs.key, ws.ident, ws.candles) && AllMembers(hs.key, ws.ident, info.candles);
    TimesIdentifyKeys(hs.key, ScopeOf(ws, info), ws.candles, info.candles);
    JoinableMeans(hs.key, ScopeOf(ws, info), ws.candles, info.candles);
    var joined := FullOuterJoin(ReportRules(hs, ws, info), ws.candles, info.candles);
    if joined.None? { return None; }
    var counts := CountStatuses(joined.value);
    var report := Report(ws.ident, StoreExtraction(ws), StoreExtraction(info), ws.event, ws.digest, info.event, info.digest,
                         joined.value, counts, "");
    return Some(report.(digest := hs.report(report)));
  }

  method CountStatuses(items: seq<Item<Comparison>>) returns (counts: Counts)
    ensures counts == Tally(items, |items|)
  {
    counts := Counts(0, 0, 0, 0);
    var n := 0;
    while n < |items|
      invariant 0 <= n <= |items| && counts == Tally(items, n)
    {
      counts := Bump(counts, items[n].verdict.status);
      n := n + 1;
    }
  }

  /******* The counts account for every candle *******/

  ghost predicate StatusFits(item: Item<Comparison>) {
    && (item.left <==> item.verdict.status != InfoOnly) && (item.right <==> item.verdict.status != WsOnly)
  }

  lemma StatusFollowsSides(kh: KeyHash, sc: Scope, ws: seq<Candle>, info: seq<Candle>, item: Item<Comparison>)
    requires ItemOk(RulesFor(kh, sc), ws, info, item)
    ensures StatusFits(item)
  {
    var rules := RulesFor(kh, sc);
    var l, r := Find(rules, ws, |ws|, item.key), Find(rules, info, |info|, item.key);
    assert rules.judge(l, r) == Judge(kh, sc, l, r);
  }

  lemma {:induction false} TallyMeans(items: seq<Item<Comparison>>, n: nat)
    requires n <= |items| && forall i :: 0 <= i < |items| ==> StatusFits(items[i])
    ensures var t := Tally(items, n);
            && t.match_ + t.conflict + t.wsOnly == Count(items, n, (x: Item<Comparison>) => x.left)
            && t.match_ + t.conflict + t.infoOnly == Count(items, n, (x: Item<Comparison>) => x.right)
            && t.match_ + t.conflict + t.wsOnly + t.infoOnly == n
  {
    if n > 0 { TallyMeans(items, n - 1); }
  }

  function StatusIs(status: Status): Item<Comparison> -> bool { (x: Item<Comparison>) => x.verdict.status == status }

  /** Each count is the number of comparisons with that status. */
  lemma {:induction false} TallyCounts(items: seq<Item<Comparison>>, n: nat)
    requires n <= |items|
    ensures var t := Tally(items, n);
            && t.match_ == Count(items, n, StatusIs(Match)) && t.conflict == Count(items, n, StatusIs(Conflict))
            && t.wsOnly == Count(items, n, StatusIs(WsOnly)) && t.infoOnly == Count(items, n, StatusIs(InfoOnly))
  {
    if n > 0 { TallyCounts(items, n - 1); }
  }

  /** The four counts account for every candle of either side exactly once. */
  lemma CountsConserveCandles(hs: Hashes, ws: Extraction, info: Extraction, report: Report)
    requires Bindable(hs, ws, info) && IsReport(hs, ws, info, report)
    ensures report.counts.match_ + report.counts.conflict + report.counts.wsOnly == |ws.candles|
    ensures report.counts.match_ + report.counts.conflict + report.counts.infoOnly == |info.candles|
    ensures report.counts.match_ + report.counts.conflict + report.counts.wsOnly + report.counts.infoOnly == |report.items|
    ensures report.counts.match_ == Count(report.items, |report.items|, StatusIs(Match))
    ensures report.counts.conflict == Count(report.items, |report.items|, StatusIs(Conflict))
  {
    TallyCounts(report.items, |report.items|);
    var rules := ReportRules(hs, ws, info);
    forall i | 0 <= i < |report.items| ensures StatusFits(report.items[i]) {
      StatusFollowsSides(hs.key, ScopeOf(ws, info), ws.candles, info.candles, report.items[i]);
    }
    TallyMeans(report.items, |report.items|);
    JoinConserves(rules, ws.candles, info.candles, report.items);
  }

  /******* A valid pair that cannot be bound *******/

  const ONE: Decimal := Decimal(false, [1], 0)

  lemma OneIsOk()
    ensures DecimalOk(ONE) && IsPositive(ONE) && LessEq(ONE, ONE)
  {
    assert Trim(ONE).digits == [1];
  }

  /** A candle of flat price and volume one. */
  function Flat(key: string, trades: nat): Candle { Candle(key, 0, 1, [ONE, ONE, ONE, ONE, ONE], trades) }

  function Sealed(hs: Hashes, x: Extraction): Extraction { x.(digest := hs.extraction(StoreExtraction(x).(digest := ""))) }

  lemma FlatIsOk(kh: KeyHash, ident: Ident, trades: nat)
    ensures MemberOk(kh, ident, Flat(kh(ident, 0), trades))
  {
    OneIsOk();
  }

  lemma LongPairIsNotOk(key: string, n: nat)
    requires n == Pow10(MAX_WIRE_LENGTH)
    ensures !PairOk(Flat(key, n), Flat(key, 0))
  {
    PowerDigits(MAX_WIRE_LENGTH);
    Pow10Positive(MAX_WIRE_LENGTH);
    var a, b := Flat(key, n), Flat(key, 0);
    assert Differ(ValueAt(a, 6), ValueAt(b, 6)) && !FitsWire(ValueAt(a, 6));
  }

  /** Two valid extractions of one candle each, whose trade counts differ, one of them with 81 digits: they do not bind. */
  lemma LongCountsDoNotBind(hs: Hashes, ident: Ident) returns (ws: Extraction, info: Extraction)
    ensures ExtractionOk(hs, ws, WebSocket) && ExtractionOk(hs, info, Info) && ws.ident == info.ident == ident
    ensures |ws.candles| == |info.candles| == 1 && ws.candles[0] == info.candles[0].(trades := Pow10(MAX_WIRE_LENGTH))
    ensures !Bindable(hs, ws, info)
  {
    var key := hs.key(ident, 0);
    var a, b := Flat(key, Pow10(MAX_WIRE_LENGTH)), Flat(key, 0);
    ws := Sealed(hs, Extraction("", "", "hl-ws-mainnet-public", "candle", WsCandle, ident, [a], ""));
    info := Sealed(hs, Extraction("", "", "hl-info-mainnet-public", "candleSnapshot", InfoArray, ident, [b], ""));
    FlatIsOk(hs.key, ident, Pow10(MAX_WIRE_LENGTH));
    FlatIsOk(hs.key, ident, 0);
    LongPairIsNotOk(key, Pow10(MAX_WIRE_LENGTH));
    assert a in ws.candles && b in info.candles && !PairOk(a, b);
  }

  /******* The order of candles does not matter *******/

  /** The same candles in another order, under a digest of their own. */
  ghost predicate Rearranged(hs: Hashes, x: Extraction, y: Extraction) {
    y == x.(candles := y.candles, digest := y.digest) && multiset(x.candles) == multiset(y.candles) && DigestOk(hs, y)
  }

  lemma MembersIgnoreOrder(hs: Hashes, x: Extraction, y: Extraction, role: Side)
    requires ExtractionOk(hs, x, role) && Rearranged(hs, x, y)
    ensures ExtractionOk(hs, y, role)
  {
    forall i | 0 <= i < |y.candles| ensures MemberOk(hs.key, y.ident, y.candles[i]) {
      assert y.candles[i] in y.candles;
      SameMembers(x.candles, y.candles, y.candles[i]);
    }
  }

  /** The verdict under other authorities. */
  function Sourced(sc: Scope): Comparison -> Comparison {
    (v: Comparison) => v.(wsAuthority := if v.ws.Some? then Some(sc.ws) else None, infoAuthority := if v.info.Some? then Some(sc.info) else None)
  }

  lemma JoinUnderScope(kh: KeyHash, sc: Scope, sc': Scope, ws: seq<Candle>, info: seq<Candle>, items: seq<Item<Comparison>>)
    requires IsJoin(RulesFor(kh, sc), ws, info, items) && sc.ident == sc'.ident
    ensures IsJoin(RulesFor(kh, sc'), ws, info, Rejudge(Sourced(sc'), items))
  {
    var rules, rules' := RulesFor(kh, sc), RulesFor(kh, sc');
    forall l, r | rules.judge(l, r).Some? ensures rules'.judge(l, r) == Some(Sourced(sc')(rules.judge(l, r).value)) {
      assert rules.judge(l, r) == Judge(kh, sc, l, r) && rules'.judge(l, r) == Judge(kh, sc', l, r);
    }
    JoinRejudged(rules, rules', Sourced(sc'), ws, info, items);
  }

  lemma {:induction false} TallyUnderScope(sc: Scope, items: seq<Item<Comparison>>, n: nat)
    requires n <= |items|
    ensures Tally(Rejudge(Sourced(sc), items), n) == Tally(items, n)
  {
    if n > 0 { TallyUnderScope(sc, items, n - 1); }
  }

  lemma RearrangedIsBindable(hs: Hashes, ws: Extraction, info: Extraction, ws': Extraction, info': Extraction)
    requires Bindable(hs, ws, info) && Rearranged(hs, ws, ws') && Rearranged(hs, info, info')
    ensures Bindable(hs, ws', info') && Joinable(ReportRules(hs, ws, info), ws.candles, info.candles)
  {
    var rules := ReportRules(hs, ws, info);
    MembersIgnoreOrder(hs, ws, ws', WebSocket);
    MembersIgnoreOrder(hs, info, info', Info);
    assert AllMembers(hs.key, ws.ident, ws.candles) && AllMembers(hs.key, ws.ident, info.candles);
    assert AllMembers(hs.key, ws.ident, ws'.candles) && AllMembers(hs.key, ws.ident, info'.candles);
    JoinableMeans(hs.key, ScopeOf(ws, info), ws.candles, info.candles);
    DistinctIgnoresOrder(rules, ws.candles, ws'.candles);
    DistinctIgnoresOrder(rules, info.candles, info'.candles);
    assert KeysDiffer(ws'.candles) <==> DistinctKeys(rules, ws'.candles);
    assert KeysDiffer(info'.candles) <==> DistinctKeys(rules, info'.candles);
  }

  /** Rearranged extractions bind when the originals do, with the same counts and comparisons under their own authorities. */
  lemma ReportIgnoresOrder(hs: Hashes, ws: Extraction, info: Extraction, ws': Extraction, info': Extraction, r: Report, r': Report)
    requires Bindable(hs, ws, info) && IsReport(hs, ws, info, r)
    requires Rearranged(hs, ws, ws') && Rearranged(hs, info, info') && IsReport(hs, ws', info', r')
    ensures Bindable(hs, ws', info') && r'.items == Rejudge(Sourced(ScopeOf(ws', info')), r.items) && r.counts == r'.counts
  {
    var rules, sc, sc' := ReportRules(hs, ws, info), ScopeOf(ws, info), ScopeOf(ws', info');
    RearrangedIsBindable(hs, ws, info, ws', info');
    JoinIgnoresOrder(rules, ws.candles, info.candles, ws'.candles, info'.candles, r.items);
    JoinUnderScope(hs.key, sc, sc', ws'.candles, info'.candles, r.items);
    JoinIsUnique(ReportRules(hs, ws', info'), ws'.candles, info'.candles, Rejudge(Sourced(sc'), r.items), r'.items);
    TallyUnderScope(sc', r.items, |r.items|);
  }

  /******* A report validates against its own extractions *******/

  lemma StoreKeepsMember(kh: KeyHash, ident: Ident, c: Candle)
    requires MemberOk(kh, ident, c)
    ensures MemberOk(kh, ident, Store(c)) && Store(c).key == c.key && Store(c).open == c.open
    ensures RereadCandle(Store(c)) == RereadCandle(c)
  {
    RereadKeepsCandle(c);
    RereadIsIdempotent(c);
  }

  lemma StoreKeepsPairOk(a: Candle, b: Candle)
    requires CandleOk(a) && CandleOk(b)
    ensures PairOk(Store(a), Store(b)) <==> PairOk(a, b)
    ensures FieldsOk(Store(a)) && FieldsOk(Store(b)) && Differences(Store(a), Store(b)) == Differences(a, b)
  {
    RereadKeepsComparison(a, b);
  }

  lemma SamePairVerdict(kh: KeyHash, sc: Scope, a: Candle, b: Candle, c: Candle, d: Candle)
    requires MemberOk(kh, sc.ident, a) && MemberOk(kh, sc.ident, b) && MemberOk(kh, sc.ident, c) && MemberOk(kh, sc.ident, d)
    requires PairOk(a, b) <==> PairOk(c, d)
    requires Differences(a, b) == Differences(c, d)
    requires RereadCandle(a) == RereadCandle(c) && RereadCandle(b) == RereadCandle(d)
    ensures Judge(kh, sc, Some(a), Some(b)) == Judge(kh, sc, Some(c), Some(d))
  {
  }

  lemma StoreKeepsPair(kh: KeyHash, sc: Scope, a: Candle, b: Candle)
    requires MemberOk(kh, sc.ident, a) && MemberOk(kh, sc.ident, b)
    ensures Judge(kh, sc, Some(Store(a)), Some(Store(b))) == Judge(kh, sc, Some(a), Some(b))
  {
    StoreKeepsMember(kh, sc.ident, a);
    StoreKeepsMember(kh, sc.ident, b);
    StoreKeepsPairOk(a, b);
    SamePairVerdict(kh, sc, Store(a), Store(b), a, b);
  }

  lemma StoreKeepsSingle(kh: KeyHash, sc: Scope, c: Candle)
    requires MemberOk(kh, sc.ident, c)
    ensures Judge(kh, sc, Some(Store(c)), None) == Judge(kh, sc, Some(c), None)
    ensures Judge(kh, sc, None, Some(Store(c))) == Judge(kh, sc, None, Some(c))
  {
    StoreKeepsMember(kh, sc.ident, c);
  }

  lemma StoreKeeps(kh: KeyHash, sc: Scope, ws: seq<Candle>, info: seq<Candle>)
    requires AllMembers(kh, sc.ident, ws) && AllMembers(kh, sc.ident, info)
    ensures Keeps(RulesFor(kh, sc), Store, ws, info)
  {
    var rules := RulesFor(kh, sc);
    forall c | c in ws + info ensures rules.key(Store(c)) == rules.key(c) && rules.open(Store(c)) == rules.open(c) {
      StoreKeepsMember(kh, sc.ident, c);
    }
    forall a | a in ws ensures rules.judge(Some(Store(a)), None) == rules.judge(Some(a), None) { StoreKeepsSingle(kh, sc, a); }
    forall b | b in info ensures rules.judge(None, Some(Store(b))) == rules.judge(None, Some(b)) { StoreKeepsSingle(kh, sc, b); }
    forall a, b | a in ws && b in info && rules.key(a) == rules.key(b)
      ensures rules.judge(Some(Store(a)), Some(Store(b))) == rules.judge(Some(a), Some(b))
    {
      StoreKeepsPair(kh, sc, a, b);
    }
  }

  lemma StoreTwice(x: Extraction, hs: Hashes, role: Side)
    requires ExtractionOk(hs, x, role)
    ensures ExtractionOk(hs, StoreExtraction(x), role) && StoreExtraction(StoreExtraction(x)) == StoreExtraction(x)
  {
    forall i | 0 <= i < |x.candles| ensures MemberOk(hs.key, x.ident, Store(x.candles[i])) && Store(Store(x.candles[i])) == Store(x.candles[i]) {
      StoreKeepsMember(hs.key, x.ident, x.candles[i]);
    }
    assert StoreExtraction(StoreExtraction(x)) == StoreExtraction(x);
    assert StoreExtraction(StoreExtraction(x)).(digest := "") == StoreExtraction(x).(digest := "");
  }

  lemma DistinctStored(kh: KeyHash, sc: Scope, cs: seq<Candle>)
    requires AllMembers(kh, sc.ident, cs) && DistinctKeys(RulesFor(kh, sc), cs)
    ensures DistinctKeys(RulesFor(kh, sc), Map(Store, cs))
  {
    forall i | 0 <= i < |cs| ensures Store(cs[i]).key == cs[i].key {
      assert cs[i] in cs;
      StoreKeepsMember(kh, sc.ident, cs[i]);
    }
  }

  lemma StoredPairsOk(kh: KeyHash, sc: Scope, ws: seq<Candle>, info: seq<Candle>, a: Candle, b: Candle)
    requires AllMembers(kh, sc.ident, ws) && AllMembers(kh, sc.ident, info)
    requires forall a, b :: a in ws && b in info && a.key == b.key ==> PairOk(a, b)
    requires a in Map(Store, ws) && b in Map(Store, info) && a.key == b.key
    ensures PairOk(a, b)
  {
    var i :| 0 <= i < |ws| && Map(Store, ws)[i] == a;
    var j :| 0 <= j < |info| && Map(Store, info)[j] == b;
    StoreKeepsMember(kh, sc.ident, ws[i]);
    StoreKeepsMember(kh, sc.ident, info[j]);
    StoreKeepsPairOk(ws[i], info[j]);
  }

  /** Stored extractions are bindable when the originals are. */
  lemma StoredIsBindable(hs: Hashes, ws: Extraction, info: Extraction)
    requires Bindable(hs, ws, info)
    ensures Bindable(hs, StoreExtraction(ws), StoreExtraction(info))
  {
    StoreTwice(ws, hs, WebSocket);
    StoreTwice(info, hs, Info);
    assert AllMembers(hs.key, ws.ident, ws.candles) && AllMembers(hs.key, ws.ident, info.candles);
    DistinctStored(hs.key, ScopeOf(ws, info), ws.candles);
    DistinctStored(hs.key, ScopeOf(ws, info), info.candles);
    forall a, b | a in Map(Store, ws.candles) && b in Map(Store, info.candles) && a.key == b.key ensures PairOk(a, b) {
      StoredPairsOk(hs.key, ScopeOf(ws, info), ws.candles, info.candles, a, b);
    }
  }

  /** Deriving again from the stored extractions gives the same report. */
  lemma StoredHasSameReport(hs: Hashes, ws: Extraction, info: Extraction, report: Report)
    requires Bindable(hs, ws, info) && IsReport(hs, ws, info, report)
    ensures IsReport(hs, report.ws, report.info, report)
  {
    assert AllMembers(hs.key, ws.ident, ws.candles) && AllMembers(hs.key, ws.ident, info.candles);
    StoreKeeps(hs.key, ScopeOf(ws, info), ws.candles, info.candles);
    JoinOfStored(ReportRules(hs, ws, info), Store, ws.candles, info.candles, report.items);
    StoreTwice(ws, hs, WebSocket);
    StoreTwice(info, hs, Info);
  }

  function StoreOption(c: Option<Candle>): Option<Candle> { if c.Some? then Some(Store(c.value)) else None }

  function StoreItem(item: Item<Comparison>): Item<Comparison> {
    item.(verdict := item.verdict.(ws := StoreOption(item.verdict.ws), info := StoreOption(item.verdict.info)))
  }

  /** A report through its JSON form: what validation compares. */
  function StoreReport(r: Report): Report {
    r.(ws := StoreExtraction(r.ws), info := StoreExtraction(r.info), items := seq(|r.items|, i requires 0 <= i < |r.items| => StoreItem(r.items[i])))
  }

  lemma DerivedItemIsStored(kh: KeyHash, sc: Scope, ws: seq<Candle>, info: seq<Candle>, item: Item<Comparison>)
    requires ItemOk(RulesFor(kh, sc), ws, info, item)
    ensures StoreItem(item) == item
  {
    var rules := RulesFor(kh, sc);
    var l, r := Find(rules, ws, |ws|, item.key), Find(rules, info, |info|, item.key);
    assert Judge(kh, sc, l, r) == Some(item.verdict);
    VerdictIsStored(kh, sc, l, r, item.verdict);
  }

  lemma VerdictIsStored(kh: KeyHash, sc: Scope, l: Option<Candle>, r: Option<Candle>, v: Comparison)
    requires Judge(kh, sc, l, r) == Some(v)
    ensures StoreOption(v.ws) == v.ws && StoreOption(v.info) == v.info
  {
    if l.Some? { RereadIsIdempotent(l.value); }
    if r.Some? { RereadIsIdempotent(r.value); }
  }

  lemma DerivedReportIsStored(hs: Hashes, ws: Extraction, info: Extraction, report: Report)
    requires Bindable(hs, ws, info) && IsReport(hs, ws, info, report)
    ensures StoreReport(report) == report
  {
    StoreTwice(ws, hs, WebSocket);
    StoreTwice(info, hs, Info);
    forall i | 0 <= i < |report.items| ensures StoreItem(report.items[i]) == report.items[i] {
      DerivedItemIsStored(hs.key, ScopeOf(ws, info), ws.candles, info.candles, report.items[i]);
    }
  }

  /** `validate_report`: accepts exactly the report its own extractions determine, under its digest. */
  method ValidateReport(hs: Hashes, report: Report) returns (ok: bool)
    ensures ok <==> Bindable(hs, report.ws, report.info) && IsReport(hs, report.ws, report.info, StoreReport(report))
  {
    var expected := Derive(hs, report.ws, report.info);
    if IsReport(hs, report.ws, report.info, StoreReport(report)) && expected.Some? {
      ReportIsUnique(hs, report.ws, report.info, StoreReport(report), expected.value);
    }
    if expected.None? { return false; }
    if report.wsEvent != report.ws.event || report.wsDigest != report.ws.digest { return false; }
    if report.infoEvent != report.info.event || report.infoDigest != report.info.digest { return false; }
    if StoreReport(report).(digest := "") != expected.value.(digest := "") { return false; }
    return report.digest == hs.report(expected.value.(digest := ""));
  }

  /** `bind`: a derived report always passes its own validation. */
  method Bind(hs: Hashes, ws: Extraction, info: Extraction) returns (r: Option<Report>)
    ensures r.Some? <==> Bindable(hs, ws, info)
    ensures r.Some? ==> IsReport(hs, ws, info, r.value)
  {
    r := Derive(hs, ws, info);
    if r.None? { return; }
    StoredIsBindable(hs, ws, info);
    StoredHasSameReport(hs, ws, info, r.value);
    DerivedReportIsStored(hs, ws, info, r.value);
    var ok := ValidateReport(hs, r.value);
    if !ok { return None; }
  }
}
