/**
The records of a native log: one envelope a line, behind the startup separator of the run's own
marker, without another run's marker or a second title, and with a final newline.
*/
module LogRecords {
  import opened Wrappers
  import opened LineReader

  /** What the reader looks at: the component, and whether the message is the startup separator or a title. */
  datatype Envelope = Envelope(component: string, separator: bool, title: bool)

  /** None for a line that is no JSON object, repeats a key, or has a malformed field, level or timestamp. */
  type Parser = string -> Option<Envelope>

  const MARKER_PREFIX := "L0-NATIVE-"

  predicate IsMarker(e: Envelope) { MARKER_PREFIX <= e.component }

  predicate IsTitle(e: Envelope) { IsMarker(e) && e.title }

  predicate BeginsRun(begin: string, es: seq<Envelope>) { es == [] || (es[0].component == begin && es[0].separator) }

  /** The envelopes of one run: its separator first, no foreign marker, at most one title. */
  predicate OneRun(begin: string, es: seq<Envelope>) {
    && BeginsRun(begin, es)
    && (forall i :: 0 <= i < |es| && IsMarker(es[i]) ==> es[i].component == begin)
    && (forall i, j :: 0 <= i < j < |es| && IsTitle(es[i]) ==> !IsTitle(es[j]))
  }

  /** The envelope on each line. */
  ghost predicate Parses(parse: Parser, text: string, lines: seq<Span>, es: seq<Envelope>) {
    |es| == |lines| && forall i :: 0 <= i < |lines| ==> ParsesAt(parse, text, lines[i], es[i])
  }

  ghost predicate ParsesAt(parse: Parser, text: string, line: Span, e: Envelope) {
    line.from <= line.to <= |text| && parse(text[line.from..line.to]) == Some(e)
  }

  /** A complete log: it ends in a newline and its lines are the envelopes of one run. */
  ghost predicate IsLog(parse: Parser, begin: string, text: string, es: seq<Envelope>) {
    EndsInNewline(text) && es != [] && Parses(parse, text, Split(text).lines, es) && OneRun(begin, es)
  }

  function Titles(es: seq<Envelope>, n: nat): nat
    requires n <= |es|
  {
    if n == 0 then 0 else Titles(es, n - 1) + if IsTitle(es[n - 1]) then 1 else 0
  }

  lemma {:induction false} NoTitle(es: seq<Envelope>, n: nat)
    requires n <= |es|
    ensures Titles(es, n) == 0 <==> forall i :: 0 <= i < n ==> !IsTitle(es[i])
  {
    if n > 0 { NoTitle(es, n - 1); }
  }

  /** One more envelope keeps the run exactly if it passes the tests of the loop. */
  lemma RunGrows(begin: string, es: seq<Envelope>, e: Envelope)
    requires OneRun(begin, es)
    ensures OneRun(begin, es + [e]) <==>
              && (es == [] ==> e.component == begin && e.separator)
              && (IsMarker(e) ==> e.component == begin) && (IsTitle(e) ==> Titles(es, |es|) == 0)
  {
    NoTitle(es, |es|);
    var all := es + [e];
    assert all[|es|] == e && forall i :: 0 <= i < |es| ==> all[i] == es[i];
  }

  lemma {:induction false} TitlesOfPrefix(es: seq<Envelope>, e: Envelope, n: nat)
    requires n <= |es|
    ensures Titles(es + [e], n) == Titles(es, n)
  {
    if n > 0 { TitlesOfPrefix(es, e, n - 1); }
  }

  lemma ParsingIsUnique(parse: Parser, text: string, lines: seq<Span>, es: seq<Envelope>, es': seq<Envelope>)
    requires Parses(parse, text, lines, es) && Parses(parse, text, lines, es')
    ensures es == es'
  {
    forall i | 0 <= i < |es| ensures es[i] == es'[i] {
      assert ParsesAt(parse, text, lines[i], es[i]) && ParsesAt(parse, text, lines[i], es'[i]);
    }
  }

  lemma ParsingOfPrefix(parse: Parser, text: string, lines: seq<Span>, es: seq<Envelope>, n: nat)
    requires Parses(parse, text, lines, es) && n <= |lines|
    ensures Parses(parse, text, lines[..n], es[..n])
  {
    forall i | 0 <= i < n ensures ParsesAt(parse, text, lines[..n][i], es[..n][i]) {
      assert ParsesAt(parse, text, lines[i], es[i]);
    }
  }

  lemma RunOfPrefix(begin: string, es: seq<Envelope>, n: nat)
    requires OneRun(begin, es) && n <= |es|
    ensures OneRun(begin, es[..n])
  {
  }

  lemma StepDecides(parse: Parser, begin: string, text: string, lines: seq<Span>, n: nat, es: seq<Envelope>, es': seq<Envelope>)
    requires n < |lines| && Parses(parse, text, lines[..n], es) && Parses(parse, text, lines[..n + 1], es')
    ensures ParsesAt(parse, text, lines[n], es'[n]) && es' == es + [es'[n]]
  {
    ParsingOfPrefix(parse, text, lines[..n + 1], es', n);
    assert lines[..n + 1][..n] == lines[..n] && lines[..n + 1][n] == lines[n];
    ParsingIsUnique(parse, text, lines[..n], es, es'[..n]);
    assert ParsesAt(parse, text, lines[..n + 1][n], es'[n]);
    assert es' == es'[..n] + [es'[n]];
  }

  lemma ParsingGrows(parse: Parser, text: string, lines: seq<Span>, n: nat, es: seq<Envelope>, e: Envelope)
    requires n < |lines| && Parses(parse, text, lines[..n], es) && ParsesAt(parse, text, lines[n], e)
    ensures Parses(parse, text, lines[..n + 1], es + [e])
  {
    forall i | 0 <= i < n + 1 ensures ParsesAt(parse, text, lines[..n + 1][i], (es + [e])[i]) {
      if i < n { assert ParsesAt(parse, text, lines[..n][i], es[i]); }
    }
  }

  /** The tests on each line, with the count of titles; None at the first line that fails one. */
  method CheckLines(parse: Parser, begin: string, text: string, lines: seq<Span>) returns (r: Option<seq<Envelope>>)
    requires forall i :: 0 <= i < |lines| ==> lines[i].from <= lines[i].to <= |text|
    ensures r.Some? ==> Parses(parse, text, lines, r.value) && OneRun(begin, r.value)
    ensures r.None? ==> forall es :: Parses(parse, text, lines, es) ==> !OneRun(begin, es)
  {
    var es: seq<Envelope> := [];
    var titles, n := 0, 0;
    while n < |lines|
      invariant 0 <= n <= |lines| && Parses(parse, text, lines[..n], es) && OneRun(begin, es) && titles == Titles(es, |es|)
    {
      var parsed := parse(text[lines[n].from..lines[n].to]);
      var ok := parsed.Some? && (n > 0 || (parsed.value.component == begin && parsed.value.separator));
      if ok && IsMarker(parsed.value) { ok := parsed.value.component == begin && (!parsed.value.title || titles == 0); }
      if parsed.Some? {
        RunGrows(begin, es, parsed.value);
        ParsingGrows(parse, text, lines, n, es, parsed.value);
      }
      if !ok {
        forall es' | Parses(parse, text, lines, es') ensures !OneRun(begin, es') {
          ParsingOfPrefix(parse, text, lines, es', n + 1);
          StepDecides(parse, begin, text, lines, n, es, es'[..n + 1]);
          if OneRun(begin, es') { RunOfPrefix(begin, es', n + 1); }
        }
        return None;
      }
      TitlesOfPrefix(es, parsed.value, |es|);
      if IsTitle(parsed.value) { titles := titles + 1; }
      es := es + [parsed.value];
      n := n + 1;
    }
    assert lines[..n] == lines;
    return Some(es);
  }

  lemma {:induction false} LinesAreInText(text: string, start: nat, i: nat)
    requires start <= |text| && i < |Drain(text, start, |text|, false).lines|
    ensures var line := Drain(text, start, |text|, false).lines[i]; line.from <= line.to <= |text|
    decreases |text| - start
  {
    var c := Cut(text, start, |text|, false);
    if c.Line? && i > 0 { LinesAreInText(text, c.next, i - 1); }
  }

  predicate EndsInNewline(text: string) { text != "" && text[|text| - 1] == '\n' }

  /** `records`: accepts a log that fits the budget exactly if it is complete, whatever pieces it is read in. */
  method ReadRecords(parse: Parser, begin: string, text: string, stops: seq<nat>, budget: nat) returns (r: Option<seq<Envelope>>)
    requires Reads(text, stops)
    ensures r.Some? ==> ReadLog(text, stops, budget).Some? && IsLog(parse, begin, text, r.value)
    ensures r.None? ==> ReadLog(text, stops, budget).None? || forall es :: !IsLog(parse, begin, text, es)
  {
    var scan := ReadFile(text, stops, budget);
    if scan.None? { return None; }
    CutsAreInvisible(text, stops, budget);
    var lines := scan.value.lines;
    forall i | 0 <= i < |lines| ensures lines[i].from <= lines[i].to <= |text| { LinesAreInText(text, 0, i); }
    r := CheckLines(parse, begin, text, lines);
    if EndsInNewline(text) { FinalNewlineLeavesNoTail(text, 0); }
    if scan.value.start < |text| || !EndsInNewline(text) || |lines| == 0 { return None; }
  }
}
