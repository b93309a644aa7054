/** The batch scan of `AnalyzeFile` (`internal/analyzer/analyzer.go`).

    Opening the source (a file, or a started process with a stdout pipe)
    and reading it line by line are I/O: the model receives their outcome
    as data. A scanned line carries the instant it was read, which is what
    `time.Now()` stamps on its records. */
module Batch {
  import opened Wrappers
  import opened Text
  import opened Config
  import opened Matcher
  import opened Sources
  import opened Seqs

  /** One token of `bufio.Scanner` and the time it was matched. */
  datatype ScannedLine = ScannedLine(text: string, at: Time)

  /** Everything a scanner yields: its lines, then `scanner.Err()`. */
  datatype Stream = Stream(lines: seq<ScannedLine>, err: Option<Error>)

  /** Starting a process source: `StdoutPipe`, then `Start`, then its
      output and its exit status (what `cmd.Wait()` would report). */
  datatype Launch =
    | PipeFailed(e: Error)
    | StartFailed(e: Error)
    | Started(out: Stream, exit: Option<Error>)

  /** Opening a file source with `os.Open`. */
  datatype Opening =
    | OpenFailed(e: Error)
    | Opened(out: Stream)

  /** What the environment yields for each batch source. */
  datatype World = World(eventLog: Launch, logShow: Launch, files: string -> Opening)

  /** The pair `AnalyzeFile` returns. */
  datatype Analysis = Analysis(results: seq<Result>, err: Option<Error>)

  /** The records of one scanned line, stamped with the time it was read. */
  function PerLine(rules: seq<Rule>): ScannedLine -> seq<Result>
  {
    (l: ScannedLine) => Match(l.text, rules, l.at)
  }

  /** The scanning loop of `AnalyzeFile`: `Match` folded over the lines. */
  function Scan(lines: seq<ScannedLine>, rules: seq<Rule>): (r: seq<Result>)
    ensures forall x :: x in r ==> exists i :: 0 <= i < |lines| && x in Match(lines[i].text, rules, lines[i].at)
  {
    FlatMapMembers(lines, PerLine(rules));
    FlatMap(lines, PerLine(rules))
  }

  /** The number of rules that fire on a line, counted directly. */
  function CountMatching(line: string, rules: seq<Rule>): nat
  {
    if rules == [] then 0
    else
      var n := |rules| - 1;
      CountMatching(line, rules[..n]) + (if RuleMatches(rules[n], line) then 1 else 0)
  }

  /** The number of records one scanned line contributes. */
  function LineHits(text: string, rules: seq<Rule>): nat
  {
    if AllSpace(text) then 0 else CountMatching(TrimSpace(text), rules)
  }

  function SumHits(lines: seq<ScannedLine>, rules: seq<Rule>): nat
  {
    if lines == [] then 0
    else LineHits(lines[0].text, rules) + SumHits(lines[1..], rules)
  }

  lemma {:induction false} HitIndicesCount(line: string, rules: seq<Rule>)
    ensures |HitIndices(line, rules)| == CountMatching(line, rules)
  {
    if rules != [] {
      HitIndicesCount(line, rules[..|rules| - 1]);
    }
  }

  /** A scan of one line is the matcher applied to that line. */
  lemma ScanSingle(l: ScannedLine, rules: seq<Rule>)
    ensures Scan([l], rules) == Match(l.text, rules, l.at)
  {
    FlatMapSingle(l, PerLine(rules));
    assert PerLine(rules)(l) == Match(l.text, rules, l.at);
  }

  /** Scanning distributes over concatenation: the batch output is the
      per-line match sequences concatenated in input-line order. */
  lemma ScanAppend(a: seq<ScannedLine>, b: seq<ScannedLine>, rules: seq<Rule>)
    ensures Scan(a + b, rules) == Scan(a, rules) + Scan(b, rules)
  {
    FlatMapAppend(a, b, PerLine(rules));
  }

  lemma ScanCons(lines: seq<ScannedLine>, rules: seq<Rule>)
    requires lines != []
    ensures Scan(lines, rules) == Match(lines[0].text, rules, lines[0].at) + Scan(lines[1..], rules)
  {
    assert lines == [lines[0]] + lines[1..];
    ScanAppend([lines[0]], lines[1..], rules);
    ScanSingle(lines[0], rules);
  }

  /** One line yields as many records as rules fire on it. */
  lemma MatchCount(l: ScannedLine, rules: seq<Rule>)
    ensures |Match(l.text, rules, l.at)| == LineHits(l.text, rules)
  {
    MatchSpec(l.text, rules, l.at);
    if !AllSpace(l.text) {
      HitIndicesCount(TrimSpace(l.text), rules);
    }
  }

  /** The number of records is the sum over lines of the firing rules. */
  lemma {:induction false} ScanLength(lines: seq<ScannedLine>, rules: seq<Rule>)
    ensures |Scan(lines, rules)| == SumHits(lines, rules)
  {
    if lines != [] {
      ScanCons(lines, rules);
      ScanLength(lines[1..], rules);
      MatchCount(lines[0], rules);
    }
  }

  /** Blank lines contribute nothing. */
  lemma {:induction false} ScanBlank(lines: seq<ScannedLine>, rules: seq<Rule>)
    requires forall j :: 0 <= j < |lines| ==> AllSpace(lines[j].text)
    ensures Scan(lines, rules) == []
  {
    if lines != [] {
      MatchSpec(lines[0].text, rules, lines[0].at);
      ScanCons(lines, rules);
      ScanBlank(lines[1..], rules);
    }
  }

  /** The outcome of a started process: the scanned records with the
      scanner's error; the exit status is not consulted. */
  function FromLaunch(l: Launch, rules: seq<Rule>): (a: Analysis)
    ensures !l.Started? ==> a == Analysis([], Some(l.e))
    ensures l.Started? ==> a.results == Scan(l.out.lines, rules) && a.err == l.out.err
  {
    match l
    case PipeFailed(e) => Analysis([], Some(e))
    case StartFailed(e) => Analysis([], Some(e))
    case Started(out, _) => Analysis(Scan(out.lines, rules), out.err)
  }

  function FromOpening(o: Opening, rules: seq<Rule>): (a: Analysis)
    ensures o.OpenFailed? ==> a == Analysis([], Some(o.e))
    ensures o.Opened? ==> a.results == Scan(o.out.lines, rules) && a.err == o.out.err
  {
    match o
    case OpenFailed(e) => Analysis([], Some(e))
    case Opened(out) => Analysis(Scan(out.lines, rules), out.err)
  }

  /** `AnalyzeFile`: select the source, acquire it, scan it. */
  function AnalyzeFile(p: Platform, target: string, rules: seq<Rule>, w: World): (a: Analysis)
    ensures Resolve(p, target) == EventLogQuery ==> a == FromLaunch(w.eventLog, rules)
    ensures Resolve(p, target) == LogShow ==> a == FromLaunch(w.logShow, rules)
    ensures Resolve(p, target).LogFile? ==> a == FromOpening(w.files(FilePath(p, target)), rules)
  {
    match Resolve(p, target)
    case EventLogQuery => FromLaunch(w.eventLog, rules)
    case LogShow => FromLaunch(w.logShow, rules)
    case LogFile(path) => FromOpening(w.files(path), rules)
  }

  /** Two launches that differ at most in the exit status. */
  predicate SameButExit(l1: Launch, l2: Launch) {
    if l1.Started? then l2.Started? && l2.out == l1.out else l2 == l1
  }

  /** A process's exit status never reaches the caller of `AnalyzeFile`:
      worlds that differ only in the exit statuses of their processes give
      the same analysis. */
  lemma AnalyzeIgnoresExit(p: Platform, target: string, rules: seq<Rule>, w1: World, w2: World)
    requires SameButExit(w1.eventLog, w2.eventLog) && SameButExit(w1.logShow, w2.logShow)
    requires w1.files == w2.files
    ensures AnalyzeFile(p, target, rules, w1) == AnalyzeFile(p, target, rules, w2)
  {
  }

  /** A scanner error does not discard what was matched before it: the
      records come back together with that error. */
  lemma AnalyzeKeepsPartialResults(p: Platform, target: string, rules: seq<Rule>, w: World,
                                   read: seq<ScannedLine>, e: Error)
    requires Resolve(p, target).LogFile?
    requires w.files(FilePath(p, target)) == Opened(Stream(read, Some(e)))
    ensures AnalyzeFile(p, target, rules, w) == Analysis(Scan(read, rules), Some(e))
  {
  }

  /** The body of the scanning loop of `AnalyzeFile`: a blank line gives
      nothing; any other line gives one record per firing rule, in rule
      order, each holding the trimmed line and that rule's name and type. */
  method ScanOne(l: ScannedLine, rules: seq<Rule>) returns (found: seq<Result>)
    ensures AllSpace(l.text) ==> found == []
    ensures !AllSpace(l.text) ==>
      var t := TrimSpace(l.text);
      var h := HitIndices(t, rules);
      && |found| == |h|
      && forall k :: 0 <= k < |found| ==> found[k] == Hit(t, rules[h[k]], l.at)
    ensures found == Match(l.text, rules, l.at)
  {
    var line := TrimSpace(l.text);
    if line == [] {
      found := [];
    } else {
      found := MatchLoop(line, rules, l.at);
    }
    MatchSpec(l.text, rules, l.at);
  }

  /** The scanning loop of `AnalyzeFile` as written, over every line the
      scanner yields. */
  method ScanLoop(lines: seq<ScannedLine>, rules: seq<Rule>) returns (result: seq<Result>)
    ensures result == Scan(lines, rules)
  {
    result := [];
    var j := 0;
    while j < |lines|
      invariant 0 <= j <= |lines|
      invariant result == Scan(lines[..j], rules)
    {
      var found := ScanOne(lines[j], rules);
      FlatMapSnoc(lines, j, PerLine(rules));
      result := result + found;
      j := j + 1;
    }
    assert lines[..j] == lines;
  }
}
